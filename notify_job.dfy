/** The due-subscription notification job: one query picks the
    subscriptions whose billing day lies in [today, today + 1]; the rows are
    grouped by user in a dictionary whose keys keep their first-insertion
    order; each user then gets ONE reminder (singular or plural body by group
    size), sent once to every push endpoint the user has registered. A failed
    send is swallowed; a failed query aborts the rest of the pass. */
module NotifyJob {
  import opened Js
  import opened Seqs
  import SubscriptionModel
  import opened PushModel

  /** A row of the due query: `SELECT s.user_id, s.name, s.next_billing_date`. */
  datatype DueRow = DueRow(user_id: Id, name: JsVal, next_billing_date: int)

  /** `next_billing_date BETWEEN CURDATE() AND DATE_ADD(CURDATE(), INTERVAL 1 DAY)`,
      with days as integers and both ends included. */
  predicate InWindow(day: int, today: int) {
    today <= day <= today + 1
  }

  function DueOn(today: int): SubscriptionModel.Subscription -> bool {
    (s: SubscriptionModel.Subscription) => InWindow(s.next_billing_date, today)
  }

  function Project(s: SubscriptionModel.Subscription): DueRow {
    DueRow(s.user_id, s.name, s.next_billing_date)
  }

  /** The selected columns of each row. */
  function ProjectAll(subs: seq<SubscriptionModel.Subscription>): (r: seq<DueRow>)
    ensures |r| == |subs|
    ensures forall i :: 0 <= i < |subs| ==> r[i] == Project(subs[i])
  {
    seq(|subs|, i requires 0 <= i < |subs| => Project(subs[i]))
  }

  lemma ProjectAllMembers(subs: seq<SubscriptionModel.Subscription>)
    ensures forall s :: s in subs ==> Project(s) in ProjectAll(subs)
  {
    var r := ProjectAll(subs);
    forall s | s in subs ensures Project(s) in r {
      var k :| 0 <= k < |subs| && subs[k] == s;
      assert r[k] == Project(s);
    }
  }

  lemma ProjectAllSources(rows: seq<SubscriptionModel.Subscription>, subs: seq<SubscriptionModel.Subscription>)
    requires forall x :: x in rows ==> x in subs
    ensures forall y :: y in ProjectAll(rows) ==> exists x :: x in subs && Project(x) == y
  {
    var r := ProjectAll(rows);
    forall y | y in r ensures exists x :: x in subs && Project(x) == y {
      var k :| 0 <= k < |r| && r[k] == y;
      assert rows[k] in rows;
    }
  }

  /** The rows `getUsersWithDueSubscriptions` reads, in table order. No
      column but the billing day takes part in the choice. */
  function SelectDue(subs: seq<SubscriptionModel.Subscription>, today: int): (r: seq<DueRow>)
    ensures forall s :: s in subs && InWindow(s.next_billing_date, today) ==> Project(s) in r
    ensures forall i :: 0 <= i < |r| ==> InWindow(r[i].next_billing_date, today)
    ensures forall y :: y in r ==> exists s :: s in subs && Project(s) == y
  {
    var due := Filter(subs, DueOn(today));
    ProjectAllMembers(due);
    ProjectAllSources(due, subs);
    assert forall i :: 0 <= i < |due| ==> DueOn(today)(due[i]);
    ProjectAll(due)
  }

  function UserIds(rows: seq<DueRow>): (r: seq<Id>)
    ensures |r| == |rows|
    ensures forall i :: 0 <= i < |rows| ==> r[i] == rows[i].user_id
  {
    seq(|rows|, i requires 0 <= i < |rows| => rows[i].user_id)
  }

  /** The keys of `userMap` in insertion order: each user once, in the order
      of its first due row. (User ids are uuid strings, never integer-like,
      so `Object.entries` returns keys in insertion order.) */
  function UsersOf(rows: seq<DueRow>): seq<Id> {
    Dedup(UserIds(rows))
  }

  function RowOfUser(user: Id): DueRow -> bool {
    (r: DueRow) => r.user_id == user
  }

  /** `userMap[user]`: that user's due rows, in query order. */
  function GroupOf(rows: seq<DueRow>, user: Id): (g: seq<DueRow>)
    ensures forall x :: x in g <==> x in rows && x.user_id == user
  {
    Filter(rows, RowOfUser(user))
  }

  /** The subscriptions of `user` that fall due in the window. */
  function DueOfUser(user: Id, today: int): SubscriptionModel.Subscription -> bool {
    (s: SubscriptionModel.Subscription) => s.user_id == user && InWindow(s.next_billing_date, today)
  }

  lemma ProjectAllSnoc(subs: seq<SubscriptionModel.Subscription>, s: SubscriptionModel.Subscription)
    ensures ProjectAll(subs + [s]) == ProjectAll(subs) + [Project(s)]
  {
  }

  lemma SelectDueSnoc(subs: seq<SubscriptionModel.Subscription>, s: SubscriptionModel.Subscription, today: int)
    ensures SelectDue(subs + [s], today)
            == SelectDue(subs, today) + (if InWindow(s.next_billing_date, today) then [Project(s)] else [])
  {
    var ss := subs + [s];
    assert ss[..|ss| - 1] == subs && ss[|ss| - 1] == s;
    var due := Filter(subs, DueOn(today));
    if InWindow(s.next_billing_date, today) {
      ProjectAllSnoc(due, s);
    }
  }

  /** Each due subscription gives its own row: a user's group holds one row
      per due subscription of that user, in table order, so rows that agree
      on every selected column are not merged. */
  lemma {:induction false} SelectDueGroups(subs: seq<SubscriptionModel.Subscription>, today: int, user: Id)
    ensures GroupOf(SelectDue(subs, today), user) == ProjectAll(Filter(subs, DueOfUser(user, today)))
    ensures |GroupOf(SelectDue(subs, today), user)| == |Filter(subs, DueOfUser(user, today))|
    decreases |subs|
  {
    if subs != [] {
      var init, s := subs[..|subs| - 1], subs[|subs| - 1];
      assert subs == init + [s];
      SelectDueGroups(init, today, user);
      SelectDueSnoc(init, s, today);
      var due := SelectDue(init, today);
      if InWindow(s.next_billing_date, today) {
        GroupOfSnoc(due, Project(s), user);
        if s.user_id == user {
          ProjectAllSnoc(Filter(init, DueOfUser(user, today)), s);
        }
      } else {
        assert due + [] == due;
      }
    }
  }

  lemma UsersOfSnoc(rows: seq<DueRow>, r: DueRow)
    ensures UsersOf(rows + [r])
            == if r.user_id in UsersOf(rows) then UsersOf(rows) else UsersOf(rows) + [r.user_id]
  {
    var ids := UserIds(rows + [r]);
    assert ids == UserIds(rows) + [r.user_id];
    assert ids[..|ids| - 1] == UserIds(rows);
  }

  lemma GroupOfSnoc(rows: seq<DueRow>, r: DueRow, user: Id)
    ensures GroupOf(rows + [r], user) == GroupOf(rows, user) + (if r.user_id == user then [r] else [])
  {
    var rr := rows + [r];
    assert rr[..|rr| - 1] == rows && rr[|rr| - 1] == r;
  }

  /** A user without a due row has an empty group. */
  lemma GroupOfAbsent(rows: seq<DueRow>, user: Id)
    requires user !in UsersOf(rows)
    ensures GroupOf(rows, user) == []
  {
    forall i | 0 <= i < |rows| ensures !RowOfUser(user)(rows[i]) {
      assert UserIds(rows)[i] in UserIds(rows);
    }
    FilterNone(rows, RowOfUser(user));
  }

  /** `order` and `groups` hold the dictionary built from `rows`. */
  ghost predicate Grouped(rows: seq<DueRow>, order: seq<Id>, groups: map<Id, seq<DueRow>>) {
    && order == UsersOf(rows)
    && (forall u :: u in groups <==> u in order)
    && (forall u :: u in groups ==> groups[u] == GroupOf(rows, u))
  }

  /** One iteration of the grouping loop keeps the dictionary in step:
      `order'` and `groups'` are the dictionary after `row` is added. */
  lemma GroupStep(rows: seq<DueRow>, row: DueRow, order: seq<Id>, groups: map<Id, seq<DueRow>>,
                  order': seq<Id>, groups': map<Id, seq<DueRow>>)
    requires Grouped(rows, order, groups)
    requires order' == if row.user_id in groups then order else order + [row.user_id]
    requires groups' == groups[row.user_id := (if row.user_id in groups then groups[row.user_id] else []) + [row]]
    ensures Grouped(rows + [row], order', groups')
  {
    GroupKeysStep(rows, row, order, groups);
    GroupEntriesStep(rows, row, order, groups);
  }

  lemma GroupKeysStep(rows: seq<DueRow>, row: DueRow, order: seq<Id>, groups: map<Id, seq<DueRow>>)
    requires Grouped(rows, order, groups)
    ensures var order' := if row.user_id in groups then order else order + [row.user_id];
      && order' == UsersOf(rows + [row])
      && forall u :: u in groups[row.user_id := []] <==> u in order'
  {
    UsersOfSnoc(rows, row);
    assert row.user_id in groups <==> row.user_id in order;
  }

  lemma GroupEntriesStep(rows: seq<DueRow>, row: DueRow, order: seq<Id>, groups: map<Id, seq<DueRow>>)
    requires Grouped(rows, order, groups)
    ensures var groups' := groups[row.user_id := (if row.user_id in groups then groups[row.user_id] else []) + [row]];
      forall u :: u in groups' ==> groups'[u] == GroupOf(rows + [row], u)
  {
    var groups' := groups[row.user_id := (if row.user_id in groups then groups[row.user_id] else []) + [row]];
    forall u | u in groups' ensures groups'[u] == GroupOf(rows + [row], u) {
      GroupEntryStep(rows, row, order, groups, u);
    }
  }

  /** The entry of one key after an iteration. */
  lemma GroupEntryStep(rows: seq<DueRow>, row: DueRow, order: seq<Id>, groups: map<Id, seq<DueRow>>, u: Id)
    requires Grouped(rows, order, groups)
    requires u in groups || u == row.user_id
    ensures groups[row.user_id := (if row.user_id in groups then groups[row.user_id] else []) + [row]][u]
            == GroupOf(rows + [row], u)
  {
    GroupOfSnoc(rows, row, u);
    if u == row.user_id && u !in groups {
      assert u !in order;
      GroupOfAbsent(rows, u);
    }
  }

  /** Lines 23-27: the grouping loop. `order` lists the dictionary's keys in
      insertion order and `groups` maps each key to its array; a missing key
      starts as an empty array. */
  method GroupByUser(rows: seq<DueRow>) returns (order: seq<Id>, groups: map<Id, seq<DueRow>>)
    ensures order == UsersOf(rows)
    ensures forall u :: u in groups <==> u in order
    ensures forall u :: u in groups ==> groups[u] == GroupOf(rows, u)
  {
    order, groups := [], map[];
    ghost var seen: seq<DueRow> := [];
    var i := 0;
    while i < |rows|
      invariant 0 <= i <= |rows|
      invariant seen == rows[..i]
      invariant Grouped(seen, order, groups)
    {
      var row := rows[i];
      var group := if row.user_id in groups then groups[row.user_id] else [];
      var order' := if row.user_id in groups then order else order + [row.user_id];
      var groups' := groups[row.user_id := group + [row]];
      GroupStep(seen, row, order, groups, order', groups');
      order, groups := order', groups';
      PrefixSnoc(rows, i);
      seen := seen + [row];
      i := i + 1;
    }
    assert seen == rows;
  }

  /** No group is empty: every key of the dictionary has a row. */
  lemma GroupsNonEmpty(rows: seq<DueRow>, user: Id)
    requires user in UsersOf(rows)
    ensures GroupOf(rows, user) != []
  {
    var k :| 0 <= k < |rows| && UserIds(rows)[k] == user;
    assert rows[k] in GroupOf(rows, user);
  }

  function SumSizes(users: seq<Id>, rows: seq<DueRow>): nat {
    if users == [] then 0 else |GroupOf(rows, users[0])| + SumSizes(users[1..], rows)
  }

  lemma {:induction false} SumSizesAppend(users: seq<Id>, w: Id, rows: seq<DueRow>)
    ensures SumSizes(users + [w], rows) == SumSizes(users, rows) + |GroupOf(rows, w)|
    decreases |users|
  {
    if users != [] {
      assert (users + [w])[1..] == users[1..] + [w];
      SumSizesAppend(users[1..], w, rows);
    }
  }

  lemma {:induction false} SumSizesSnocRow(users: seq<Id>, rows: seq<DueRow>, r: DueRow)
    requires NoDups(users)
    ensures SumSizes(users, rows + [r]) == SumSizes(users, rows) + (if r.user_id in users then 1 else 0)
    decreases |users|
  {
    if users != [] {
      var rr := rows + [r];
      assert rr[..|rr| - 1] == rows && rr[|rr| - 1] == r;
      assert |GroupOf(rr, users[0])| == |GroupOf(rows, users[0])| + (if r.user_id == users[0] then 1 else 0);
      assert NoDups(users[1..]);
      assert r.user_id == users[0] ==> r.user_id !in users[1..];
      SumSizesSnocRow(users[1..], rows, r);
    }
  }

  /** Grouping loses and duplicates nothing: the group sizes add up to the
      number of due rows. */
  lemma {:induction false} GroupSizesSum(rows: seq<DueRow>)
    ensures SumSizes(UsersOf(rows), rows) == |rows|
    decreases |rows|
  {
    if rows != [] {
      var init, r := rows[..|rows| - 1], rows[|rows| - 1];
      assert rows == init + [r];
      GroupSizesSum(init);
      UsersOfSnoc(init, r);
      var before := UsersOf(init);
      SumSizesSnocRow(before, init, r);
      if r.user_id !in before {
        SumSizesAppend(before, r.user_id, rows);
        GroupOfAbsent(init, r.user_id);
        GroupOfSnoc(init, r, r.user_id);
      }
    }
  }

  const Title: string := "Subscription Due Reminder"
  const Url: string := "https://subman.org/"

  /** The object handed to `sendPushToUser` (lines 58-62). */
  datatype Message = Message(title: string, body: string, url: string)

  /** Lines 52-57. `formatDate` is the text JavaScript writes for a date
      value, which is not modelled. */
  function ReminderBody(group: seq<DueRow>, formatDate: int -> string): (r: string)
    ensures |group| == 1 ==>
              var date := formatDate(group[0].next_billing_date);
              |r| >= 19 + |date| && r[..19] == "Your subscription \"" && r[|r| - |date|..] == date
    ensures |group| != 1 ==>
              && |r| > 33 && r[..9] == "You have " && r[|r| - 24..] == " subscriptions due soon!"
              && (forall i :: 9 <= i < |r| - 24 ==> '0' <= r[i] <= '9')
              && DigitsValue(r[9..|r| - 24]) == |group|
  {
    if |group| == 1 then
      "Your subscription \"" + ToText(group[0].name) + "\" is due on " + formatDate(group[0].next_billing_date)
    else
      var count := NatToString(|group|);
      var r := "You have " + count + " subscriptions due soon!";
      NatToStringRoundTrip(|group|);
      assert r[9..|r| - 24] == count;
      r
  }

  function Reminder(group: seq<DueRow>, formatDate: int -> string): Message {
    Message(Title, ReminderBody(group, formatDate), Url)
  }

  /** A plural body states the group size: two plural bodies are equal only
      for groups of equal size. */
  lemma PluralBodyStatesCount(g1: seq<DueRow>, g2: seq<DueRow>, formatDate: int -> string)
    requires |g1| >= 2 && |g2| >= 2
    requires ReminderBody(g1, formatDate) == ReminderBody(g2, formatDate)
    ensures |g1| == |g2|
  {
    var pre, post := "You have ", " subscriptions due soon!";
    var d1, d2 := NatToString(|g1|), NatToString(|g2|);
    var b1, b2 := pre + d1 + post, pre + d2 + post;
    assert |b1| == |b2|;
    assert d1 == b1[|pre|..|b1| - |post|];
    assert d2 == b2[|pre|..|b2| - |post|];
    NatToStringInjective(|g1|, |g2|);
  }

  /** A one-row body never reads like a plural one. */
  lemma SingleBodyNotPlural(single: seq<DueRow>, group: seq<DueRow>, formatDate: int -> string)
    requires |single| == 1 && |group| >= 2
    ensures ReminderBody(single, formatDate) != ReminderBody(group, formatDate)
  {
    var s1 := "Your subscription \"";
    var s2 := "You have ";
    assert s1[3] == 'r' && s2[3] == ' ';
    assert ReminderBody(single, formatDate)[3] == s1[3];
    assert ReminderBody(group, formatDate)[3] == s2[3];
  }

  /** One reminder for one user. */
  datatype Notice = Notice(user: Id, message: Message)

  /** What the pass intends to send: one notice per user with due rows, in
      the dictionary's key order. */
  function Plan(due: seq<DueRow>, formatDate: int -> string): (p: seq<Notice>)
    ensures |p| == |UsersOf(due)|
    ensures forall i :: 0 <= i < |p| ==>
      p[i].user == UsersOf(due)[i] && p[i].message == Reminder(GroupOf(due, p[i].user), formatDate)
  {
    var users := UsersOf(due);
    seq(|users|, i requires 0 <= i < |users| => Notice(users[i], Reminder(GroupOf(due, users[i]), formatDate)))
  }

  /** Each user with a due row gets exactly one notice, whatever the number
      of its due rows, and users without due rows get none. */
  lemma OneNoticePerUser(due: seq<DueRow>, formatDate: int -> string, user: Id)
    ensures var p := Plan(due, formatDate);
      (user in UserIds(due) ==> exists i :: 0 <= i < |p| && p[i].user == user &&
                                  forall j :: 0 <= j < |p| && p[j].user == user ==> j == i)
      && (user !in UserIds(due) ==> forall j :: 0 <= j < |p| ==> p[j].user != user)
  {
    var p := Plan(due, formatDate);
    var users := UsersOf(due);
    assert NoDups(users);
    if user in UserIds(due) {
      var i :| 0 <= i < |users| && users[i] == user;
      assert p[i].user == user;
      forall j | 0 <= j < |p| && p[j].user == user ensures j == i {
        assert users[j] == users[i];
      }
    } else {
      assert user !in users;
    }
  }

  /** One delivery attempt and whether the push service accepted it. */
  datatype Attempt = Attempt(target: PushRow, message: Message, delivered: bool)

  /** One attempt per endpoint, in order, each with its own outcome. */
  function FanOut(endpoints: seq<PushRow>, m: Message, sendOk: (PushRow, Message) -> bool): seq<Attempt> {
    seq(|endpoints|, i requires 0 <= i < |endpoints| => Attempt(endpoints[i], m, sendOk(endpoints[i], m)))
  }

  /** Lines 31-47, `sendPushToUser`: fetch the user's endpoints (the fetch
      may fail: `fetchFails`), then one send per endpoint; `sendOk` is the
      push service's answer, and a refusal is caught and does not end the loop. */
  method SendPushToUser(pushRows: seq<PushRow>, user: Id, m: Message, fetchFails: bool,
                        sendOk: (PushRow, Message) -> bool)
    returns (fetched: bool, attempts: seq<Attempt>)
    ensures fetched == !fetchFails
    ensures !fetched ==> attempts == []
    ensures fetched ==> attempts == FanOut(EndpointsOf(pushRows, user), m, sendOk)
    ensures fetched ==> |attempts| == |EndpointsOf(pushRows, user)|
    ensures fetched ==> forall i :: 0 <= i < |attempts| ==>
      attempts[i].target == EndpointsOf(pushRows, user)[i] && attempts[i].target.user_id == user
      && attempts[i].message == m && attempts[i].delivered == sendOk(attempts[i].target, m)
  {
    if fetchFails {
      return false, [];
    }
    fetched := true;
    var subs := EndpointsOf(pushRows, user);
    attempts := [];
    var i := 0;
    while i < |subs|
      invariant 0 <= i <= |subs|
      invariant attempts == FanOut(subs[..i], m, sendOk)
    {
      var delivered := sendOk(subs[i], m);
      attempts := attempts + [Attempt(subs[i], m, delivered)];
      i := i + 1;
    }
    assert subs[..i] == subs;
    forall k | 0 <= k < |attempts| ensures attempts[k].target.user_id == user {
      assert subs[k] in subs;
    }
  }

  datatype Outcome = Completed | QueryFailed | FetchFailed(user: Id)

  /** The observable result of a pass: how it ended and the sends it made. */
  datatype Run = Run(outcome: Outcome, attempts: seq<Attempt>)

  /** Lines 51-63 as a specification: each notice in turn is fanned out to
      its user's endpoints; the first user whose endpoint fetch fails ends
      the pass with the sends made so far. */
  function Dispatch(plan: seq<Notice>, pushRows: seq<PushRow>, fetchFails: Id -> bool,
                    sendOk: (PushRow, Message) -> bool): Run
    decreases |plan|
  {
    if plan == [] then Run(Completed, [])
    else if fetchFails(plan[0].user) then Run(FetchFailed(plan[0].user), [])
    else
      var rest := Dispatch(plan[1..], pushRows, fetchFails, sendOk);
      Run(rest.outcome, FanOut(EndpointsOf(pushRows, plan[0].user), plan[0].message, sendOk) + rest.attempts)
  }

  /** Every send of every notice, when no fetch fails. */
  function AllAttempts(plan: seq<Notice>, pushRows: seq<PushRow>, sendOk: (PushRow, Message) -> bool)
    : seq<Attempt>
    decreases |plan|
  {
    if plan == [] then []
    else FanOut(EndpointsOf(pushRows, plan[0].user), plan[0].message, sendOk) + AllAttempts(plan[1..], pushRows, sendOk)
  }

  function EndpointCount(plan: seq<Notice>, pushRows: seq<PushRow>): nat
    decreases |plan|
  {
    if plan == [] then 0 else |EndpointsOf(pushRows, plan[0].user)| + EndpointCount(plan[1..], pushRows)
  }

  /** Exactly one attempt per (notice, endpoint) pair: a user with no
      endpoint costs no attempt. */
  lemma {:induction false} AttemptCount(plan: seq<Notice>, pushRows: seq<PushRow>, sendOk: (PushRow, Message) -> bool)
    ensures |AllAttempts(plan, pushRows, sendOk)| == EndpointCount(plan, pushRows)
    decreases |plan|
  {
    if plan != [] {
      AttemptCount(plan[1..], pushRows, sendOk);
    }
  }

  /** A pass where no fetch fails completes and makes every send. */
  lemma {:induction false} DispatchCompletes(plan: seq<Notice>, pushRows: seq<PushRow>, fetchFails: Id -> bool,
                                             sendOk: (PushRow, Message) -> bool)
    requires forall i :: 0 <= i < |plan| ==> !fetchFails(plan[i].user)
    ensures Dispatch(plan, pushRows, fetchFails, sendOk) == Run(Completed, AllAttempts(plan, pushRows, sendOk))
    decreases |plan|
  {
    if plan != [] {
      assert !fetchFails(plan[0].user);
      assert forall i :: 0 <= i < |plan[1..]| ==> plan[1..][i] == plan[i + 1];
      DispatchCompletes(plan[1..], pushRows, fetchFails, sendOk);
    }
  }

  /** The first failing endpoint fetch ends the pass: the users before it
      got all their sends, that user and the later ones none. */
  lemma {:induction false} DispatchAbortsAt(plan: seq<Notice>, pushRows: seq<PushRow>, fetchFails: Id -> bool,
                                            sendOk: (PushRow, Message) -> bool, k: nat)
    requires k < |plan| && fetchFails(plan[k].user)
    requires forall i :: 0 <= i < k ==> !fetchFails(plan[i].user)
    ensures Dispatch(plan, pushRows, fetchFails, sendOk)
            == Run(FetchFailed(plan[k].user), AllAttempts(plan[..k], pushRows, sendOk))
    decreases k
  {
    if k > 0 {
      assert !fetchFails(plan[0].user);
      var tail := plan[1..];
      assert tail[k - 1] == plan[k];
      assert forall i :: 0 <= i < k - 1 ==> tail[i] == plan[i + 1];
      DispatchAbortsAt(tail, pushRows, fetchFails, sendOk, k - 1);
      assert plan[..k][0] == plan[0];
      assert plan[..k][1..] == tail[..k - 1];
    }
  }

  /** The pairs (endpoint, message) a list of attempts targets. */
  function Targets(attempts: seq<Attempt>): seq<(PushRow, Message)> {
    seq(|attempts|, i requires 0 <= i < |attempts| => (attempts[i].target, attempts[i].message))
  }

  lemma TargetsConcat(a: seq<Attempt>, b: seq<Attempt>)
    ensures Targets(a + b) == Targets(a) + Targets(b)
  {
  }

  lemma TargetsFanOut(e: seq<PushRow>, m: Message, sendOk1: (PushRow, Message) -> bool,
                      sendOk2: (PushRow, Message) -> bool)
    ensures Targets(FanOut(e, m, sendOk1)) == Targets(FanOut(e, m, sendOk2))
  {
  }

  /** Failed sends change nothing about the rest of the pass: whatever the
      push service answers, the same endpoints get the same messages and the
      pass ends the same way. */
  lemma {:induction false} SendFailuresDoNotStopPass(plan: seq<Notice>, pushRows: seq<PushRow>, fetchFails: Id -> bool,
                                                    sendOk1: (PushRow, Message) -> bool,
                                                    sendOk2: (PushRow, Message) -> bool)
    ensures Dispatch(plan, pushRows, fetchFails, sendOk1).outcome == Dispatch(plan, pushRows, fetchFails, sendOk2).outcome
    ensures Targets(Dispatch(plan, pushRows, fetchFails, sendOk1).attempts)
            == Targets(Dispatch(plan, pushRows, fetchFails, sendOk2).attempts)
    decreases |plan|
  {
    if plan != [] && !fetchFails(plan[0].user) {
      SendFailuresDoNotStopPass(plan[1..], pushRows, fetchFails, sendOk1, sendOk2);
      var e := EndpointsOf(pushRows, plan[0].user);
      var f1, f2 := FanOut(e, plan[0].message, sendOk1), FanOut(e, plan[0].message, sendOk2);
      var r1, r2 := Dispatch(plan[1..], pushRows, fetchFails, sendOk1), Dispatch(plan[1..], pushRows, fetchFails, sendOk2);
      TargetsConcat(f1, r1.attempts);
      TargetsConcat(f2, r2.attempts);
      TargetsFanOut(e, plan[0].message, sendOk1, sendOk2);
    }
  }

  /** Every send of the pass carries its recipient's own aggregated
      reminder, titled 'Subscription Due Reminder' and linking to the site. */
  lemma {:induction false} SendsCarryOwnReminder(due: seq<DueRow>, formatDate: int -> string, plan: seq<Notice>,
                                                 pushRows: seq<PushRow>, sendOk: (PushRow, Message) -> bool)
    requires forall i :: 0 <= i < |plan| ==> plan[i].message == Reminder(GroupOf(due, plan[i].user), formatDate)
    ensures forall a :: a in AllAttempts(plan, pushRows, sendOk) ==>
      a.message == Reminder(GroupOf(due, a.target.user_id), formatDate)
      && a.message.title == Title && a.message.url == Url
    decreases |plan|
  {
    if plan != [] {
      SendsCarryOwnReminder(due, formatDate, plan[1..], pushRows, sendOk);
      var e := EndpointsOf(pushRows, plan[0].user);
      forall a | a in FanOut(e, plan[0].message, sendOk)
        ensures a.message == Reminder(GroupOf(due, a.target.user_id), formatDate)
      {
        var k :| 0 <= k < |e| && FanOut(e, plan[0].message, sendOk)[k] == a;
        assert e[k] in e;
      }
    }
  }

  /** The run of a pass that has already made `done`, then runs `r`. */
  function Prepend(done: seq<Attempt>, r: Run): Run {
    Run(r.outcome, done + r.attempts)
  }

  /** One step of the pass at position i: a failed fetch ends it with the
      sends made so far; otherwise the user's sends are added. */
  lemma DispatchAt(plan: seq<Notice>, i: nat, done: seq<Attempt>, pushRows: seq<PushRow>,
                   fetchFails: Id -> bool, sendOk: (PushRow, Message) -> bool)
    requires i < |plan|
    ensures fetchFails(plan[i].user) ==>
      Prepend(done, Dispatch(plan[i..], pushRows, fetchFails, sendOk)) == Run(FetchFailed(plan[i].user), done)
    ensures !fetchFails(plan[i].user) ==>
      Prepend(done, Dispatch(plan[i..], pushRows, fetchFails, sendOk))
      == Prepend(done + FanOut(EndpointsOf(pushRows, plan[i].user), plan[i].message, sendOk),
                 Dispatch(plan[i + 1..], pushRows, fetchFails, sendOk))
  {
    assert plan[i..][0] == plan[i] && plan[i..][1..] == plan[i + 1..];
  }

  /** The notice the loop builds at position i is the planned one. */
  lemma NoticeAt(due: seq<DueRow>, formatDate: int -> string, order: seq<Id>, groups: map<Id, seq<DueRow>>, i: nat)
    requires Grouped(due, order, groups) && i < |order|
    ensures order[i] in groups
    ensures Plan(due, formatDate)[i] == Notice(order[i], Message(Title, ReminderBody(groups[order[i]], formatDate), Url))
  {
  }

  /** Lines 49-65, `notifyDueSubscriptions`. `queryFails` stands for the due
      query failing, `fetchFails` for a user's endpoint query failing. */
  method NotifyDueSubscriptions(subs: seq<SubscriptionModel.Subscription>, pushRows: seq<PushRow>, today: int,
                                formatDate: int -> string, queryFails: bool, fetchFails: Id -> bool,
                                sendOk: (PushRow, Message) -> bool)
    returns (run: Run)
    ensures queryFails ==> run == Run(QueryFailed, [])
    ensures !queryFails ==> run == Dispatch(Plan(SelectDue(subs, today), formatDate), pushRows, fetchFails, sendOk)
  {
    if queryFails {
      return Run(QueryFailed, []);
    }
    var due := SelectDue(subs, today);
    var order, groups := GroupByUser(due);
    assert Grouped(due, order, groups);
    ghost var plan := Plan(due, formatDate);
    var attempts: seq<Attempt> := [];
    var i := 0;
    while i < |order|
      invariant 0 <= i <= |order| == |plan|
      invariant Dispatch(plan, pushRows, fetchFails, sendOk) == Prepend(attempts, Dispatch(plan[i..], pushRows, fetchFails, sendOk))
    {
      var user := order[i];
      NoticeAt(due, formatDate, order, groups, i);
      var message := Message(Title, ReminderBody(groups[user], formatDate), Url);
      DispatchAt(plan, i, attempts, pushRows, fetchFails, sendOk);
      var fetched, sent := SendPushToUser(pushRows, user, message, fetchFails(user), sendOk);
      if !fetched {
        return Run(FetchFailed(user), attempts);
      }
      attempts := attempts + sent;
      i := i + 1;
    }
    assert plan[i..] == [];
    run := Run(Completed, attempts);
  }
}
