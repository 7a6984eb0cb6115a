/** The user router: PUT `/profile` builds an UPDATE statement from two
    parallel lists (SET fragments and bound values); GET `/currency` reads
    the user's default currency with a 'USD' fallback. */
module UserProfile {
  import opened Js
  import opened Seqs

  /** The destructured request body. */
  datatype ProfileBody = ProfileBody(name: JsVal, email: JsVal, password: JsVal, avatarUrl: JsVal)

  /** The four columns the handler may set. */
  datatype Column = Name | Email | AvatarUrl | Password

  function ColumnName(c: Column): (r: string)
    ensures '?' !in r
  {
    match c
    case Name => "name"
    case Email => "email"
    case AvatarUrl => "avatar_url"
    case Password => "password"
  }

  /** One `column = ?` fragment with the value bound to its placeholder. */
  datatype Assignment = Assignment(column: Column, value: JsVal)

  /** `bcrypt.hash(password, 10)`; None when the library throws. */
  type Hasher = JsVal -> Option<string>

  const Timestamp: string := "updated_at = CURRENT_TIMESTAMP"

  function Columns(asg: seq<Assignment>): (r: seq<Column>)
    ensures |r| == |asg|
    ensures forall i :: 0 <= i < |asg| ==> r[i] == asg[i].column
  {
    seq(|asg|, i requires 0 <= i < |asg| => asg[i].column)
  }

  function Fragments(asg: seq<Assignment>): (r: seq<string>)
    ensures |r| == |asg|
    ensures forall i :: 0 <= i < |asg| ==> r[i] == ColumnName(asg[i].column) + " = ?"
  {
    seq(|asg|, i requires 0 <= i < |asg| => ColumnName(asg[i].column) + " = ?")
  }

  function Values(asg: seq<Assignment>): (r: seq<JsVal>)
    ensures |r| == |asg|
    ensures forall i :: 0 <= i < |asg| ==> r[i] == asg[i].value
  {
    seq(|asg|, i requires 0 <= i < |asg| => asg[i].value)
  }

  /** `if (cond) { fields.push(...); values.push(...) }` on the assignment list. */
  function PushIf(asg: seq<Assignment>, cond: bool, a: Assignment): seq<Assignment> {
    if cond then asg + [a] else asg
  }

  /** The assignments the body asks for, in the order the handler pushes
      them; the password is bound to its hash. */
  function Requested(b: ProfileBody, hash: Hasher): seq<Assignment> {
    var h := hash(b.password);
    var asg := PushIf([], Truthy(b.name), Assignment(Name, b.name));
    var asg := PushIf(asg, Truthy(b.email), Assignment(Email, b.email));
    var asg := PushIf(asg, b.avatarUrl != Undefined, Assignment(AvatarUrl, b.avatarUrl));
    PushIf(asg, Truthy(b.password) && h.Some?, Assignment(Password, Str(if h.Some? then h.value else "")))
  }

  /** name and email are set only when truthy, avatar_url whenever it is not
      undefined (so null or '' clears it), the password only when truthy and
      hashed. */
  lemma RequestedColumns(b: ProfileBody, hash: Hasher)
    ensures var r := Requested(b, hash);
      && (Name in Columns(r) <==> Truthy(b.name))
      && (Email in Columns(r) <==> Truthy(b.email))
      && (AvatarUrl in Columns(r) <==> b.avatarUrl != Undefined)
      && (Password in Columns(r) <==> Truthy(b.password) && hash(b.password).Some?)
  {
    var h := hash(b.password);
    var a1 := PushIf([], Truthy(b.name), Assignment(Name, b.name));
    var a2 := PushIf(a1, Truthy(b.email), Assignment(Email, b.email));
    var a3 := PushIf(a2, b.avatarUrl != Undefined, Assignment(AvatarUrl, b.avatarUrl));
    PushIfColumns([], Truthy(b.name), Assignment(Name, b.name));
    PushIfColumns(a1, Truthy(b.email), Assignment(Email, b.email));
    PushIfColumns(a2, b.avatarUrl != Undefined, Assignment(AvatarUrl, b.avatarUrl));
    PushIfColumns(a3, Truthy(b.password) && h.Some?, Assignment(Password, Str(if h.Some? then h.value else "")));
  }

  /** Each bound value is the body's own value, except the password, which is
      bound only to its hash. */
  lemma RequestedValues(b: ProfileBody, hash: Hasher)
    ensures forall a :: a in Requested(b, hash) ==>
      match a.column
      case Name => a.value == b.name
      case Email => a.value == b.email
      case AvatarUrl => a.value == b.avatarUrl
      case Password => hash(b.password).Some? && a.value == Str(hash(b.password).value)
  {
    var h := hash(b.password);
    var a1 := PushIf([], Truthy(b.name), Assignment(Name, b.name));
    var a2 := PushIf(a1, Truthy(b.email), Assignment(Email, b.email));
    var a3 := PushIf(a2, b.avatarUrl != Undefined, Assignment(AvatarUrl, b.avatarUrl));
    PushIfColumns([], Truthy(b.name), Assignment(Name, b.name));
    PushIfColumns(a1, Truthy(b.email), Assignment(Email, b.email));
    PushIfColumns(a2, b.avatarUrl != Undefined, Assignment(AvatarUrl, b.avatarUrl));
    PushIfColumns(a3, Truthy(b.password) && h.Some?, Assignment(Password, Str(if h.Some? then h.value else "")));
  }

  lemma PushIfColumns(asg: seq<Assignment>, cond: bool, a: Assignment)
    ensures Columns(PushIf(asg, cond, a)) == Columns(asg) + (if cond then [a.column] else [])
    ensures forall x :: x in PushIf(asg, cond, a) <==> x in asg || (cond && x == a)
  {
    if cond {
      assert Columns(asg + [a]) == Columns(asg) + [a.column];
    }
  }

  lemma AssignmentSnoc(asg: seq<Assignment>, a: Assignment)
    ensures Fragments(asg + [a]) == Fragments(asg) + [ColumnName(a.column) + " = ?"]
    ensures Values(asg + [a]) == Values(asg) + [a.value]
  {
  }

  /** The statement text for a non-empty assignment list. */
  function Statement(asg: seq<Assignment>): string {
    "UPDATE users SET " + Join(Fragments(asg) + [Timestamp], ", ") + " WHERE id = ?"
  }

  datatype ProfileOutcome =
    | NoFieldsToUpdate               // 400
    | HashFailed                     // 500 with the library's message
    | Update(sql: string, values: seq<JsVal>)

  /** Lines 41-55 of the handler, up to the first query. */
  method BuildProfileUpdate(b: ProfileBody, userId: Id, hash: Hasher) returns (out: ProfileOutcome)
    ensures out == HashFailed <==> Truthy(b.password) && hash(b.password).None?
    ensures out == NoFieldsToUpdate <==> out != HashFailed && Requested(b, hash) == []
    ensures out.Update? ==> out.sql == Statement(Requested(b, hash))
    ensures out.Update? ==> out.values == Values(Requested(b, hash)) + [Str(userId)]
  {
    ghost var asg: seq<Assignment> := [];
    var updateFields: seq<string> := [];
    var updateValues: seq<JsVal> := [];
    assert updateFields == Fragments(asg) && updateValues == Values(asg);
    if Truthy(b.name) {
      assert ColumnName(Name) + " = ?" == "name = ?";
      updateFields := updateFields + ["name = ?"];
      updateValues := updateValues + [b.name];
      AssignmentSnoc(asg, Assignment(Name, b.name));
    }
    asg := PushIf(asg, Truthy(b.name), Assignment(Name, b.name));
    assert updateFields == Fragments(asg) && updateValues == Values(asg);
    if Truthy(b.email) {
      assert ColumnName(Email) + " = ?" == "email = ?";
      updateFields := updateFields + ["email = ?"];
      updateValues := updateValues + [b.email];
      AssignmentSnoc(asg, Assignment(Email, b.email));
    }
    asg := PushIf(asg, Truthy(b.email), Assignment(Email, b.email));
    assert updateFields == Fragments(asg) && updateValues == Values(asg);
    if b.avatarUrl != Undefined {
      assert ColumnName(AvatarUrl) + " = ?" == "avatar_url = ?";
      updateFields := updateFields + ["avatar_url = ?"];
      updateValues := updateValues + [b.avatarUrl];
      AssignmentSnoc(asg, Assignment(AvatarUrl, b.avatarUrl));
    }
    asg := PushIf(asg, b.avatarUrl != Undefined, Assignment(AvatarUrl, b.avatarUrl));
    assert updateFields == Fragments(asg) && updateValues == Values(asg);
    var hashed := hash(b.password);
    if Truthy(b.password) {
      if hashed.None? {
        return HashFailed;
      }
      assert ColumnName(Password) + " = ?" == "password = ?";
      updateFields := updateFields + ["password = ?"];
      updateValues := updateValues + [Str(hashed.value)];
      AssignmentSnoc(asg, Assignment(Password, Str(hashed.value)));
    }
    asg := PushIf(asg, Truthy(b.password) && hashed.Some?, Assignment(Password, Str(if hashed.Some? then hashed.value else "")));
    assert updateFields == Fragments(asg) && updateValues == Values(asg);
    assert asg == Requested(b, hash);
    if |updateFields| == 0 {
      return NoFieldsToUpdate;
    }
    updateFields := updateFields + [Timestamp];
    var sql := "UPDATE users SET " + Join(updateFields, ", ") + " WHERE id = ?";
    updateValues := updateValues + [Str(userId)];
    return Update(sql, updateValues);
  }

  /** Occurrences of `c` in `s`. */
  function Count(s: string, c: char): nat {
    if s == [] then 0 else Count(s[..|s| - 1], c) + (if s[|s| - 1] == c then 1 else 0)
  }

  lemma {:induction false} CountConcat(a: string, b: string, c: char)
    ensures Count(a + b, c) == Count(a, c) + Count(b, c)
    decreases |b|
  {
    if b == [] {
      assert a + b == a;
    } else {
      var ab := a + b;
      assert ab[..|ab| - 1] == a + b[..|b| - 1];
      CountConcat(a, b[..|b| - 1], c);
    }
  }

  lemma CountFragment(column: string)
    requires '?' !in column
    ensures Count(column + " = ?", '?') == 1
  {
    CountConcat(column, " = ?", '?');
    CountAbsent(column, '?');
    CountAbsent(" = ", '?');
    assert " = ?"[..3] == " = ";
  }

  lemma {:induction false} CountAbsent(s: string, c: char)
    requires c !in s
    ensures Count(s, c) == 0
    decreases |s|
  {
    if s != [] {
      assert s[|s| - 1] in s;
      assert forall x :: x in s[..|s| - 1] ==> x in s;
      CountAbsent(s[..|s| - 1], c);
    }
  }

  /** Total occurrences of `c` in the pieces. */
  function SumCount(parts: seq<string>, c: char): nat {
    if parts == [] then 0 else SumCount(parts[..|parts| - 1], c) + Count(parts[|parts| - 1], c)
  }

  /** A separator without `c` adds no occurrences of `c` to a join. */
  lemma {:induction false} CountJoin(parts: seq<string>, sep: string, c: char)
    requires c !in sep
    ensures Count(Join(parts, sep), c) == SumCount(parts, c)
    decreases |parts|
  {
    if |parts| == 1 {
      assert parts[..0] == [];
    } else if |parts| > 1 {
      var front, last := parts[..|parts| - 1], parts[|parts| - 1];
      assert parts == front + [last];
      CountJoin(front, sep, c);
      JoinSnoc(front, sep, last);
      CountConcat(Join(front, sep) + sep, last, c);
      CountConcat(Join(front, sep), sep, c);
      CountAbsent(sep, c);
    }
  }

  /** Each fragment holds exactly one placeholder. */
  lemma {:induction false} SumCountFragments(asg: seq<Assignment>)
    ensures SumCount(Fragments(asg), '?') == |asg|
    decreases |asg|
  {
    if asg != [] {
      var f := Fragments(asg);
      assert f[..|f| - 1] == Fragments(asg[..|asg| - 1]);
      SumCountFragments(asg[..|asg| - 1]);
      CountFragment(ColumnName(asg[|asg| - 1].column));
    }
  }

  /** The statement's placeholders and the bound values stay in lockstep. */
  lemma PlaceholdersMatchValues(b: ProfileBody, hash: Hasher, userId: Id)
    ensures var asg := Requested(b, hash);
      Count(Statement(asg), '?') == |Values(asg) + [Str(userId)]|
  {
    var asg := Requested(b, hash);
    var parts := Fragments(asg) + [Timestamp];
    CountSetList(asg);
    CountStatementFrame(Join(parts, ", "));
  }

  lemma TimestampHasNoPlaceholder()
    ensures Count(Timestamp, '?') == 0
  {
    assert '?' !in Timestamp;
    CountAbsent(Timestamp, '?');
  }

  /** The SET list holds one placeholder per assignment; the timestamp none. */
  lemma CountSetList(asg: seq<Assignment>)
    ensures Count(Join(Fragments(asg) + [Timestamp], ", "), '?') == |asg|
  {
    var parts := Fragments(asg) + [Timestamp];
    assert parts[..|parts| - 1] == Fragments(asg);
    SumCountFragments(asg);
    TimestampHasNoPlaceholder();
    CountJoin(parts, ", ", '?');
  }

  /** The frame around the SET list adds only the id placeholder. */
  lemma CountStatementFrame(mid: string)
    ensures Count("UPDATE users SET " + mid + " WHERE id = ?", '?') == Count(mid, '?') + 1
  {
    CountAbsent("UPDATE users SET ", '?');
    CountConcat("UPDATE users SET ", mid, '?');
    CountConcat("UPDATE users SET " + mid, " WHERE id = ?", '?');
    CountFragment(" WHERE id");
    assert " WHERE id" + " = ?" == " WHERE id = ?";
  }

  datatype CurrencyReply = CurrencyIs(currency: JsVal) | CurrencyUnhandled

  /** GET `/currency`: `rows[0]?.default_currency || 'USD'`; the handler has
      no try/catch, so a failing query leaves the request unanswered. */
  function CurrencyReplyFor(defaultCurrencies: seq<JsVal>, dbError: bool): (r: CurrencyReply)
    ensures dbError <==> r == CurrencyUnhandled
    ensures r.CurrencyIs? ==> Truthy(r.currency)
    ensures r.CurrencyIs? && (|defaultCurrencies| == 0 || !Truthy(defaultCurrencies[0])) ==> r.currency == Str("USD")
    ensures r.CurrencyIs? && |defaultCurrencies| > 0 && Truthy(defaultCurrencies[0]) ==> r.currency == defaultCurrencies[0]
  {
    if dbError then CurrencyUnhandled
    else if |defaultCurrencies| == 0 then CurrencyIs(Str("USD"))
    else
      OrTruthy(defaultCurrencies[0], Str("USD"));
      CurrencyIs(Or(defaultCurrencies[0], Str("USD")))
  }
}
