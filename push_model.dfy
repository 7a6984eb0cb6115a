/** The `user_push_subscriptions` table and its three queries: REPLACE by
    the unique key, DELETE by (user, endpoint), SELECT by user. The unique
    key of the table is taken to be (user_id, endpoint). */
module PushModel {
  import opened Js
  import opened Seqs

  /** One registered push endpoint with its two encryption keys. */
  datatype PushRow = PushRow(user_id: Id, endpoint: JsVal, p256dh: JsVal, auth: JsVal)

  predicate HasKey(r: PushRow, user: Id, endpoint: JsVal) {
    r.user_id == user && r.endpoint == endpoint
  }

  function OfUser(user: Id): PushRow -> bool {
    (r: PushRow) => r.user_id == user
  }

  function NotKeyed(user: Id, endpoint: JsVal): PushRow -> bool {
    (r: PushRow) => !HasKey(r, user, endpoint)
  }

  /** At most one row per (user_id, endpoint). */
  predicate KeyUnique(rows: seq<PushRow>) {
    forall i, j :: 0 <= i < j < |rows| ==> !HasKey(rows[j], rows[i].user_id, rows[i].endpoint)
  }

  /** `getPushSubscriptionsByUser`: `SELECT * ... WHERE user_id = ?`. */
  function EndpointsOf(rows: seq<PushRow>, user: Id): (r: seq<PushRow>)
    ensures forall x :: x in r <==> x in rows && x.user_id == user
  {
    Filter(rows, OfUser(user))
  }

  /** `addPushSubscription`: REPLACE deletes the row that clashes on the key,
      then inserts the new one. */
  function Replace(rows: seq<PushRow>, row: PushRow): (r: seq<PushRow>)
    ensures row in r
    ensures forall x :: x in r <==> x == row || (x in rows && !HasKey(x, row.user_id, row.endpoint))
  {
    Filter(rows, NotKeyed(row.user_id, row.endpoint)) + [row]
  }

  /** `removePushSubscription`: `DELETE ... WHERE user_id = ? AND endpoint = ?`. */
  function RemoveWhere(rows: seq<PushRow>, user: Id, endpoint: JsVal): (r: seq<PushRow>)
    ensures forall x :: x in r <==> x in rows && !HasKey(x, user, endpoint)
  {
    Filter(rows, NotKeyed(user, endpoint))
  }

  /** REPLACE keeps the key unique, so re-adding the same (user, endpoint)
      replaces its keys instead of adding a second row. */
  lemma {:induction false} ReplaceKeepsKeyUnique(rows: seq<PushRow>, row: PushRow)
    requires KeyUnique(rows)
    ensures KeyUnique(Replace(rows, row))
    ensures forall x :: x in Replace(rows, row) && HasKey(x, row.user_id, row.endpoint) ==> x == row
  {
    var kept := Filter(rows, NotKeyed(row.user_id, row.endpoint));
    FilterKeepsKeyUnique(rows, NotKeyed(row.user_id, row.endpoint));
    var r := kept + [row];
    forall i, j | 0 <= i < j < |r| ensures !HasKey(r[j], r[i].user_id, r[i].endpoint) {
      if j == |kept| {
        assert r[i] in kept;
      }
    }
  }

  lemma {:induction false} FilterKeepsKeyUnique(rows: seq<PushRow>, p: PushRow -> bool)
    requires KeyUnique(rows)
    ensures KeyUnique(Filter(rows, p))
    decreases |rows|
  {
    if rows != [] {
      var init, last := rows[..|rows| - 1], rows[|rows| - 1];
      assert rows == init + [last];
      FilterKeepsKeyUnique(init, p);
      var fi := Filter(init, p);
      forall x | x in fi ensures !HasKey(last, x.user_id, x.endpoint) {
        var k :| 0 <= k < |init| && init[k] == x;
      }
    }
  }

  lemma RemoveKeepsKeyUnique(rows: seq<PushRow>, user: Id, endpoint: JsVal)
    requires KeyUnique(rows)
    ensures KeyUnique(RemoveWhere(rows, user, endpoint))
  {
    FilterKeepsKeyUnique(rows, NotKeyed(user, endpoint));
  }

  /** After remove(u, e), the endpoints selected for u no longer include e. */
  lemma RemoveThenSelect(rows: seq<PushRow>, user: Id, endpoint: JsVal)
    ensures forall x :: x in EndpointsOf(RemoveWhere(rows, user, endpoint), user) ==> x.endpoint != endpoint
  {
  }

  /** remove(u, e) never touches another user's rows, even for the same endpoint. */
  lemma RemoveKeepsOtherUsers(rows: seq<PushRow>, user: Id, endpoint: JsVal, other: Id)
    requires other != user
    ensures EndpointsOf(RemoveWhere(rows, user, endpoint), other) == EndpointsOf(rows, other)
  {
    FilterFilter(rows, NotKeyed(user, endpoint), OfUser(other));
  }

  /** After add, the user's endpoints include the new row. */
  lemma AddThenSelect(rows: seq<PushRow>, row: PushRow)
    ensures row in EndpointsOf(Replace(rows, row), row.user_id)
  {
  }

  /** The `user_push_subscriptions` table, changed in place. */
  class PushTable {
    var rows: seq<PushRow>

    ghost predicate Valid()
      reads this
    {
      KeyUnique(rows)
    }

    constructor ()
      ensures Valid() && rows == []
    {
      rows := [];
    }

    /** `addPushSubscription`; `dbError` stands for a failing query. */
    method Add(row: PushRow, dbError: bool) returns (ok: bool)
      requires Valid()
      modifies this
      ensures Valid()
      ensures ok == !dbError
      ensures rows == if ok then Replace(old(rows), row) else old(rows)
    {
      ok := !dbError;
      if ok {
        ReplaceKeepsKeyUnique(rows, row);
        rows := Replace(rows, row);
      }
    }

    /** `removePushSubscription`. */
    method Remove(user: Id, endpoint: JsVal, dbError: bool) returns (ok: bool)
      requires Valid()
      modifies this
      ensures Valid()
      ensures ok == !dbError
      ensures rows == if ok then RemoveWhere(old(rows), user, endpoint) else old(rows)
    {
      ok := !dbError;
      if ok {
        RemoveKeepsKeyUnique(rows, user, endpoint);
        rows := RemoveWhere(rows, user, endpoint);
      }
    }
  }
}
