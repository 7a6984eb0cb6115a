/** The `subscriptions` table and the five queries of the subscription model:
    select by owner, select by (id, owner), insert, update and delete, the
    last three only ever touching rows whose `id` AND `user_id` match. */
module SubscriptionModel {
  import opened Js
  import opened Seqs

  /** One row of `subscriptions`: the thirteen columns the model writes.
      `next_billing_date` is a calendar day number; the stored cycle is text. */
  datatype Subscription = Subscription(
    id: Id, user_id: Id, name: JsVal, price: JsVal, billing_cycle: string,
    category: JsVal, description: JsVal, next_billing_date: int,
    color: JsVal, logo: JsVal, website: JsVal, notes: JsVal, currency: JsVal)

  /** The eleven columns an UPDATE overwrites (all but `id` and `user_id`). */
  datatype Changes = Changes(
    name: JsVal, price: JsVal, billing_cycle: string, category: JsVal,
    description: JsVal, next_billing_date: int, color: JsVal, logo: JsVal,
    website: JsVal, notes: JsVal, currency: JsVal)

  /** The eleven updatable columns of a row. */
  function ChangesOf(r: Subscription): Changes {
    Changes(r.name, r.price, r.billing_cycle, r.category, r.description,
            r.next_billing_date, r.color, r.logo, r.website, r.notes, r.currency)
  }

  /** The `WHERE id = ? AND user_id = ?` of the single-row queries. */
  predicate Owns(r: Subscription, id: Id, user: Id) {
    r.id == id && r.user_id == user
  }

  function OfUser(user: Id): Subscription -> bool {
    (r: Subscription) => r.user_id == user
  }

  function NotOwnedBy(id: Id, user: Id): Subscription -> bool {
    (r: Subscription) => !Owns(r, id, user)
  }

  /** `id` is the primary key: no two rows share it. */
  predicate UniqueIds(rows: seq<Subscription>) {
    forall i, j :: 0 <= i < j < |rows| ==> rows[i].id != rows[j].id
  }

  predicate HasId(rows: seq<Subscription>, id: Id) {
    exists i :: 0 <= i < |rows| && rows[i].id == id
  }

  /** `getSubscriptionsByUser`: `SELECT * ... WHERE user_id = ?`. */
  function SelectByUser(rows: seq<Subscription>, user: Id): (r: seq<Subscription>)
    ensures forall x :: x in r <==> x in rows && x.user_id == user
  {
    Filter(rows, OfUser(user))
  }

  /** `getSubscriptionById`: the first row of `SELECT * ... WHERE id = ? AND
      user_id = ?`, or nothing (`rows[0]` is `undefined`). */
  function SelectById(rows: seq<Subscription>, id: Id, user: Id): (r: Option<Subscription>)
    ensures r.Some? ==> r.value in rows && Owns(r.value, id, user)
    ensures r.None? <==> forall x :: x in rows ==> !Owns(x, id, user)
  {
    if rows == [] then None
    else if Owns(rows[0], id, user) then Some(rows[0])
    else SelectById(rows[1..], id, user)
  }

  /** The row `createSubscription` inserts: `sub.currency || 'USD'`. */
  function Inserted(sub: Subscription): Subscription {
    sub.(currency := Or(sub.currency, Str("USD")))
  }

  /** The row `updateSubscription` leaves: the eleven columns set, the
      currency defaulted to 'USD' when falsy. */
  function Apply(r: Subscription, c: Changes): Subscription {
    r.(name := c.name, price := c.price, billing_cycle := c.billing_cycle,
       category := c.category, description := c.description,
       next_billing_date := c.next_billing_date, color := c.color, logo := c.logo,
       website := c.website, notes := c.notes, currency := Or(c.currency, Str("USD")))
  }

  /** `UPDATE subscriptions SET ... WHERE id = ? AND user_id = ?`. */
  function UpdateWhere(rows: seq<Subscription>, id: Id, user: Id, c: Changes): (r: seq<Subscription>)
    ensures |r| == |rows|
    ensures forall i :: 0 <= i < |rows| ==> r[i].id == rows[i].id && r[i].user_id == rows[i].user_id
    ensures forall i :: 0 <= i < |rows| && !Owns(rows[i], id, user) ==> r[i] == rows[i]
    ensures forall i :: 0 <= i < |rows| && Owns(rows[i], id, user) ==>
      ChangesOf(r[i]) == c.(currency := Or(c.currency, Str("USD")))
  {
    seq(|rows|, i requires 0 <= i < |rows| =>
      if Owns(rows[i], id, user) then Apply(rows[i], c) else rows[i])
  }

  /** `DELETE FROM subscriptions WHERE id = ? AND user_id = ?`. */
  function DeleteWhere(rows: seq<Subscription>, id: Id, user: Id): (r: seq<Subscription>)
    ensures forall x :: x in r <==> x in rows && !Owns(x, id, user)
  {
    Filter(rows, NotOwnedBy(id, user))
  }

  /** An update naming an id the caller does not own leaves the table as it was. */
  lemma UpdateForeignIsNoop(rows: seq<Subscription>, id: Id, user: Id, c: Changes)
    requires forall x :: x in rows ==> !Owns(x, id, user)
    ensures UpdateWhere(rows, id, user, c) == rows
  {
    var r := UpdateWhere(rows, id, user, c);
    forall i | 0 <= i < |rows| ensures r[i] == rows[i] {
      assert rows[i] in rows;
    }
  }

  /** A delete naming an id the caller does not own leaves the table as it was. */
  lemma DeleteForeignIsNoop(rows: seq<Subscription>, id: Id, user: Id)
    requires forall x :: x in rows ==> !Owns(x, id, user)
    ensures DeleteWhere(rows, id, user) == rows
  {
    forall i | 0 <= i < |rows| ensures NotOwnedBy(id, user)(rows[i]) {
      assert rows[i] in rows;
    }
    FilterAll(rows, NotOwnedBy(id, user));
  }

  /** Deleting one of `user`'s rows does not change what any other user selects. */
  lemma DeleteKeepsOtherUsers(rows: seq<Subscription>, id: Id, user: Id, other: Id)
    requires other != user
    ensures SelectByUser(DeleteWhere(rows, id, user), other) == SelectByUser(rows, other)
  {
    FilterFilter(rows, NotOwnedBy(id, user), OfUser(other));
  }

  lemma UpdatePreservesUniqueIds(rows: seq<Subscription>, id: Id, user: Id, c: Changes)
    requires UniqueIds(rows)
    ensures UniqueIds(UpdateWhere(rows, id, user, c))
  {
  }

  lemma {:induction false} DeletePreservesUniqueIds(rows: seq<Subscription>, id: Id, user: Id)
    requires UniqueIds(rows)
    ensures UniqueIds(DeleteWhere(rows, id, user))
    decreases |rows|
  {
    if rows != [] {
      var init, last := rows[..|rows| - 1], rows[|rows| - 1];
      assert rows == init + [last];
      DeletePreservesUniqueIds(init, id, user);
      var di := DeleteWhere(init, id, user);
      forall x | x in di ensures x.id != last.id {
        var k :| 0 <= k < |init| && init[k] == x;
      }
    }
  }

  /** Read after create: the new row is found under its id and owner. */
  lemma {:induction false} SelectAfterInsert(rows: seq<Subscription>, sub: Subscription)
    requires !HasId(rows, sub.id)
    ensures SelectById(rows + [Inserted(sub)], sub.id, sub.user_id) == Some(Inserted(sub))
    decreases |rows|
  {
    if rows != [] {
      assert (rows + [Inserted(sub)])[1..] == rows[1..] + [Inserted(sub)];
      assert rows[0].id != sub.id;
      SelectAfterInsert(rows[1..], sub);
    }
  }

  /** Read after update: the owner's row comes back with the new columns. */
  lemma {:induction false} SelectAfterUpdate(rows: seq<Subscription>, k: nat, c: Changes)
    requires UniqueIds(rows) && k < |rows|
    ensures SelectById(UpdateWhere(rows, rows[k].id, rows[k].user_id, c), rows[k].id, rows[k].user_id)
            == Some(Apply(rows[k], c))
    decreases k
  {
    var id, user := rows[k].id, rows[k].user_id;
    var r := UpdateWhere(rows, id, user, c);
    if k > 0 {
      assert !Owns(rows[0], id, user);
      SelectAfterUpdate(rows[1..], k - 1, c);
      assert r[1..] == UpdateWhere(rows[1..], id, user, c);
    }
  }

  /** Read after delete: the row is gone. */
  lemma SelectAfterDelete(rows: seq<Subscription>, id: Id, user: Id)
    ensures SelectById(DeleteWhere(rows, id, user), id, user) == None
  {
  }

  /** The `subscriptions` table, changed in place by insert, update and delete. */
  class SubscriptionTable {
    var rows: seq<Subscription>

    ghost predicate Valid()
      reads this
    {
      UniqueIds(rows)
    }

    constructor ()
      ensures Valid() && rows == []
    {
      rows := [];
    }

    /** `createSubscription`. A failing query (`dbError`) or a duplicate
        primary key makes the INSERT throw and leaves the table unchanged. */
    method Create(sub: Subscription, dbError: bool) returns (ok: bool)
      requires Valid()
      modifies this
      ensures Valid()
      ensures ok <==> !dbError && !HasId(old(rows), sub.id)
      ensures rows == if ok then old(rows) + [Inserted(sub)] else old(rows)
    {
      ok := !dbError && !HasId(rows, sub.id);
      if ok {
        rows := rows + [Inserted(sub)];
      }
    }

    /** `updateSubscription`: overwrites the eleven columns of the rows owned
        by `user` with id `id`, and nothing else. */
    method Update(id: Id, user: Id, c: Changes, dbError: bool) returns (ok: bool)
      requires Valid()
      modifies this
      ensures Valid()
      ensures ok == !dbError
      ensures rows == if ok then UpdateWhere(old(rows), id, user, c) else old(rows)
    {
      ok := !dbError;
      if ok {
        UpdatePreservesUniqueIds(rows, id, user, c);
        rows := UpdateWhere(rows, id, user, c);
      }
    }

    /** `deleteSubscription`: removes the rows owned by `user` with id `id`. */
    method Delete(id: Id, user: Id, dbError: bool) returns (ok: bool)
      requires Valid()
      modifies this
      ensures Valid()
      ensures ok == !dbError
      ensures rows == if ok then DeleteWhere(old(rows), id, user) else old(rows)
    {
      ok := !dbError;
      if ok {
        DeletePreservesUniqueIds(rows, id, user);
        rows := DeleteWhere(rows, id, user);
      }
    }
  }
}
