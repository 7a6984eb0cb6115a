/** GET `/` of the categories router: the twelve builtin categories followed
    by the user's own truthy categories, each value once. */
module Categories {
  import opened Js
  import opened Seqs
  import SubscriptionModel

  const Builtin: seq<JsVal> := [
    Str("music"), Str("entertainment"), Str("shopping"), Str("software"),
    Str("productivity"), Str("health"), Str("fitness"), Str("education"),
    Str("news"), Str("finance"), Str("utilities"), Str("other")]

  lemma BuiltinShape()
    ensures |Builtin| == 12 && NoDups(Builtin)
    ensures forall i :: 0 <= i < |Builtin| ==> Truthy(Builtin[i])
  {
  }

  /** SQL NULL; mysql2 also binds `undefined` as NULL. */
  predicate IsSqlNull(v: JsVal) {
    v.Null? || v.Undefined?
  }

  function UsedBy(user: Id): SubscriptionModel.Subscription -> bool {
    (s: SubscriptionModel.Subscription) => s.user_id == user && !IsSqlNull(s.category)
  }

  /** `SELECT DISTINCT category FROM subscriptions WHERE user_id = ? AND
      category IS NOT NULL`, distinct values in table order. */
  function UserCategoryRows(rows: seq<SubscriptionModel.Subscription>, user: Id): (r: seq<JsVal>)
    ensures NoDups(r)
    ensures forall c :: c in r <==> exists s :: s in rows && s.user_id == user && s.category == c && !IsSqlNull(c)
  {
    var used := Filter(rows, UsedBy(user));
    var cats := seq(|used|, i requires 0 <= i < |used| => used[i].category);
    assert forall c :: c in cats <==> exists s :: s in rows && s.user_id == user && s.category == c && !IsSqlNull(c) by {
      forall c ensures c in cats <==> exists s :: s in rows && s.user_id == user && s.category == c && !IsSqlNull(c) {
        if c in cats {
          var k :| 0 <= k < |cats| && cats[k] == c;
          assert used[k] in used;
        }
        if s :| s in rows && s.user_id == user && s.category == c && !IsSqlNull(c) {
          assert UsedBy(user)(s);
          assert s in used;
          var k :| 0 <= k < |used| && used[k] == s;
          assert cats[k] == c;
        }
      }
    }
    Dedup(cats)
  }

  /** Lines 30-32: `rows.map(r => r.category).filter(Boolean)`, then
      `Array.from(new Set([...BUILTIN_CATEGORIES, ...userCategories]))`. */
  function MergeCategories(userRows: seq<JsVal>): (r: seq<JsVal>)
    ensures r == Builtin + Dedup(Without(Filter(userRows, Truthy), Builtin))
    ensures |r| <= |Builtin| + |userRows|
    ensures NoDups(r)
    ensures forall c :: c in r <==> c in Builtin || (c in userRows && Truthy(c))
  {
    var userCategories := Filter(userRows, Truthy);
    DedupConcat(Builtin, userCategories);
    BuiltinShape();
    DedupNoDups(Builtin);
    Dedup(Builtin + userCategories)
  }

  /** Falsy categories never appear, and the builtins lead in their declared order. */
  lemma MergeKeepsOnlyTruthy(userRows: seq<JsVal>)
    ensures MergeCategories(userRows)[..12] == Builtin
    ensures forall i :: 0 <= i < |MergeCategories(userRows)| ==> Truthy(MergeCategories(userRows)[i])
  {
    BuiltinShape();
    var r := MergeCategories(userRows);
    forall i | 0 <= i < |r| ensures Truthy(r[i]) {
      assert r[i] in r;
      if r[i] !in Builtin {
        assert r[i] in userRows && Truthy(r[i]);
      } else {
        var k :| 0 <= k < |Builtin| && Builtin[k] == r[i];
      }
    }
  }

  datatype CategoriesReply = CategoryList(categories: seq<JsVal>) | CategoriesServerError

  /** The handler: 500 when the query fails. */
  function CategoriesReplyFor(rows: seq<SubscriptionModel.Subscription>, user: Id, dbError: bool): (r: CategoriesReply)
    ensures dbError <==> r == CategoriesServerError
    ensures r.CategoryList? ==> forall s :: s in rows && s.user_id == user && Truthy(s.category) ==> s.category in r.categories
  {
    if dbError then CategoriesServerError
    else CategoryList(MergeCategories(UserCategoryRows(rows, user)))
  }
}
