/** Order-preserving filtering and first-occurrence de-duplication of
    sequences: the in-memory counterparts of a SQL `WHERE`, of
    `Array.prototype.filter` and of `Array.from(new Set(...))`. */
module Seqs {

  /** The elements of `s` that satisfy `p`, in their original order. */
  function Filter<T(!new)>(s: seq<T>, p: T -> bool): (r: seq<T>)
    ensures |r| <= |s|
    ensures forall x :: x in r <==> x in s && p(x)
    decreases |s|
  {
    if s == [] then []
    else
      var init, last := s[..|s| - 1], s[|s| - 1];
      assert s == init + [last];
      Filter(init, p) + (if p(last) then [last] else [])
  }

  /** Filtering distributes over concatenation: the selected elements of a
      later part always come after those of an earlier part. */
  lemma {:induction false} FilterConcat<T(!new)>(s: seq<T>, t: seq<T>, p: T -> bool)
    ensures Filter(s + t, p) == Filter(s, p) + Filter(t, p)
    decreases |t|
  {
    if t == [] {
      assert s + t == s;
    } else {
      var init, y := t[..|t| - 1], t[|t| - 1];
      assert (s + t)[..|s + t| - 1] == s + init;
      assert (s + t)[|s + t| - 1] == y;
      FilterConcat(s, init, p);
    }
  }

  /** Filtering with a predicate every element satisfies changes nothing. */
  lemma {:induction false} FilterAll<T(!new)>(s: seq<T>, p: T -> bool)
    requires forall i :: 0 <= i < |s| ==> p(s[i])
    ensures Filter(s, p) == s
    decreases |s|
  {
    if s != [] {
      var init, last := s[..|s| - 1], s[|s| - 1];
      assert s == init + [last];
      assert p(last);
      FilterAll(init, p);
    }
  }

  /** Filtering with a predicate no element satisfies leaves nothing. */
  lemma {:induction false} FilterNone<T(!new)>(s: seq<T>, p: T -> bool)
    requires forall i :: 0 <= i < |s| ==> !p(s[i])
    ensures Filter(s, p) == []
    decreases |s|
  {
    if s != [] {
      FilterNone(s[..|s| - 1], p);
    }
  }

  /** Filtering twice, when the second test implies the first, is filtering
      once with the second. */
  lemma {:induction false} FilterFilter<T(!new)>(s: seq<T>, p: T -> bool, q: T -> bool)
    requires forall x :: q(x) ==> p(x)
    ensures Filter(Filter(s, p), q) == Filter(s, q)
    decreases |s|
  {
    if s != [] {
      var init, last := s[..|s| - 1], s[|s| - 1];
      assert s == init + [last];
      FilterFilter(init, p, q);
      var fi := Filter(init, p);
      if p(last) {
        var fl := fi + [last];
        assert Filter(s, p) == fl;
        assert fl[..|fl| - 1] == fi && fl[|fl| - 1] == last;
        assert Filter(fl, q) == Filter(fi, q) + (if q(last) then [last] else []);
      } else {
        assert Filter(s, p) == fi;
        assert !q(last);
      }
    }
  }

  predicate NoDups<T(==)>(s: seq<T>) {
    forall i, j :: 0 <= i < j < |s| ==> s[i] != s[j]
  }

  /** `Array.from(new Set(s))`: each distinct element once, at the place of
      its first occurrence. */
  function Dedup<T(==,!new)>(s: seq<T>): (r: seq<T>)
    ensures NoDups(r)
    ensures |r| <= |s|
    ensures forall x :: x in r <==> x in s
    decreases |s|
  {
    if s == [] then []
    else
      var init, last := s[..|s| - 1], s[|s| - 1];
      assert s == init + [last];
      var d := Dedup(init);
      if last in d then d else d + [last]
  }

  /** The elements of `t` that do not occur in `s`. */
  function Without<T(==,!new)>(t: seq<T>, s: seq<T>): seq<T> {
    Filter(t, x => x !in s)
  }

  /** A sequence without duplicates is its own de-duplication. */
  lemma {:induction false} DedupNoDups<T(!new)>(s: seq<T>)
    requires NoDups(s)
    ensures Dedup(s) == s
    decreases |s|
  {
    if s != [] {
      DedupNoDups(s[..|s| - 1]);
    }
  }

  lemma InitLast<T>(s: seq<T>)
    requires |s| >= 1
    ensures s == s[..|s| - 1] + [s[|s| - 1]]
  {
  }

  lemma PrefixSnoc<T>(s: seq<T>, i: nat)
    requires i < |s|
    ensures s[..i + 1] == s[..i] + [s[i]]
  {
  }

  /** A sequence that starts with `p` agrees with `p` below `|p|`. */
  lemma PrefixAgrees<T>(w: seq<T>, p: seq<T>, n: nat)
    requires |p| <= |w| && w[..|p|] == p && n < |p|
    ensures w[..n] == p[..n] && w[n] == p[n]
  {
    assert w[..|p|][..n] == w[..n];
    assert w[..|p|][n] == w[n];
  }

  lemma ConcatAssoc<T>(a: seq<T>, b: seq<T>, c: seq<T>)
    ensures (a + b) + c == a + (b + c)
  {
  }

  lemma DedupSnoc<T(!new)>(s: seq<T>, y: T)
    ensures Dedup(s + [y]) == if y in s then Dedup(s) else Dedup(s) + [y]
  {
    var sy := s + [y];
    assert sy[..|sy| - 1] == s && sy[|sy| - 1] == y;
  }

  lemma WithoutSnoc<T(!new)>(t: seq<T>, s: seq<T>, y: T)
    ensures Without(t + [y], s) == Without(t, s) + (if y !in s then [y] else [])
  {
    var ty := t + [y];
    assert ty[..|ty| - 1] == t && ty[|ty| - 1] == y;
  }

  /** De-duplicating `s + t` keeps the de-duplicated `s` in front, followed by
      the first occurrences of the elements of `t` that are not in `s`. */
  lemma {:induction false} DedupConcat<T(!new)>(s: seq<T>, t: seq<T>)
    ensures Dedup(s + t) == Dedup(s) + Dedup(Without(t, s))
    decreases |t|
  {
    if t == [] {
      assert s + t == s;
    } else {
      var init, y := t[..|t| - 1], t[|t| - 1];
      assert t == init + [y];
      assert s + t == (s + init) + [y];
      DedupConcat(s, init);
      DedupSnoc(s + init, y);
      WithoutSnoc(init, s, y);
      var w := Without(init, s);
      var d := Dedup(s + init);
      assert d == Dedup(s) + Dedup(w);
      if y in s {
        assert y in s + init;
        assert Without(t, s) == w;
        assert Dedup(s + t) == d;
      } else {
        DedupSnoc(w, y);
        assert Without(t, s) == w + [y];
        assert y in w <==> y in init;
        if y in init {
          assert y in s + init;
          assert Dedup(s + t) == d;
          assert Dedup(w + [y]) == Dedup(w);
        } else {
          assert y !in s + init;
          assert Dedup(s + t) == d + [y];
          assert Dedup(w + [y]) == Dedup(w) + [y];
          ConcatAssoc(Dedup(s), Dedup(w), [y]);
        }
      }
    }
  }

  /** `parts.join(sep)`. */
  function Join<T>(parts: seq<seq<T>>, sep: seq<T>): seq<T> {
    if |parts| == 0 then []
    else if |parts| == 1 then parts[0]
    else Join(parts[..|parts| - 1], sep) + sep + parts[|parts| - 1]
  }

  lemma JoinSnoc<T>(parts: seq<seq<T>>, sep: seq<T>, w: seq<T>)
    requires |parts| >= 1
    ensures Join(parts + [w], sep) == Join(parts, sep) + sep + w
  {
    assert (parts + [w])[..|parts|] == parts;
  }
}
