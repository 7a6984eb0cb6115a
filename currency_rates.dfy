/** The exchange-rate cache: a currencies table refreshed from a rates
    service when its newest row is at least twelve hours old. */
module CurrencyRates {
  import opened Js
  import Seqs

  /** 12 * 60 * 60 * 1000 milliseconds. */
  const RefreshInterval: int := 12 * 60 * 60 * 1000

  /** A row of the currencies table; `code` is its key. Times are
      milliseconds since the epoch. */
  datatype CurrencyRow = CurrencyRow(code: string, name: string, rate: JsVal, lastUpdated: int)

  /** One entry of the currency catalogue: (code, display name). */
  type Entry = (string, string)

  predicate UniqueCodes(rows: seq<CurrencyRow>) {
    forall i, j :: 0 <= i < j < |rows| ==> rows[i].code != rows[j].code
  }

  /** The catalogue is a JSON object, so its codes are distinct. */
  predicate DistinctCodes(catalogue: seq<Entry>) {
    forall i, j :: 0 <= i < j < |catalogue| ==> catalogue[i].0 != catalogue[j].0
  }

  /** `SELECT MAX(last_updated) FROM currencies`: NULL on an empty table. */
  function MaxUpdated(rows: seq<CurrencyRow>): (r: Option<int>)
    ensures r.None? <==> rows == []
    ensures r.Some? ==> exists i :: 0 <= i < |rows| && rows[i].lastUpdated == r.value
    ensures r.Some? ==> forall i :: 0 <= i < |rows| ==> rows[i].lastUpdated <= r.value
  {
    if rows == [] then None
    else
      var m := MaxUpdated(rows[..|rows| - 1]);
      var last := rows[|rows| - 1].lastUpdated;
      if m.Some? && m.value >= last then m else Some(last)
  }

  /** Line 12: the refresh is skipped only when a last update exists and is
      less than twelve hours old. */
  predicate Fresh(lastUpdated: Option<int>, now: int) {
    lastUpdated.Some? && now - lastUpdated.value < RefreshInterval
  }

  lemma FreshBoundary(t: int)
    ensures Fresh(Some(t), t + RefreshInterval - 1)
    ensures !Fresh(Some(t), t + RefreshInterval)
    ensures forall now :: !Fresh(None, now)
  {
  }

  /** `rates[code]`: undefined for a code the service did not return. */
  function RateOf(rates: map<string, JsVal>, code: string): JsVal {
    if code in rates then rates[code] else Undefined
  }

  /** The rows the loop writes, in catalogue order: one per catalogue code
      whose fetched rate is truthy, all stamped with the same `updated`. */
  function Writes(catalogue: seq<Entry>, rates: map<string, JsVal>, updated: int): (w: seq<CurrencyRow>)
    ensures |w| <= |catalogue|
    ensures forall x :: x in w ==>
      (x.code, x.name) in catalogue && x.rate == RateOf(rates, x.code) && Truthy(x.rate) && x.lastUpdated == updated
    ensures forall e :: e in catalogue && Truthy(RateOf(rates, e.0)) ==> CurrencyRow(e.0, e.1, RateOf(rates, e.0), updated) in w
    ensures DistinctCodes(catalogue) ==> UniqueCodes(w)
  {
    if catalogue == [] then []
    else
      var front := catalogue[..|catalogue| - 1];
      var e := catalogue[|catalogue| - 1];
      assert catalogue == front + [e];
      var init := Writes(front, rates, updated);
      var rate := RateOf(rates, e.0);
      if !Truthy(rate) then init
      else
        var row := CurrencyRow(e.0, e.1, rate, updated);
        if DistinctCodes(catalogue) then
          AppendKeepsUnique(front, e, init, row);
          init + [row]
        else
          init + [row]
  }

  /** A row for the next catalogue entry has a code no earlier row has. */
  lemma AppendKeepsUnique(front: seq<Entry>, e: Entry, init: seq<CurrencyRow>, row: CurrencyRow)
    requires DistinctCodes(front + [e])
    requires UniqueCodes(init)
    requires forall x :: x in init ==> (x.code, x.name) in front
    requires row.code == e.0
    ensures UniqueCodes(init + [row])
  {
    var c := front + [e];
    forall x | x in init ensures x.code != e.0 {
      var k :| 0 <= k < |front| && front[k] == (x.code, x.name);
      assert c[k] == front[k] && c[|front|] == e;
    }
    var w := init + [row];
    forall i, j | 0 <= i < j < |w| ensures w[i].code != w[j].code {
      if j < |init| {
        assert w[i] == init[i] && w[j] == init[j];
      } else {
        assert w[i] in init;
      }
    }
  }

  /** A shorter catalogue prefix writes a prefix of the rows. */
  lemma {:induction false} WritesPrefix(catalogue: seq<Entry>, k: nat, rates: map<string, JsVal>, updated: int)
    requires k <= |catalogue|
    ensures var p := Writes(catalogue[..k], rates, updated);
      var w := Writes(catalogue, rates, updated);
      |p| <= |w| && w[..|p|] == p
    decreases |catalogue|
  {
    if k < |catalogue| {
      var front := catalogue[..|catalogue| - 1];
      assert front[..k] == catalogue[..k];
      WritesPrefix(front, k, rates, updated);
    } else {
      assert catalogue[..k] == catalogue;
    }
  }

  /** One loop step: the next catalogue entry adds at most its own row. */
  lemma WritesStep(catalogue: seq<Entry>, i: nat, rates: map<string, JsVal>, updated: int)
    requires i < |catalogue|
    ensures var e := catalogue[i];
      Writes(catalogue[..i + 1], rates, updated) == Writes(catalogue[..i], rates, updated)
        + (if Truthy(RateOf(rates, e.0)) then [CurrencyRow(e.0, e.1, RateOf(rates, e.0), updated)] else [])
  {
    assert catalogue[..i + 1][..i] == catalogue[..i];
  }

  /** The write that throws is the one right after the rows already written. */
  lemma FailingWrite(catalogue: seq<Entry>, i: nat, rates: map<string, JsVal>, updated: int)
    requires i < |catalogue| && Truthy(RateOf(rates, catalogue[i].0))
    ensures var done := Writes(catalogue[..i], rates, updated);
      var w := Writes(catalogue, rates, updated);
      |done| < |w| && w[..|done|] == done
        && w[|done|] == CurrencyRow(catalogue[i].0, catalogue[i].1, RateOf(rates, catalogue[i].0), updated)
  {
    WritesStep(catalogue, i, rates, updated);
    WritesPrefix(catalogue, i + 1, rates, updated);
    var done := Writes(catalogue[..i], rates, updated);
    var w := Writes(catalogue, rates, updated);
    var p := Writes(catalogue[..i + 1], rates, updated);
    Seqs.PrefixAgrees(w, p, |done|);
    assert p[..|done|] == done;
  }

  /** When the write for entry `i` throws, the table holds exactly the
      writes before it, none of which threw. */
  lemma FailingExit(catalogue: seq<Entry>, i: nat, rates: map<string, JsVal>, updated: int,
                    start: seq<CurrencyRow>, done: seq<CurrencyRow>, writeFails: string -> bool)
    requires i < |catalogue| && Truthy(RateOf(rates, catalogue[i].0)) && writeFails(catalogue[i].0)
    requires done == Writes(catalogue[..i], rates, updated)
    requires forall x :: x in done ==> !writeFails(x.code)
    ensures var w := Writes(catalogue, rates, updated);
      exists j :: 0 <= j < |w| && w[j].code == catalogue[i].0 && writeFails(w[j].code)
        && UpsertAll(start, done) == UpsertAll(start, w[..j]) && forall k :: 0 <= k < j ==> !writeFails(w[k].code)
  {
    FailingWrite(catalogue, i, rates, updated);
    var w := Writes(catalogue, rates, updated);
    var j := |done|;
    forall k | 0 <= k < j ensures !writeFails(w[k].code) {
      assert w[k] == done[k];
      assert done[k] in done;
    }
  }

  /** `INSERT ... ON DUPLICATE KEY UPDATE`: the row with the same code is
      overwritten in place, otherwise the row is added. */
  function Upsert(rows: seq<CurrencyRow>, row: CurrencyRow): (r: seq<CurrencyRow>)
    ensures row in r
    ensures forall x :: x in r && x.code == row.code ==> x == row
    ensures forall x: CurrencyRow :: x.code != row.code ==> (x in r <==> x in rows)
    ensures UniqueCodes(rows) ==> UniqueCodes(r)
  {
    if exists i :: 0 <= i < |rows| && rows[i].code == row.code then
      var r := seq(|rows|, i requires 0 <= i < |rows| => if rows[i].code == row.code then row else rows[i]);
      assert row in r by {
        var k :| 0 <= k < |rows| && rows[k].code == row.code;
        assert r[k] == row;
      }
      assert forall x: CurrencyRow :: x.code != row.code && x in rows ==> x in r by {
        forall x: CurrencyRow | x.code != row.code && x in rows ensures x in r {
          var k :| 0 <= k < |rows| && rows[k] == x;
          assert r[k] == x;
        }
      }
      r
    else
      rows + [row]
  }

  /** The table after the given writes, in order. */
  function UpsertAll(rows: seq<CurrencyRow>, writes: seq<CurrencyRow>): seq<CurrencyRow> {
    if writes == [] then rows
    else Upsert(UpsertAll(rows, writes[..|writes| - 1]), writes[|writes| - 1])
  }

  lemma UpsertSnoc(rows: seq<CurrencyRow>, writes: seq<CurrencyRow>, row: CurrencyRow)
    ensures UpsertAll(rows, writes + [row]) == Upsert(UpsertAll(rows, writes), row)
  {
    var w := writes + [row];
    assert w[..|w| - 1] == writes;
  }

  /** Rows for codes that were not written are untouched, a written code keeps
      one row, which is one of the writes, and with distinct codes every write
      is in the table. */
  lemma {:induction false} UpsertAllEffect(rows: seq<CurrencyRow>, writes: seq<CurrencyRow>)
    requires UniqueCodes(rows)
    ensures UniqueCodes(UpsertAll(rows, writes))
    ensures forall x: CurrencyRow :: (forall w :: w in writes ==> w.code != x.code) ==> (x in UpsertAll(rows, writes) <==> x in rows)
    ensures forall x, w :: x in UpsertAll(rows, writes) && w in writes && w.code == x.code ==> x in writes
    ensures UniqueCodes(writes) ==> forall w :: w in writes ==> w in UpsertAll(rows, writes)
    decreases |writes|
  {
    if writes != [] {
      var front, last := writes[..|writes| - 1], writes[|writes| - 1];
      assert writes == front + [last];
      UpsertAllEffect(rows, front);
      var before := UpsertAll(rows, front);
      forall x, w | x in UpsertAll(rows, writes) && w in writes && w.code == x.code
        ensures x in writes
      {
        if x.code != last.code {
          assert x in before;
          var v :| v in front && v.code == x.code;
        }
      }
      if UniqueCodes(writes) {
        forall w | w in writes ensures w in UpsertAll(rows, writes) {
          if w != last {
            var k :| 0 <= k < |front| && front[k] == w;
            assert writes[k] == w;
            assert w.code != last.code;
            assert UniqueCodes(front);
          }
        }
      }
    }
  }

  /** After a complete refresh: every catalogue code with a truthy rate holds
      exactly the new row (catalogue name, fetched rate, the pass's timestamp);
      every other code keeps its rows. */
  lemma RefreshEffect(rows: seq<CurrencyRow>, catalogue: seq<Entry>, rates: map<string, JsVal>, updated: int)
    requires UniqueCodes(rows) && DistinctCodes(catalogue)
    ensures var after := UpsertAll(rows, Writes(catalogue, rates, updated));
      && UniqueCodes(after)
      && (forall e :: e in catalogue && Truthy(RateOf(rates, e.0)) ==>
            CurrencyRow(e.0, e.1, RateOf(rates, e.0), updated) in after)
      && (forall x :: x in after && (exists e :: e in catalogue && e.0 == x.code && Truthy(RateOf(rates, e.0))) ==>
            x.lastUpdated == updated && x.rate == RateOf(rates, x.code))
      && (forall x: CurrencyRow :: (forall e :: e in catalogue && Truthy(RateOf(rates, e.0)) ==> e.0 != x.code) ==>
            (x in after <==> x in rows))
  {
    var w := Writes(catalogue, rates, updated);
    UpsertAllEffect(rows, w);
    var after := UpsertAll(rows, w);
    forall x | x in after && (exists e :: e in catalogue && e.0 == x.code && Truthy(RateOf(rates, e.0)))
      ensures x.lastUpdated == updated && x.rate == RateOf(rates, x.code)
    {
      var e :| e in catalogue && e.0 == x.code && Truthy(RateOf(rates, e.0));
      assert CurrencyRow(e.0, e.1, RateOf(rates, e.0), updated) in w;
    }
    forall x: CurrencyRow | (forall e :: e in catalogue && Truthy(RateOf(rates, e.0)) ==> e.0 != x.code)
      ensures x in after <==> x in rows
    {
      forall v | v in w ensures v.code != x.code {
        assert (v.code, v.name) in catalogue;
      }
    }
  }

  datatype RefreshOutcome =
    | Skipped
    | Refreshed
    | MaxQueryFailed
    | FetchFailed
    | WriteFailed(code: string)

  predicate Threw(o: RefreshOutcome) {
    o.MaxQueryFailed? || o.FetchFailed? || o.WriteFailed?
  }

  /** What a refresh pass did, given the table `before` and `after` it:
      the maximum query failing, the skip and the failing fetch are each
      decided by the inputs alone and change nothing; a completed pass has
      applied every write, and a failing write has applied exactly the
      writes before it. */
  predicate RefreshPost(before: seq<CurrencyRow>, after: seq<CurrencyRow>, outcome: RefreshOutcome,
                        catalogue: seq<Entry>, now: int, fetched: Option<map<string, JsVal>>, updated: int,
                        maxFails: bool, writeFails: string -> bool)
  {
    && (maxFails <==> outcome == MaxQueryFailed)
    && (!maxFails && Fresh(MaxUpdated(before), now) <==> outcome == Skipped)
    && (!maxFails && !Fresh(MaxUpdated(before), now) && fetched.None? <==> outcome == FetchFailed)
    && (outcome in {Skipped, MaxQueryFailed, FetchFailed} ==> after == before)
    && (outcome == Refreshed ==> (fetched.Some? &&
         var w := Writes(catalogue, fetched.value, updated);
         after == UpsertAll(before, w) && forall x :: x in w ==> !writeFails(x.code)))
    && (outcome.WriteFailed? ==> (fetched.Some? &&
         var w := Writes(catalogue, fetched.value, updated);
         exists j :: 0 <= j < |w| && w[j].code == outcome.code && writeFails(w[j].code)
           && after == UpsertAll(before, w[..j]) && forall k :: 0 <= k < j ==> !writeFails(w[k].code)))
  }

  /** A pass throws exactly when the maximum query fails, or the refresh is
      due and either the fetch fails or one of its writes throws. */
  lemma RefreshThrows(before: seq<CurrencyRow>, after: seq<CurrencyRow>, outcome: RefreshOutcome,
                      catalogue: seq<Entry>, now: int, fetched: Option<map<string, JsVal>>, updated: int,
                      maxFails: bool, writeFails: string -> bool)
    requires RefreshPost(before, after, outcome, catalogue, now, fetched, updated, maxFails, writeFails)
    ensures !Threw(outcome) <==>
              !maxFails
              && (Fresh(MaxUpdated(before), now)
                  || (fetched.Some? && forall x :: x in Writes(catalogue, fetched.value, updated) ==> !writeFails(x.code)))
  {
    if outcome.WriteFailed? {
      var w := Writes(catalogue, fetched.value, updated);
      var j :| 0 <= j < |w| && w[j].code == outcome.code && writeFails(w[j].code);
      assert w[j] in w;
    }
  }

  /** The currencies table; `code` is its primary key. */
  class CurrencyTable {
    var rows: seq<CurrencyRow>

    ghost predicate Valid()
      reads this
    {
      UniqueCodes(rows)
    }

    constructor ()
      ensures Valid() && rows == []
    {
      rows := [];
    }

    /** `updateExchangeRatesIfNeeded`. `fetched` is the service's `rates`
        object, None when the request (or reading `rates`) throws; `updated`
        is the clock reading taken after the fetch; `writeFails` says which
        upserts throw. Nothing is caught here: a failure ends the pass. */
    method UpdateIfNeeded(catalogue: seq<Entry>, now: int, fetched: Option<map<string, JsVal>>, updated: int,
                          maxFails: bool, writeFails: string -> bool) returns (outcome: RefreshOutcome)
      requires Valid()
      modifies this
      ensures Valid()
      ensures RefreshPost(old(rows), rows, outcome, catalogue, now, fetched, updated, maxFails, writeFails)
    {
      if maxFails {
        return MaxQueryFailed;
      }
      var lastUpdated := MaxUpdated(rows);
      if lastUpdated.Some? && now - lastUpdated.value < RefreshInterval {
        return Skipped;
      }
      if fetched.None? {
        return FetchFailed;
      }
      var failed := UpsertRates(catalogue, fetched.value, updated, writeFails);
      if failed.Some? {
        return WriteFailed(failed.value);
      }
      return Refreshed;
    }

    /** Lines 22-29: upsert every catalogue code whose rate is truthy; the
        first write that throws ends the loop and is reported. */
    method UpsertRates(catalogue: seq<Entry>, rates: map<string, JsVal>, updated: int, writeFails: string -> bool)
      returns (failed: Option<string>)
      requires Valid()
      modifies this
      ensures Valid()
      ensures var w := Writes(catalogue, rates, updated);
        failed.None? ==> rows == UpsertAll(old(rows), w) && forall x :: x in w ==> !writeFails(x.code)
      ensures var w := Writes(catalogue, rates, updated);
        failed.Some? ==>
          exists j :: 0 <= j < |w| && w[j].code == failed.value && writeFails(w[j].code)
            && rows == UpsertAll(old(rows), w[..j]) && forall k :: 0 <= k < j ==> !writeFails(w[k].code)
    {
      ghost var start := rows;
      ghost var done: seq<CurrencyRow> := [];
      var i := 0;
      while i < |catalogue|
        invariant 0 <= i <= |catalogue|
        invariant done == Writes(catalogue[..i], rates, updated)
        invariant rows == UpsertAll(start, done)
        invariant forall x :: x in done ==> !writeFails(x.code)
        invariant UniqueCodes(rows)
      {
        var code, name := catalogue[i].0, catalogue[i].1;
        var rate := RateOf(rates, code);
        WritesStep(catalogue, i, rates, updated);
        if !Truthy(rate) {
          i := i + 1;
          continue;
        }
        if writeFails(code) {
          FailingExit(catalogue, i, rates, updated, start, done, writeFails);
          return Some(code);
        }
        var row := CurrencyRow(code, name, rate, updated);
        UpsertSnoc(start, done, row);
        rows := Upsert(rows, row);
        done := done + [row];
        i := i + 1;
      }
      assert catalogue[..i] == catalogue;
      return None;
    }

    /** `getAllCurrencies`: the refresh check runs first; its failures
        propagate (None, with the refresh outcome saying which one); then
        the whole table is read, and that read may fail too. */
    method GetAll(catalogue: seq<Entry>, now: int, fetched: Option<map<string, JsVal>>, updated: int,
                  maxFails: bool, writeFails: string -> bool, readFails: bool)
      returns (outcome: RefreshOutcome, r: Option<seq<CurrencyRow>>)
      requires Valid()
      modifies this
      ensures Valid()
      ensures RefreshPost(old(rows), rows, outcome, catalogue, now, fetched, updated, maxFails, writeFails)
      ensures r.Some? <==> !Threw(outcome) && !readFails
      ensures r.Some? <==>
                !readFails && !maxFails
                && (Fresh(MaxUpdated(old(rows)), now)
                    || (fetched.Some? && forall x :: x in Writes(catalogue, fetched.value, updated) ==> !writeFails(x.code)))
      ensures r.Some? ==> r.value == rows
    {
      outcome := UpdateIfNeeded(catalogue, now, fetched, updated, maxFails, writeFails);
      RefreshThrows(old(rows), rows, outcome, catalogue, now, fetched, updated, maxFails, writeFails);
      if Threw(outcome) || readFails {
        return outcome, None;
      }
      return outcome, Some(rows);
    }
  }
}
