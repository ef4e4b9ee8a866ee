/** The incremental grand total of the estimate editor (web/app.js). */
module RunningTotal {
  import opened Text
  import opened Wrappers

  /** Sections; lines priced by the server; everything else. */
  datatype Kind = Structural | Gsn | Plain
  /** total: the line's resolved amount (for a Gsn line, the server's). */
  datatype Item = Item(id: string, kind: Kind, calcStatus: string, total: real)

  /** estimateLineCalcDone trims the status; the accumulator compares it as it is. */
  predicate CalcDone(item: Item) {
    Trim(item.calcStatus) == "done"
  }

  predicate Passes(item: Item) {
    item.kind.Gsn? && item.calcStatus == "done"
  }

  function LineAmount(item: Item, withGsn: bool): real {
    match item.kind
    case Structural => 0.0
    case Plain => item.total
    case Gsn => if withGsn && CalcDone(item) then item.total else 0.0
  }

  function SumAmounts(items: seq<Item>, withGsn: bool): real {
    if items == [] then 0.0
    else SumAmounts(items[..|items| - 1], withGsn) + LineAmount(items[|items| - 1], withGsn)
  }

  /** estimateCalcProgressBaseGrandTotal: the lines the server does not price. */
  function BaseGrandTotal(items: seq<Item>): real {
    SumAmounts(items, false)
  }

  /** estimateGrandTotalForDisplay: the full recomputation. */
  function GrandTotalForDisplay(items: seq<Item>): real {
    SumAmounts(items, true)
  }

  /** Titles count nowhere, plain lines in both totals, lines priced by the server only when done and only in the full one. */
  lemma LineCounted(before: seq<Item>, item: Item, after: seq<Item>)
    ensures GrandTotalForDisplay(before + [item] + after) == GrandTotalForDisplay(before + after)
              + if item.kind == Plain || (item.kind == Gsn && Trim(item.calcStatus) == "done") then item.total else 0.0
    ensures BaseGrandTotal(before + [item] + after) == BaseGrandTotal(before + after)
              + if item.kind == Plain then item.total else 0.0
  {
    hide Trim;
    SumWith(before, item, after, true);
    SumWith(before, item, after, false);
  }

  lemma {:induction false} SumWith(before: seq<Item>, item: Item, after: seq<Item>, withGsn: bool)
    ensures SumAmounts(before + [item] + after, withGsn) == SumAmounts(before + after, withGsn) + LineAmount(item, withGsn)
  {
    hide LineAmount;
    var all, rest := before + [item] + after, before + after;
    if after == [] {
      assert all == before + [item] && rest == before;
      assert all[..|all| - 1] == before;
    } else {
      var last := after[..|after| - 1];
      SumWith(before, item, last, withGsn);
      assert all[..|all| - 1] == before + [item] + last && rest[..|rest| - 1] == before + last;
    }
  }

  method SumLoop(items: seq<Item>, withGsn: bool) returns (sum: real)
    ensures sum == SumAmounts(items, withGsn)
  {
    sum := 0.0;
    for i := 0 to |items|
      invariant sum == SumAmounts(items[..i], withGsn)
    {
      assert items[..i + 1][..i] == items[..i];
      sum := sum + LineAmount(items[i], withGsn);
    }
    assert items[..|items|] == items;
  }

  // --- sums over the recorded totals ----------------------------------------

  type Totals = map<string, real>

  ghost function MapSum(m: Totals): real {
    if m == map[] then 0.0
    else
      var k :| k in m;
      m[k] + MapSum(m - {k})
  }

  lemma {:induction false} MapSumRemove(m: Totals, k: string)
    requires k in m
    ensures MapSum(m) == m[k] + MapSum(m - {k})
    decreases |m|
  {
    var first :| first in m && MapSum(m) == m[first] + MapSum(m - {first});
    if first != k {
      assert |m - {first}| < |m| && |m - {k}| < |m| by {
        assert (m - {first}).Keys == m.Keys - {first} && (m - {k}).Keys == m.Keys - {k};
      }
      MapSumRemove(m - {first}, k);
      MapSumRemove(m - {k}, first);
      assert m - {first} - {k} == m - {k} - {first};
    }
  }

  function Recorded(m: Totals, id: string): real {
    if id in m then m[id] else 0.0
  }

  lemma MapSumUpdate(m: Totals, k: string, v: real)
    ensures MapSum(m[k := v]) == MapSum(m) + v - Recorded(m, k)
  {
    MapSumRemove(m[k := v], k);
    assert m[k := v] - {k} == m - {k};
    if k in m {
      MapSumRemove(m, k);
    } else {
      assert m - {k} == m;
    }
  }

  // --- the accumulator ------------------------------------------------------

  /** The totals recorded after these items have been passed. */
  function Passed(totals: Totals, pairs: seq<Item>): Totals {
    if pairs == [] then totals
    else
      var last := pairs[|pairs| - 1];
      var before := Passed(totals, pairs[..|pairs| - 1]);
      if Passes(last) then before[last.id := last.total] else before
  }

  class ProgressTarget {
    var baseGrandTotal: real
    var runningGrandTotal: real
    var countedDoneLineIds: set<string>
    var lineTotals: Totals

    ghost predicate Valid()
      reads this
    {
      countedDoneLineIds == lineTotals.Keys
    }

    /** restartEstimateTableCalculation */
    constructor (items: seq<Item>)
      ensures Valid() && lineTotals == map[]
      ensures baseGrandTotal == BaseGrandTotal(items) && runningGrandTotal == baseGrandTotal
    {
      var base := SumLoop(items, false);
      baseGrandTotal, runningGrandTotal := base, base;
      countedDoneLineIds, lineTotals := {}, map[];
    }

    /** One done line: a total that is recorded already changes nothing. */
    method RecordLine(item: Item) returns (change: real)
      requires Valid()
      modifies this`lineTotals, this`countedDoneLineIds
      ensures Valid() && lineTotals == old(lineTotals)[item.id := item.total]
      ensures change == MapSum(lineTotals) - MapSum(old(lineTotals))
    {
      hide MapSum;
      var lineTotal := item.total;
      var prev := Recorded(lineTotals, item.id);
      if prev == lineTotal && item.id in countedDoneLineIds {
        assert lineTotals[item.id := lineTotal] == lineTotals;
        return 0.0;
      }
      MapSumUpdate(lineTotals, item.id, lineTotal);
      lineTotals := lineTotals[item.id := lineTotal];
      countedDoneLineIds := countedDoneLineIds + {item.id};
      return lineTotal - prev;
    }

    /** accumulateCalcGrandTotalFromPairs: what is recorded, and that nothing else moves the total. */
    method Accumulate(pairs: seq<Item>, allItems: Option<seq<Item>>)
      requires Valid()
      modifies this
      ensures Valid()
      ensures lineTotals == Passed(old(lineTotals), pairs)
      ensures runningGrandTotal - MapSum(lineTotals) == old(runningGrandTotal) - MapSum(old(lineTotals))
      ensures baseGrandTotal == NextBase(old(baseGrandTotal), if allItems.Some? then allItems.value else pairs)
    {
      hide MapSum;
      var items := if allItems.Some? then allItems.value else pairs;
      if baseGrandTotal == 0.0 && items != [] {
        baseGrandTotal := SumLoop(items, false);
      }
      var delta := 0.0;
      for i := 0 to |pairs|
        invariant Valid() && lineTotals == Passed(old(lineTotals), pairs[..i])
        invariant delta == MapSum(lineTotals) - MapSum(old(lineTotals))
        invariant runningGrandTotal == old(runningGrandTotal)
        invariant baseGrandTotal == NextBase(old(baseGrandTotal), items)
      {
        assert pairs[..i + 1][..i] == pairs[..i];
        if pairs[i].kind.Gsn? && pairs[i].calcStatus == "done" {
          var change := RecordLine(pairs[i]);
          delta := delta + change;
        }
      }
      assert pairs[..|pairs|] == pairs;
      if delta != 0.0 {
        runningGrandTotal := runningGrandTotal + delta;
      }
    }
  }

  /** The base is read again only while it is zero. */
  function NextBase(base: real, items: seq<Item>): real {
    if base == 0.0 && items != [] then BaseGrandTotal(items) else base
  }

  // --- runs -----------------------------------------------------------------

  datatype Call = Call(pairs: seq<Item>, all: seq<Item>)
  /** The fields of a ProgressTarget that matter after a run. */
  datatype Target = Target(base: real, running: real, totals: Totals)

  /** A state the calls can lead to from a restart with base total base. */
  ghost predicate Reached(base: real, calls: seq<Call>, t: Target) {
    if calls == [] then t == Target(base, base, map[])
    else
      var c := calls[|calls| - 1];
      exists s: Target :: Reached(base, calls[..|calls| - 1], s)
        && t.totals == Passed(s.totals, c.pairs)
        && t.running - MapSum(t.totals) == s.running - MapSum(s.totals)
        && t.base == NextBase(s.base, c.all)
  }

  /** A restart and any calls after it. */
  method Run(items: seq<Item>, calls: seq<Call>) returns (target: ProgressTarget)
    ensures fresh(target) && target.Valid()
    ensures Reached(BaseGrandTotal(items), calls,
                    Target(target.baseGrandTotal, target.runningGrandTotal, target.lineTotals))
  {
    hide MapSum;
    ghost var base := BaseGrandTotal(items);
    target := new ProgressTarget(items);
    for i := 0 to |calls|
      invariant fresh(target) && target.Valid()
      invariant Reached(base, calls[..i], Target(target.baseGrandTotal, target.runningGrandTotal, target.lineTotals))
    {
      ghost var before := Target(target.baseGrandTotal, target.runningGrandTotal, target.lineTotals);
      target.Accumulate(calls[i].pairs, Some(calls[i].all));
      assert calls[..i + 1][..i] == calls[..i];
      ReachedNext(base, calls[..i + 1], before,
                  Target(target.baseGrandTotal, target.runningGrandTotal, target.lineTotals));
    }
    assert calls[..|calls|] == calls;
  }

  lemma ReachedNext(base: real, calls: seq<Call>, s: Target, t: Target)
    requires calls != [] && Reached(base, calls[..|calls| - 1], s)
    requires t.totals == Passed(s.totals, calls[|calls| - 1].pairs)
    requires t.running - MapSum(t.totals) == s.running - MapSum(s.totals)
    requires t.base == NextBase(s.base, calls[|calls| - 1].all)
    ensures Reached(base, calls, t)
  {
  }

  function TotalsAfter(calls: seq<Call>): Totals {
    if calls == [] then map[] else Passed(TotalsAfter(calls[..|calls| - 1]), calls[|calls| - 1].pairs)
  }

  /**
    After any order and repetition of calls the running total is the base of the restart plus
    the sum of the recorded line totals; with the full list in every call it is also the
    target's own base plus that sum.
   */
  lemma {:induction false} RunningIsBasePlusRecorded(base: real, calls: seq<Call>, t: Target)
    requires Reached(base, calls, t)
    ensures t.totals == TotalsAfter(calls)
    ensures t.running == base + MapSum(t.totals)
    ensures (forall c :: c in calls ==> BaseGrandTotal(c.all) == base) ==> t.base == base
  {
    if calls != [] {
      var before, c := calls[..|calls| - 1], calls[|calls| - 1];
      var s: Target :| Reached(base, before, s)
        && t.totals == Passed(s.totals, c.pairs)
        && t.running - MapSum(t.totals) == s.running - MapSum(s.totals)
        && t.base == NextBase(s.base, c.all);
      RunningIsBasePlusRecorded(base, before, s);
      assert forall x :: x in before ==> x in calls;
      assert c in calls;
    }
  }

  // --- what is recorded and what is done -------------------------------------

  /** The total of the last item with this id that a call would record. */
  function LastRecorded(items: seq<Item>, id: string): Option<real> {
    if items == [] then None
    else if items[|items| - 1].id == id && Passes(items[|items| - 1]) then Some(items[|items| - 1].total)
    else LastRecorded(items[..|items| - 1], id)
  }

  /** The total of the last item with this id that was passed in any call. */
  function LastPassed(calls: seq<Call>, id: string): Option<real> {
    if calls == [] then None
    else
      match LastRecorded(calls[|calls| - 1].pairs, id)
      case Some(total) => Some(total)
      case None => LastPassed(calls[..|calls| - 1], id)
  }

  predicate IsDone(item: Item) {
    item.kind.Gsn? && CalcDone(item)
  }

  /** The total of the last done line with this id. */
  function LastDone(items: seq<Item>, id: string): Option<real> {
    if items == [] then None
    else if items[|items| - 1].id == id && IsDone(items[|items| - 1]) then Some(items[|items| - 1].total)
    else LastDone(items[..|items| - 1], id)
  }

  function Lookup(m: Totals, id: string): Option<real> {
    if id in m then Some(m[id]) else None
  }

  lemma {:induction false} PassedLookup(totals: Totals, pairs: seq<Item>, id: string)
    ensures Lookup(Passed(totals, pairs), id)
            == match LastRecorded(pairs, id) { case Some(total) => Some(total) case None => Lookup(totals, id) }
  {
    if pairs != [] { PassedLookup(totals, pairs[..|pairs| - 1], id); }
  }

  /** Each id is recorded with the total it was last passed with, in whatever call. */
  lemma {:induction false} TotalsAreLastPassed(calls: seq<Call>, id: string)
    ensures Lookup(TotalsAfter(calls), id) == LastPassed(calls, id)
  {
    if calls != [] {
      TotalsAreLastPassed(calls[..|calls| - 1], id);
      PassedLookup(TotalsAfter(calls[..|calls| - 1]), calls[|calls| - 1].pairs, id);
    }
  }

  /** The done lines of a list by id. */
  function DoneTotals(items: seq<Item>): Totals {
    if items == [] then map[]
    else
      var last := items[|items| - 1];
      var before := DoneTotals(items[..|items| - 1]);
      if IsDone(last) then before[last.id := last.total] else before
  }

  lemma {:induction false} DoneLookup(items: seq<Item>, id: string)
    ensures Lookup(DoneTotals(items), id) == LastDone(items, id)
  {
    if items != [] { DoneLookup(items[..|items| - 1], id); }
  }

  /** A done line that a later done line with its id hides from the record. */
  predicate Shadowed(items: seq<Item>, i: nat)
    requires i < |items|
  {
    IsDone(items[i]) && exists j :: i < j < |items| && IsDone(items[j]) && items[j].id == items[i].id
  }

  /** The total of the hidden lines from position i on. */
  function ShadowedSum(items: seq<Item>, i: nat): real
    requires i <= |items|
    decreases |items| - i
  {
    if i == |items| then 0.0
    else ShadowedSum(items, i + 1) + if Shadowed(items, i) then items[i].total else 0.0
  }

  function Repeats(items: seq<Item>): real {
    ShadowedSum(items, 0)
  }

  /** One more line hides the done line before it that was last with its id. */
  lemma {:induction false} ShadowedGrows(items: seq<Item>, i: nat)
    requires items != [] && i <= |items| - 1
    ensures var before, last := items[..|items| - 1], items[|items| - 1];
      ShadowedSum(items, i) == ShadowedSum(before, i)
        + if IsDone(last) && LastDone(before[i..], last.id).Some? then LastDone(before[i..], last.id).value else 0.0
    decreases |items| - i
  {
    var before, last := items[..|items| - 1], items[|items| - 1];
    if i == |items| - 1 {
      assert before[i..] == [] && !Shadowed(items, i);
    } else {
      ShadowedGrows(items, i + 1);
      LastDoneFront(before[i..], last.id);
      assert before[i..][1..] == before[i + 1..] && before[i..][0] == items[i];
      LastDoneListed(before[i + 1..], items[i].id);
      ShadowedMore(items, i);
    }
  }

  lemma ShadowedMore(items: seq<Item>, i: nat)
    requires i < |items| - 1
    ensures var before, last := items[..|items| - 1], items[|items| - 1];
      && (Shadowed(before, i) <==> IsDone(items[i]) && exists j :: i < j < |before| && IsDone(before[j]) && before[j].id == items[i].id)
      && (Shadowed(items, i) <==> Shadowed(before, i) || (IsDone(items[i]) && IsDone(last) && last.id == items[i].id))
  {
    var before, last := items[..|items| - 1], items[|items| - 1];
    if Shadowed(before, i) {
      var j :| i < j < |before| && IsDone(before[j]) && before[j].id == before[i].id;
      assert IsDone(items[j]) && items[j].id == items[i].id;
    }
  }

  lemma {:induction false} LastDoneFront(items: seq<Item>, id: string)
    requires items != []
    ensures LastDone(items, id)
            == match LastDone(items[1..], id) {
                 case Some(total) => Some(total)
                 case None => if items[0].id == id && IsDone(items[0]) then Some(items[0].total) else None
               }
  {
    if |items| > 1 {
      LastDoneFront(items[..|items| - 1], id);
      assert items[..|items| - 1][1..] == items[1..][..|items| - 2];
    }
  }

  lemma {:induction false} LastDoneListed(items: seq<Item>, id: string)
    ensures LastDone(items, id).Some? <==> exists j :: 0 <= j < |items| && IsDone(items[j]) && items[j].id == id
  {
    if items != [] {
      var before, last := items[..|items| - 1], items[|items| - 1];
      LastDoneListed(before, id);
      if LastDone(before, id).Some? {
        var j :| 0 <= j < |before| && IsDone(before[j]) && before[j].id == id;
        assert IsDone(items[j]) && items[j].id == id;
      } else if IsDone(last) && last.id == id {
        assert IsDone(items[|items| - 1]);
      }
    }
  }

  /** The full recomputation is the base plus each id's last done total, plus the lines hidden behind them. */
  lemma {:induction false} RecomputationIsBasePlusDone(items: seq<Item>)
    ensures GrandTotalForDisplay(items) == BaseGrandTotal(items) + MapSum(DoneTotals(items)) + Repeats(items)
  {
    if items != [] {
      var before, last := items[..|items| - 1], items[|items| - 1];
      RecomputationIsBasePlusDone(before);
      ShadowedGrows(items, 0);
      assert before[0..] == before;
      DoneLookup(before, last.id);
      MapSumUpdate(DoneTotals(before), last.id, last.total);
    }
  }

  // --- the running total against the full recomputation ------------------------

  /**
    After any calls the running total and the full recomputation differ by what is recorded and
    not done, less what is done and not recorded, less the done lines hidden behind another.
   */
  lemma RunningIsRecomputation(base: real, calls: seq<Call>, t: Target, all: seq<Item>)
    requires Reached(base, calls, t) && BaseGrandTotal(all) == base
    ensures t.running - GrandTotalForDisplay(all) == MapSum(TotalsAfter(calls)) - MapSum(DoneTotals(all)) - Repeats(all)
  {
    hide MapSum;
    hide ShadowedSum;
    RunningIsBasePlusRecorded(base, calls, t);
    RecomputationIsBasePlusDone(all);
  }

  /**
    Lines become done, or are calculated again, between two calls. Once each done line was last
    passed with the total it has now, and nothing that was passed is no longer done, the running
    total is complete, but for done lines that share an id.
   */
  lemma CompleteOncePassed(base: real, calls: seq<Call>, t: Target, all: seq<Item>)
    requires Reached(base, calls, t) && BaseGrandTotal(all) == base
    requires forall id :: LastPassed(calls, id) == LastDone(all, id)
    ensures t.running == GrandTotalForDisplay(all) - Repeats(all)
  {
    hide MapSum;
    hide ShadowedSum;
    hide LastPassed;
    hide LastDone;
    forall id ensures Lookup(TotalsAfter(calls), id) == Lookup(DoneTotals(all), id) {
      TotalsAreLastPassed(calls, id);
      DoneLookup(all, id);
    }
    SameLookups(TotalsAfter(calls), DoneTotals(all));
    RunningIsRecomputation(base, calls, t, all);
  }

  lemma SameLookups(a: Totals, b: Totals)
    requires forall id :: Lookup(a, id) == Lookup(b, id)
    ensures a == b
  {
    assert forall id :: id in a ==> Lookup(a, id) == Some(a[id]);
    assert forall id :: id in b ==> Lookup(b, id) == Some(b[id]);
    assert forall id :: id in a <==> Lookup(a, id).Some?;
  }

  /** Recorded by earlier calls for lines that are no longer done. */
  function Stale(calls: seq<Call>, all: seq<Item>): Totals {
    var m := TotalsAfter(calls);
    map id | id in m && LastDone(all, id).None? :: m[id]
  }

  /**
    What is missing in the record: the status of a done line is trimmed by the recomputation and
    compared as it is by the accumulator, so a line that is done but for white space is passed over.
   */
  function Missed(calls: seq<Call>, all: seq<Item>): Totals {
    var m, d := TotalsAfter(calls), DoneTotals(all);
    map id | id in d && LastRecorded(all, id) != LastDone(all, id) :: d[id] - Recorded(m, id)
  }

  predicate ExactStatuses(items: seq<Item>) {
    forall x :: x in items && IsDone(x) ==> x.calcStatus == "done"
  }

  lemma {:induction false} ExactMissesNone(items: seq<Item>, id: string)
    requires ExactStatuses(items)
    ensures LastRecorded(items, id) == LastDone(items, id)
  {
    if items != [] {
      TrimDone();
      assert items[|items| - 1] in items;
      ExactMissesNone(items[..|items| - 1], id);
    }
  }

  lemma TrimDone()
    ensures Trim("done") == "done"
  {
  }

  function Restricted(m: Totals, keys: set<string>): Totals {
    map id | id in m && id in keys :: m[id]
  }

  lemma NothingSummed()
    ensures MapSum(map[]) == 0.0
  {
  }

  lemma RestrictedRemove(m: Totals, keys: set<string>, k: string)
    ensures Restricted(m - {k}, keys) == Restricted(m, keys) - {k}
    ensures Restricted(m, keys - {k}) == Restricted(m, keys) - {k}
    ensures (m - {k}).Keys == m.Keys - {k} && (m - {k}) - keys == (m - keys) - {k}
    ensures k !in m ==> m - {k} == m
    ensures k in keys ==> (m - keys) - {k} == m - keys
    ensures k !in keys ==> Restricted(m, keys) - {k} == Restricted(m, keys)
  {
  }

  lemma {:induction false} MapSumSplit(m: Totals, keys: set<string>)
    ensures MapSum(m) == MapSum(Restricted(m, keys)) + MapSum(m - keys)
    decreases |m|
  {
    hide MapSum;
    if m == map[] {
      NothingSummed();
      assert Restricted(m, keys) == map[] && m - keys == map[];
    } else {
      var k :| k in m;
      RestrictedRemove(m, keys, k);
      SmallerMap(m, k);
      MapSumSplit(m - {k}, keys);
      MapSumRemove(m, k);
      if k in keys {
        MapSumRemove(Restricted(m, keys), k);
      } else {
        MapSumRemove(m - keys, k);
      }
    }
  }

  lemma SmallerMap(m: Totals, k: string)
    requires k in m
    ensures |m - {k}| < |m|
  {
    assert (m - {k}).Keys == m.Keys - {k};
  }

  lemma MapSumWithout(m: Totals, k: string)
    ensures MapSum(m) == Recorded(m, k) + MapSum(m - {k})
  {
    hide MapSum;
    if k in m { MapSumRemove(m, k); } else { assert m - {k} == m; }
  }

  /** The sum of a table less what another holds for the same ids. */
  lemma {:induction false} MapSumLess(d: Totals, m: Totals, less: Totals)
    requires less.Keys <= d.Keys && forall id :: id in d ==> Recorded(less, id) == d[id] - Recorded(m, id)
    ensures MapSum(less) == MapSum(d) - MapSum(Restricted(m, d.Keys))
    decreases |d|
  {
    hide MapSum;
    if d == map[] {
      NothingSummed();
      assert less == map[] && Restricted(m, d.Keys) == map[];
    } else {
      var k :| k in d;
      RestrictedRemove(d, {}, k);
      RestrictedRemove(less, {}, k);
      RestrictedRemove(m, d.Keys, k);
      SmallerMap(d, k);
      MapSumLess(d - {k}, m, less - {k});
      MapSumWithout(d, k);
      MapSumWithout(less, k);
      MapSumWithout(Restricted(m, d.Keys), k);
    }
  }

  /**
    After a call with the full list, whatever was passed before: the running total is the full
    recomputation plus what earlier calls recorded for lines that are no longer done, less the
    done lines that are passed over and those hidden behind another with their id.
   */
  lemma AfterFullCall(base: real, calls: seq<Call>, t: Target, all: seq<Item>)
    requires Reached(base, calls, t) && BaseGrandTotal(all) == base
    requires calls != [] && calls[|calls| - 1].pairs == all
    ensures t.running
            == GrandTotalForDisplay(all) + MapSum(Stale(calls, all)) - MapSum(Missed(calls, all)) - Repeats(all)
    ensures ExactStatuses(all) ==> Missed(calls, all) == map[]
  {
    hide MapSum;
    hide ShadowedSum;
    hide BaseGrandTotal;
    hide GrandTotalForDisplay;
    var m, d := TotalsAfter(calls), DoneTotals(all);
    FullCallParts(calls, all);
    if ExactStatuses(all) {
      forall id ensures LastRecorded(all, id) == LastDone(all, id) { ExactMissesNone(all, id); }
    }
    MapSumSplit(m, d.Keys);
    MapSumLess(d, m, Missed(calls, all));
    RunningIsRecomputation(base, calls, t, all);
  }

  lemma FullCallParts(calls: seq<Call>, all: seq<Item>)
    requires calls != [] && calls[|calls| - 1].pairs == all
    ensures var m, d, missed := TotalsAfter(calls), DoneTotals(all), Missed(calls, all);
      && m - d.Keys == Stale(calls, all) && missed.Keys <= d.Keys
      && forall id :: id in d ==> Recorded(missed, id) == d[id] - Recorded(m, id)
  {
    var m, d := TotalsAfter(calls), DoneTotals(all);
    forall id
      ensures Lookup(d, id) == LastDone(all, id)
      ensures LastRecorded(all, id).Some? ==> Lookup(m, id) == LastRecorded(all, id)
    {
      DoneLookup(all, id);
      TotalsAreLastPassed(calls, id);
    }
    hide LastDone;
    hide LastRecorded;
    hide TotalsAfter;
    hide DoneTotals;
    assert forall id :: id in d <==> Lookup(d, id).Some?;
    assert forall id :: id in d ==> Lookup(d, id) == Some(d[id]);
    assert forall id :: id in m ==> Lookup(m, id) == Some(m[id]);
    forall id | id in d && LastRecorded(all, id) == LastDone(all, id) ensures Recorded(m, id) == d[id] {
      assert Lookup(m, id) == Some(d[id]);
    }
  }

  predicate DistinctIds(items: seq<Item>) {
    forall i, j :: 0 <= i < j < |items| ==> items[i].id != items[j].id
  }

  lemma {:induction false} NoRepeats(items: seq<Item>, i: nat)
    requires DistinctIds(items) && i <= |items|
    ensures ShadowedSum(items, i) == 0.0
    decreases |items| - i
  {
    if i < |items| { NoRepeats(items, i + 1); }
  }

  /**
    With distinct ids the total is complete after a call with the full list exactly when stale and
    missed totals cancel out; with statuses as the app writes them, when nothing stale is left.
   */
  lemma CompleteAfterFullCall(base: real, calls: seq<Call>, t: Target, all: seq<Item>)
    requires Reached(base, calls, t) && BaseGrandTotal(all) == base && DistinctIds(all)
    requires calls != [] && calls[|calls| - 1].pairs == all
    ensures t.running == GrandTotalForDisplay(all) <==> MapSum(Stale(calls, all)) == MapSum(Missed(calls, all))
    ensures ExactStatuses(all) && (forall id :: LastPassed(calls, id).Some? ==> LastDone(all, id).Some?) ==>
      t.running == GrandTotalForDisplay(all)
  {
    hide ShadowedSum;
    AfterFullCall(base, calls, t, all);
    NoRepeats(all, 0);
    if forall id :: LastPassed(calls, id).Some? ==> LastDone(all, id).Some? {
      forall id | id in TotalsAfter(calls) ensures LastDone(all, id).Some? { TotalsAreLastPassed(calls, id); }
      assert Stale(calls, all) == map[];
    }
  }
}
