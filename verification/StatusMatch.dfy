/** Greedy matching of server statuses to estimate lines (web/app.js, matchCalcStatusesToItems). */
module StatusMatch {
  import opened Text
  import opened Wrappers

  /**
    participates: estimateItemParticipatesInCalcStatusMatch; code, matchKey: the pool keys,
    "" for none; the last four fields are what calcStatusNeedsApply compares.
   */
  datatype Item = Item(id: string, participates: bool, code: string, matchKey: string,
                       calcStatus: string, calcError: string, calcKey: string, recordPending: bool)
  datatype Status = Status(lineId: string, code: string, matchKey: string,
                           status: string, error: string, calcKey: string, hasJson: bool)
  /** item and status are positions in their lists */
  datatype Pair = Pair(item: nat, status: nat)

  /** itemsById.get(id): a later item with the same id replaces an earlier one. */
  function ItemById(items: seq<Item>, id: string, n: nat): (r: Option<nat>)
    requires n <= |items|
    ensures r.Some? ==> r.value < n && items[r.value].id == id && id != ""
  {
    if n == 0 then None
    else if items[n - 1].id == id && id != "" then Some(n - 1)
    else ItemById(items, id, n - 1)
  }

  datatype PoolKind = ByMatchKey | ByCode

  function PoolKey(item: Item, kind: PoolKind): string {
    if kind.ByMatchKey? then item.matchKey else item.code
  }

  /** The participating items with this key, in order. */
  function Pool(items: seq<Item>, kind: PoolKind, key: string, n: nat): (r: seq<nat>)
    requires n <= |items|
    ensures forall p :: 0 <= p < |r| ==> r[p] < |items|
  {
    if n == 0 then []
    else Pool(items, kind, key, n - 1)
         + if items[n - 1].participates && PoolKey(items[n - 1], kind) == key && key != "" then [n - 1] else []
  }

  /** The first item of a pool whose id is still unclaimed. */
  function FirstFree(items: seq<Item>, pool: seq<nat>, used: set<string>, p: nat): (r: Option<nat>)
    requires p <= |pool| && forall q :: 0 <= q < |pool| ==> pool[q] < |items|
    ensures r.Some? ==> r.value < |items| && items[r.value].id !in used
    decreases |pool| - p
  {
    if p == |pool| then None
    else if items[pool[p]].participates && items[pool[p]].id !in used then Some(pool[p])
    else FirstFree(items, pool, used, p + 1)
  }

  /** The item one status claims, given the ids claimed before it. */
  function Choose(items: seq<Item>, s: Status, used: set<string>): (r: Option<nat>)
    ensures r.Some? ==> r.value < |items| && items[r.value].id !in used
  {
    var lineId, code := Trim(s.lineId), Trim(s.code);
    var byId := ItemById(items, lineId, |items|);
    if byId.Some? && items[byId.value].id !in used then byId
    else
      var byKey := FirstFree(items, Pool(items, ByMatchKey, s.matchKey, |items|), used, 0);
      if byKey.Some? then byKey
      else if code != "" && lineId == "" then FirstFree(items, Pool(items, ByCode, code, |items|), used, 0)
      else None
  }

  function ClaimedIds(items: seq<Item>, pairs: seq<Pair>): set<string>
    requires forall p :: p in pairs ==> p.item < |items|
  {
    set i | 0 <= i < |pairs| :: items[pairs[i].item].id
  }

  /** The pairs made for the first n statuses. */
  function Matched(items: seq<Item>, statuses: seq<Status>, n: nat): (r: seq<Pair>)
    requires n <= |statuses|
    ensures forall p :: p in r ==> p.item < |items| && p.status < n
  {
    if n == 0 then []
    else
      var before := Matched(items, statuses, n - 1);
      var choice := Choose(items, statuses[n - 1], ClaimedIds(items, before));
      if choice.Some? then before + [Pair(choice.value, n - 1)] else before
  }

  // --- the loops ------------------------------------------------------------

  type Pools = map<string, seq<nat>>

  function PoolOf(pools: Pools, key: string): seq<nat> {
    if key in pools then pools[key] else []
  }

  ghost predicate PoolsAt(pools: Pools, items: seq<Item>, kind: PoolKind, n: nat)
    requires n <= |items|
  {
    forall key :: PoolOf(pools, key) == Pool(items, kind, key, n)
  }

  method AddToPool(pools: Pools, items: seq<Item>, kind: PoolKind, i: nat) returns (r: Pools)
    requires i < |items| && PoolsAt(pools, items, kind, i)
    ensures PoolsAt(r, items, kind, i + 1)
  {
    r := pools;
    var own := PoolKey(items[i], kind);
    if items[i].participates && own != "" {
      r := r[own := PoolOf(r, own) + [i]];
    }
    forall key ensures PoolOf(r, key) == Pool(items, kind, key, i + 1) {
      assert PoolOf(pools, key) == Pool(items, kind, key, i);
    }
  }

  lemma NoPools(items: seq<Item>, kind: PoolKind)
    ensures PoolsAt(map[], items, kind, 0)
  {
  }

  method BuildPools(items: seq<Item>, kind: PoolKind) returns (pools: Pools)
    ensures PoolsAt(pools, items, kind, |items|)
  {
    pools := map[];
    NoPools(items, kind);
    for i := 0 to |items|
      invariant PoolsAt(pools, items, kind, i)
    {
      pools := AddToPool(pools, items, kind, i);
    }
  }

  method IndexItems(items: seq<Item>) returns (byId: map<string, nat>)
    ensures forall id :: (if id in byId then Some(byId[id]) else None) == ItemById(items, id, |items|)
  {
    byId := map[];
    for i := 0 to |items|
      invariant forall id :: (if id in byId then Some(byId[id]) else None) == ItemById(items, id, i)
    {
      if items[i].id != "" {
        byId := byId[items[i].id := i];
      }
    }
  }

  method ClaimFromPool(items: seq<Item>, pool: seq<nat>, used: set<string>) returns (r: Option<nat>)
    requires forall q :: 0 <= q < |pool| ==> pool[q] < |items|
    ensures r == FirstFree(items, pool, used, 0)
  {
    for p := 0 to |pool|
      invariant FirstFree(items, pool, used, 0) == FirstFree(items, pool, used, p)
    {
      if items[pool[p]].participates && items[pool[p]].id !in used {
        return Some(pool[p]);
      }
    }
    return None;
  }

  method ClaimItem(items: seq<Item>, s: Status, used: set<string>, byId: map<string, nat>, byKey: Pools, byCode: Pools)
    returns (item: Option<nat>)
    requires forall id :: (if id in byId then Some(byId[id]) else None) == ItemById(items, id, |items|)
    requires PoolsAt(byKey, items, ByMatchKey, |items|) && PoolsAt(byCode, items, ByCode, |items|)
    ensures item == Choose(items, s, used)
  {
    var lineId, code := Trim(s.lineId), Trim(s.code);
    assert PoolOf(byKey, s.matchKey) == Pool(items, ByMatchKey, s.matchKey, |items|);
    assert PoolOf(byCode, code) == Pool(items, ByCode, code, |items|);
    EmptyKeyEmptyPool(items, ByMatchKey, |items|);
    if lineId == "" && code == "" && s.matchKey == "" {
      return None;
    }
    if lineId != "" && lineId in byId && items[byId[lineId]].id !in used {
      return Some(byId[lineId]);
    }
    item := None;
    if s.matchKey != "" {
      item := ClaimFromPool(items, PoolOf(byKey, s.matchKey), used);
    }
    if item.None? && code != "" && lineId == "" {
      item := ClaimFromPool(items, PoolOf(byCode, code), used);
    }
  }

  lemma {:induction false} EmptyKeyEmptyPool(items: seq<Item>, kind: PoolKind, n: nat)
    requires n <= |items|
    ensures Pool(items, kind, "", n) == []
  {
    if n > 0 { EmptyKeyEmptyPool(items, kind, n - 1); }
  }

  method MatchCalcStatusesToItems(items: seq<Item>, statuses: seq<Status>) returns (pairs: seq<Pair>)
    ensures pairs == Matched(items, statuses, |statuses|)
  {
    var byId := IndexItems(items);
    var byKey := BuildPools(items, ByMatchKey);
    var byCode := BuildPools(items, ByCode);
    var used: set<string> := {};
    pairs := [];
    for n := 0 to |statuses|
      invariant pairs == Matched(items, statuses, n)
      invariant used == ClaimedIds(items, pairs)
    {
      var item := ClaimItem(items, statuses[n], used, byId, byKey, byCode);
      if item.Some? {
        used := used + {items[item.value].id};
        ClaimedSnoc(items, pairs, Pair(item.value, n));
        pairs := pairs + [Pair(item.value, n)];
      }
    }
  }

  lemma ClaimedSnoc(items: seq<Item>, pairs: seq<Pair>, p: Pair)
    requires p.item < |items| && forall q :: q in pairs ==> q.item < |items|
    ensures ClaimedIds(items, pairs + [p]) == ClaimedIds(items, pairs) + {items[p.item].id}
  {
    var all := pairs + [p];
    assert forall q :: q in all <==> q in pairs || q == p;
    forall id ensures id in ClaimedIds(items, all) <==> id in ClaimedIds(items, pairs) || id == items[p.item].id {
      if id in ClaimedIds(items, pairs) {
        var i :| 0 <= i < |pairs| && items[pairs[i].item].id == id;
        assert all[i] == pairs[i];
      }
      assert all[|pairs|] == p;
    }
  }

  // --- one line, one status -------------------------------------------------

  /** No line id and no status appears in two pairs; statuses keep their order. */
  ghost predicate OneToOne(items: seq<Item>, pairs: seq<Pair>)
    requires forall p :: p in pairs ==> p.item < |items|
  {
    forall i, j :: 0 <= i < j < |pairs| ==>
      pairs[i].status < pairs[j].status && items[pairs[i].item].id != items[pairs[j].item].id
  }

  lemma {:induction false} MatchedOneToOne(items: seq<Item>, statuses: seq<Status>, n: nat)
    requires n <= |statuses|
    ensures OneToOne(items, Matched(items, statuses, n))
  {
    if n > 0 {
      MatchedOneToOne(items, statuses, n - 1);
      var before := Matched(items, statuses, n - 1);
      forall i | 0 <= i < |before|
        ensures before[i].status < n - 1 && items[before[i].item].id in ClaimedIds(items, before)
      {
        assert before[i] in before;
      }
    }
  }

  /** Every status names a line that exists, and no two name the same one. */
  ghost predicate NamesOwnLines(items: seq<Item>, statuses: seq<Status>) {
    && (forall s :: 0 <= s < |statuses| ==> ItemById(items, Trim(statuses[s].lineId), |items|).Some?)
    && (forall s, t :: 0 <= s < t < |statuses| ==> Trim(statuses[s].lineId) != Trim(statuses[t].lineId))
  }

  /** Then every status is paired with its own line, whatever the pools contain. */
  lemma {:induction false} OwnLinesMatched(items: seq<Item>, statuses: seq<Status>, n: nat)
    requires NamesOwnLines(items, statuses) && n <= |statuses|
    ensures var r := Matched(items, statuses, n);
      |r| == n && forall s :: 0 <= s < n ==>
        r[s] == Pair(ItemById(items, Trim(statuses[s].lineId), |items|).value, s)
  {
    if n > 0 {
      OwnLinesMatched(items, statuses, n - 1);
      var before := Matched(items, statuses, n - 1);
      var own := ItemById(items, Trim(statuses[n - 1].lineId), |items|);
      assert own.Some?;
      forall i | 0 <= i < |before| ensures items[before[i].item].id != items[own.value].id {
        assert Trim(statuses[i].lineId) != Trim(statuses[n - 1].lineId);
      }
    }
  }

  // --- what a status and its line have in common -------------------------------

  /** The last line with the id that the status names. */
  predicate ByName(items: seq<Item>, s: Status, i: nat)
    requires i < |items|
  {
    Trim(s.lineId) != "" && items[i].id == Trim(s.lineId) && forall j :: i < j < |items| ==> items[j].id != items[i].id
  }

  predicate ByKey(items: seq<Item>, s: Status, i: nat)
    requires i < |items|
  {
    items[i].participates && s.matchKey != "" && items[i].matchKey == s.matchKey
  }

  predicate ByOwnCode(items: seq<Item>, s: Status, i: nat)
    requires i < |items|
  {
    items[i].participates && Trim(s.lineId) == "" && Trim(s.code) != "" && items[i].code == Trim(s.code)
  }

  predicate Fits(items: seq<Item>, s: Status, i: nat)
    requires i < |items|
  {
    ByName(items, s, i) || ByKey(items, s, i) || ByOwnCode(items, s, i)
  }

  /** The name comes before the key and the key before the code; of equal claims the first free line is taken. */
  predicate Takes(items: seq<Item>, used: set<string>, s: Status, i: nat) {
    && i < |items| && items[i].id !in used
    && (|| ByName(items, s, i)
        || (ByKey(items, s, i)
            && (forall j :: 0 <= j < |items| && ByName(items, s, j) ==> items[j].id in used)
            && (forall j :: 0 <= j < i && ByKey(items, s, j) ==> items[j].id in used))
        || (ByOwnCode(items, s, i)
            && (forall j :: 0 <= j < |items| && ByKey(items, s, j) ==> items[j].id in used)
            && (forall j :: 0 <= j < i && ByOwnCode(items, s, j) ==> items[j].id in used)))
  }

  lemma {:induction false} ItemByIdIs(items: seq<Item>, id: string, n: nat)
    requires n <= |items|
    ensures var r := ItemById(items, id, n);
      && (r.None? ==> forall j :: 0 <= j < n ==> items[j].id != id || id == "")
      && (r.Some? ==> forall j :: r.value < j < n ==> items[j].id != id)
  {
    if n > 0 { ItemByIdIs(items, id, n - 1); }
  }

  lemma {:induction false} PoolHas(items: seq<Item>, kind: PoolKind, key: string, n: nat, i: nat)
    requires n <= |items|
    ensures i in Pool(items, kind, key, n) <==>
      i < n && items[i].participates && key != "" && (if kind.ByMatchKey? then items[i].matchKey else items[i].code) == key
  {
    if n > 0 { PoolHas(items, kind, key, n - 1, i); }
  }

  predicate Ascending(r: seq<nat>, n: nat) {
    (forall p :: 0 <= p < |r| ==> r[p] < n) && forall p, q :: 0 <= p < q < |r| ==> r[p] < r[q]
  }

  lemma {:induction false} PoolOrdered(items: seq<Item>, kind: PoolKind, key: string, n: nat)
    requires n <= |items|
    ensures Ascending(Pool(items, kind, key, n), n)
  {
    if n > 0 {
      PoolOrdered(items, kind, key, n - 1);
      var before := Pool(items, kind, key, n - 1);
      assert Ascending(before, n) && Ascending(before + [n - 1], n);
    }
  }

  lemma PoolIs(items: seq<Item>, kind: PoolKind, key: string, n: nat)
    requires n <= |items|
    ensures var r := Pool(items, kind, key, n);
      && (forall i :: i in r <==> 0 <= i < n && items[i].participates && key != ""
                                  && (if kind.ByMatchKey? then items[i].matchKey else items[i].code) == key)
      && forall p, q :: 0 <= p < q < |r| ==> r[p] < r[q]
  {
    hide Pool;
    PoolOrdered(items, kind, key, n);
    var r := Pool(items, kind, key, n);
    forall i ensures i in r <==> 0 <= i < n && items[i].participates && key != ""
                                 && (if kind.ByMatchKey? then items[i].matchKey else items[i].code) == key
    {
      if 0 <= i { PoolHas(items, kind, key, n, i); }
    }
  }

  lemma {:induction false} FirstFreeIs(items: seq<Item>, pool: seq<nat>, used: set<string>, p: nat)
    requires p <= |pool| && forall q :: 0 <= q < |pool| ==> pool[q] < |items| && items[pool[q]].participates
    ensures var r := FirstFree(items, pool, used, p);
      && (r.None? ==> forall q :: p <= q < |pool| ==> items[pool[q]].id in used)
      && (r.Some? ==> exists q :: p <= q < |pool| && pool[q] == r.value
                        && forall k :: p <= k < q ==> items[pool[k]].id in used)
    decreases |pool| - p
  {
    if p < |pool| && items[pool[p]].id in used { FirstFreeIs(items, pool, used, p + 1); }
  }

  /** The first free line of a pool is the first free line with that key. */
  lemma PoolTakes(items: seq<Item>, kind: PoolKind, key: string, used: set<string>)
    ensures var r := FirstFree(items, Pool(items, kind, key, |items|), used, 0);
      && (r.None? ==> forall j :: j in Pool(items, kind, key, |items|) ==> items[j].id in used)
      && (r.Some? ==> r.value in Pool(items, kind, key, |items|)
                      && forall j :: j in Pool(items, kind, key, |items|) && j < r.value ==> items[j].id in used)
  {
    hide Pool;
    hide FirstFree;
    var pool := Pool(items, kind, key, |items|);
    PoolIs(items, kind, key, |items|);
    assert forall q :: 0 <= q < |pool| ==> pool[q] in pool;
    FirstFreeIs(items, pool, used, 0);
  }

  lemma ChooseTakes(items: seq<Item>, s: Status, used: set<string>)
    ensures var r := Choose(items, s, used);
      && (r.Some? ==> Takes(items, used, s, r.value))
      && (r.None? ==> forall i :: 0 <= i < |items| && Fits(items, s, i) ==> items[i].id in used)
  {
    hide Pool;
    hide FirstFree;
    hide ItemById;
    hide Trim;
    var lineId, code := Trim(s.lineId), Trim(s.code);
    ItemByIdIs(items, lineId, |items|);
    PoolIs(items, ByMatchKey, s.matchKey, |items|);
    PoolIs(items, ByCode, code, |items|);
    PoolTakes(items, ByMatchKey, s.matchKey, used);
    PoolTakes(items, ByCode, code, used);
    var byKey := Pool(items, ByMatchKey, s.matchKey, |items|);
    assert forall i :: 0 <= i < |items| && ByKey(items, s, i) ==> i in byKey;
    assert forall i :: 0 <= i < |items| && ByOwnCode(items, s, i) ==> i in Pool(items, ByCode, code, |items|);
  }

  /** At most one line can be taken. */
  lemma TakesOne(items: seq<Item>, used: set<string>, s: Status, i: nat, j: nat)
    requires Takes(items, used, s, i) && Takes(items, used, s, j)
    ensures i == j
  {
    hide Trim;
  }

  function ClaimedBefore(items: seq<Item>, pairs: seq<Pair>, s: nat): set<string>
    requires forall p :: p in pairs ==> p.item < |items|
  {
    set p | p in pairs && p.status < s :: items[p.item].id
  }

  lemma ClaimedAll(items: seq<Item>, pairs: seq<Pair>, s: nat)
    requires forall p :: p in pairs ==> p.item < |items| && p.status < s
    ensures ClaimedBefore(items, pairs, s) == ClaimedIds(items, pairs)
  {
    forall id | id in ClaimedIds(items, pairs) ensures id in ClaimedBefore(items, pairs, s) {
      var i :| 0 <= i < |pairs| && items[pairs[i].item].id == id;
      assert pairs[i] in pairs;
    }
    forall id | id in ClaimedBefore(items, pairs, s) ensures id in ClaimedIds(items, pairs) {
      var p :| p in pairs && p.status < s && items[p.item].id == id;
      var i :| 0 <= i < |pairs| && pairs[i] == p;
    }
  }

  lemma ClaimedLater(items: seq<Item>, pairs: seq<Pair>, p: Pair, s: nat)
    requires p.item < |items| && (forall q :: q in pairs ==> q.item < |items|) && s <= p.status
    ensures ClaimedBefore(items, pairs + [p], s) == ClaimedBefore(items, pairs, s)
  {
    assert forall q :: q in pairs + [p] <==> q in pairs || q == p;
  }

  /**
    A status is paired with a line exactly if it takes that line among the ones no earlier status
    has claimed; and it stays alone only if no such line has its id, its match key, or its code.
   */
  lemma {:induction false} PairedIffTakes(items: seq<Item>, statuses: seq<Status>, n: nat, s: nat)
    requires s < n <= |statuses|
    ensures var r := Matched(items, statuses, n);
      && (forall i: nat :: Pair(i, s) in r <==> Takes(items, ClaimedBefore(items, r, s), statuses[s], i))
      && ((forall i: nat :: Pair(i, s) !in r) ==>
            forall i :: 0 <= i < |items| && Fits(items, statuses[s], i) ==> items[i].id in ClaimedBefore(items, r, s))
  {
    hide Takes;
    hide Choose;
    hide Fits;
    hide ClaimedBefore;
    hide ClaimedIds;
    var before := Matched(items, statuses, n - 1);
    var choice := Choose(items, statuses[n - 1], ClaimedIds(items, before));
    if choice.Some? { ClaimedLater(items, before, Pair(choice.value, n - 1), s); }
    if s < n - 1 {
      PairedIffTakes(items, statuses, n - 1, s);
    } else {
      ClaimedAll(items, before, s);
      var used := ClaimedIds(items, before);
      ChooseTakes(items, statuses[s], used);
      ChosenTakes(items, statuses[s], used);
      assert forall i: nat :: Pair(i, s) !in before;
    }
  }

  lemma ChosenTakes(items: seq<Item>, s: Status, used: set<string>)
    ensures forall i: nat :: Takes(items, used, s, i) <==> Choose(items, s, used) == Some(i)
  {
    hide Choose;
    hide Trim;
    var choice := Choose(items, s, used);
    ChooseTakes(items, s, used);
    forall i: nat | Takes(items, used, s, i) ensures choice == Some(i) {
      if choice.Some? { TakesOne(items, used, s, i, choice.value); }
    }
  }

  // --- the merged apply list ------------------------------------------------

  predicate TerminalStatus(status: string) {
    Trim(status) in {"done", "failed", "dead"}
  }

  predicate NeedsApply(item: Item, s: Status) {
    item.calcStatus != Trim(s.status) || item.calcError != Trim(s.error) || item.calcKey != s.calcKey
    || (Trim(s.status) == "done" && s.hasJson && item.recordPending)
  }

  /** statusesByLineId.get(id): the last status naming the line */
  function StatusByLineId(statuses: seq<Status>, id: string, n: nat): (r: Option<nat>)
    requires n <= |statuses|
    ensures r.Some? ==> r.value < n && Trim(statuses[r.value].lineId) == id && id != ""
  {
    if n == 0 then None
    else if Trim(statuses[n - 1].lineId) == id && id != "" then Some(n - 1)
    else StatusByLineId(statuses, id, n - 1)
  }

  predicate WaitsHere(item: Item) {
    Trim(item.calcStatus) in {"queued", "leased"}
  }

  /** collectStaleLocalCalcStatusPairs, over the first n items */
  function Stale(items: seq<Item>, statuses: seq<Status>, n: nat): (r: seq<Pair>)
    requires n <= |items|
    ensures forall p :: p in r ==> p.item < n && p.status < |statuses|
    ensures forall p :: p in r ==> items[p.item].id != "" && items[p.item].id == Trim(statuses[p.status].lineId)
  {
    if n == 0 then []
    else
      var item := items[n - 1];
      var s := StatusByLineId(statuses, item.id, |statuses|);
      Stale(items, statuses, n - 1)
      + if WaitsHere(item) && s.Some? && TerminalStatus(statuses[s.value].status) then [Pair(n - 1, s.value)] else []
  }

  function Filtered(items: seq<Item>, statuses: seq<Status>, pairs: seq<Pair>): (r: seq<Pair>)
    requires forall p :: p in pairs ==> p.item < |items| && p.status < |statuses|
    ensures forall p :: p in r ==> p in pairs
  {
    if pairs == [] then []
    else
      var last := pairs[|pairs| - 1];
      Filtered(items, statuses, pairs[..|pairs| - 1])
      + if NeedsApply(items[last.item], statuses[last.status]) then [last] else []
  }

  /** Map.set keeps the place of a key that is present and replaces its value. */
  function SetPair(items: seq<Item>, merged: seq<Pair>, p: Pair): (r: seq<Pair>)
    requires p.item < |items| && forall q :: q in merged ==> q.item < |items|
    ensures forall q :: q in r ==> q == p || q in merged
  {
    if merged == [] then [p]
    else if items[merged[0].item].id == items[p.item].id then [p] + merged[1..]
    else [merged[0]] + SetPair(items, merged[1..], p)
  }

  /** mergeEstimateCalcStatusPairs over the concatenated lists */
  function Merged(items: seq<Item>, pairs: seq<Pair>): (r: seq<Pair>)
    requires forall q :: q in pairs ==> q.item < |items|
    ensures forall q :: q in r ==> q in pairs && items[q.item].id != ""
  {
    if pairs == [] then []
    else
      var before, last := Merged(items, pairs[..|pairs| - 1]), pairs[|pairs| - 1];
      if items[last.item].id != "" then SetPair(items, before, last) else before
  }

  function ApplyList(items: seq<Item>, statuses: seq<Status>): (r: seq<Pair>)
    ensures forall p :: p in r ==> p.item < |items| && p.status < |statuses|
  {
    Merged(items, Filtered(items, statuses, Matched(items, statuses, |statuses|))
                  + Filtered(items, statuses, Stale(items, statuses, |items|)))
  }

  ghost predicate DistinctLines(items: seq<Item>, pairs: seq<Pair>)
    requires forall p :: p in pairs ==> p.item < |items|
  {
    forall i, j :: 0 <= i < j < |pairs| ==> items[pairs[i].item].id != items[pairs[j].item].id
  }

  lemma {:induction false} SetPairDistinct(items: seq<Item>, merged: seq<Pair>, p: Pair)
    requires p.item < |items| && forall q :: q in merged ==> q.item < |items|
    requires DistinctLines(items, merged)
    ensures DistinctLines(items, SetPair(items, merged, p))
    ensures p in SetPair(items, merged, p)
    ensures forall q :: q in merged && items[q.item].id != items[p.item].id ==> q in SetPair(items, merged, p)
  {
    if merged != [] && items[merged[0].item].id != items[p.item].id {
      var rest := merged[1..];
      SetPairDistinct(items, rest, p);
      var r := SetPair(items, rest, p);
      forall j | 0 <= j < |r| ensures items[r[j].item].id != items[merged[0].item].id {
        assert r[j] in r;
        if r[j] != p {
          var k :| 0 <= k < |rest| && rest[k] == r[j];
          assert merged[k + 1] == rest[k];
        }
      }
    }
  }

  /** The apply list has one pair per line. */
  lemma {:induction false} MergedDistinct(items: seq<Item>, pairs: seq<Pair>)
    requires forall q :: q in pairs ==> q.item < |items|
    ensures DistinctLines(items, Merged(items, pairs))
    ensures forall q :: q in pairs && items[q.item].id != "" ==>
      exists m :: m in Merged(items, pairs) && items[m.item].id == items[q.item].id
  {
    if pairs != [] {
      var before, last := pairs[..|pairs| - 1], pairs[|pairs| - 1];
      MergedDistinct(items, before);
      if items[last.item].id != "" {
        SetPairDistinct(items, Merged(items, before), last);
      }
    }
  }

  lemma ApplyListOnePerLine(items: seq<Item>, statuses: seq<Status>)
    ensures DistinctLines(items, ApplyList(items, statuses))
  {
    MergedDistinct(items, Filtered(items, statuses, Matched(items, statuses, |statuses|))
                          + Filtered(items, statuses, Stale(items, statuses, |items|)));
  }

  /** With own lines named, every pair of the apply list joins a status to the line it names. */
  lemma ApplyListOwnLines(items: seq<Item>, statuses: seq<Status>)
    requires NamesOwnLines(items, statuses)
    ensures forall p :: p in ApplyList(items, statuses) ==>
      items[p.item].id == Trim(statuses[p.status].lineId)
  {
    OwnLinesMatched(items, statuses, |statuses|);
    var matched := Matched(items, statuses, |statuses|);
    forall p | p in matched ensures items[p.item].id == Trim(statuses[p.status].lineId) {
      var s :| 0 <= s < |matched| && matched[s] == p;
    }
  }

  // --- exactly which pairs are applied ------------------------------------------

  /** The line already shows what the status says. */
  predicate Shows(item: Item, s: Status) {
    && item.calcStatus == Trim(s.status) && item.calcError == Trim(s.error) && item.calcKey == s.calcKey
    && (item.recordPending ==> Trim(s.status) != "done" || !s.hasJson)
  }

  /** A line that waits here, by the last status that names it no longer, and does not show that yet. */
  predicate Overtaken(items: seq<Item>, statuses: seq<Status>, p: Pair) {
    && p.item < |items| && p.status < |statuses|
    && items[p.item].id != "" && Trim(statuses[p.status].lineId) == items[p.item].id
    && (forall t :: p.status < t < |statuses| ==> Trim(statuses[t].lineId) != items[p.item].id)
    && (Trim(items[p.item].calcStatus) == "queued" || Trim(items[p.item].calcStatus) == "leased")
    && (var after := Trim(statuses[p.status].status); after == "done" || after == "failed" || after == "dead")
    && !Shows(items[p.item], statuses[p.status])
  }

  lemma {:induction false} StatusByLineIdIs(statuses: seq<Status>, id: string, n: nat)
    requires n <= |statuses|
    ensures var r := StatusByLineId(statuses, id, n);
      && (r.None? ==> forall t :: 0 <= t < n ==> Trim(statuses[t].lineId) != id || id == "")
      && (r.Some? ==> forall t :: r.value < t < n ==> Trim(statuses[t].lineId) != id)
  {
    hide Trim;
    if n > 0 { StatusByLineIdIs(statuses, id, n - 1); }
  }

  /** One more line adds its pair with the last status that names it, or nothing. */
  lemma StaleSnoc(items: seq<Item>, statuses: seq<Status>, n: nat)
    requires 0 < n <= |items|
    ensures var s := StatusByLineId(statuses, items[n - 1].id, |statuses|);
      Stale(items, statuses, n) == Stale(items, statuses, n - 1)
        + if WaitsHere(items[n - 1]) && s.Some? && TerminalStatus(statuses[s.value].status) then [Pair(n - 1, s.value)] else []
  {
    hide WaitsHere;
    hide TerminalStatus;
  }

  /** The line and its last status: the pair is overtaken exactly if it is stale and differs. */
  lemma OvertakenIff(items: seq<Item>, statuses: seq<Status>, p: Pair)
    requires p.item < |items|
    ensures Overtaken(items, statuses, p) <==>
      && StatusByLineId(statuses, items[p.item].id, |statuses|) == Some(p.status) && p.status < |statuses|
      && WaitsHere(items[p.item]) && TerminalStatus(statuses[p.status].status)
      && !Shows(items[p.item], statuses[p.status])
  {
    hide Trim;
    hide Shows;
    hide StatusByLineId;
    StatusByLineIdIs(statuses, items[p.item].id, |statuses|);
  }

  lemma {:induction false} StaleIs(items: seq<Item>, statuses: seq<Status>, n: nat, p: Pair)
    requires n <= |items|
    ensures p in Stale(items, statuses, n) && p.item < |items| && p.status < |statuses| && !Shows(items[p.item], statuses[p.status])
            <==> p.item < n && Overtaken(items, statuses, p)
  {
    hide WaitsHere;
    hide TerminalStatus;
    hide Overtaken;
    hide Shows;
    hide StatusByLineId;
    OvertakenInRange(items, statuses, p);
    if n > 0 {
      hide Stale;
      StaleSnoc(items, statuses, n);
      StaleIs(items, statuses, n - 1, p);
      if p.item < |items| { OvertakenIff(items, statuses, p); }
    }
  }

  /** Pairs in the order of their lines. */
  ghost predicate InOrder(pairs: seq<Pair>) {
    forall i, j :: 0 <= i < j < |pairs| ==> pairs[i].item < pairs[j].item
  }

  lemma OrderSnoc(pairs: seq<Pair>, p: Pair)
    requires InOrder(pairs) && forall q :: q in pairs ==> q.item < p.item
    ensures InOrder(pairs + [p])
  {
    forall i, j | 0 <= i < j < |pairs + [p]| ensures (pairs + [p])[i].item < (pairs + [p])[j].item {
      assert pairs[i] in pairs;
    }
  }

  lemma NothingStale(items: seq<Item>, statuses: seq<Status>)
    ensures Stale(items, statuses, 0) == [] && InOrder([])
  {
  }

  lemma StaleOneMore(items: seq<Item>, statuses: seq<Status>, n: nat) returns (s: nat)
    requires 0 < n <= |items|
    ensures var before, r := Stale(items, statuses, n - 1), Stale(items, statuses, n);
      (forall q :: q in before ==> q.item < n - 1) && (r == before || r == before + [Pair(n - 1, s)])
  {
    hide StatusByLineId;
    hide WaitsHere;
    hide TerminalStatus;
    StaleSnoc(items, statuses, n);
    assert Stale(items, statuses, n - 1) + [] == Stale(items, statuses, n - 1);
    var last := StatusByLineId(statuses, items[n - 1].id, |statuses|);
    s := if last.Some? then last.value else 0;
  }

  lemma {:induction false} StaleInOrder(items: seq<Item>, statuses: seq<Status>, n: nat)
    requires n <= |items|
    ensures InOrder(Stale(items, statuses, n))
  {
    hide *;
    if n == 0 {
      NothingStale(items, statuses);
    } else {
      StaleInOrder(items, statuses, n - 1);
      var s := StaleOneMore(items, statuses, n);
      OrderSnoc(Stale(items, statuses, n - 1), Pair(n - 1, s));
    }
  }

  lemma FilteredSnoc(items: seq<Item>, statuses: seq<Status>, before: seq<Pair>, last: Pair)
    requires forall p :: p in before ==> p.item < |items| && p.status < |statuses|
    requires last.item < |items| && last.status < |statuses|
    ensures var r := Filtered(items, statuses, before);
      Filtered(items, statuses, before + [last])
      == if Shows(items[last.item], statuses[last.status]) then r else r + [last]
  {
    hide Trim;
    assert (before + [last])[..|before|] == before;
    assert Filtered(items, statuses, before) + [] == Filtered(items, statuses, before);
  }

  lemma {:induction false} FilteredHas(items: seq<Item>, statuses: seq<Status>, pairs: seq<Pair>, p: Pair)
    requires forall p :: p in pairs ==> p.item < |items| && p.status < |statuses|
    ensures p in Filtered(items, statuses, pairs) <==> p in pairs && !Shows(items[p.item], statuses[p.status])
  {
    hide Filtered;
    hide Shows;
    if pairs == [] {
      assert Filtered(items, statuses, pairs) == [] by { NothingFiltered(items, statuses); }
    } else {
      var before, last := pairs[..|pairs| - 1], pairs[|pairs| - 1];
      assert pairs == before + [last];
      FilteredHas(items, statuses, before, p);
      FilteredSnoc(items, statuses, before, last);
    }
  }

  lemma NothingFiltered(items: seq<Item>, statuses: seq<Status>)
    ensures Filtered(items, statuses, []) == []
  {
  }

  lemma InOrderParts(before: seq<Pair>, last: Pair)
    requires InOrder(before + [last])
    ensures InOrder(before) && forall p :: p in before ==> p.item < last.item
  {
    var all := before + [last];
    assert all[|before|] == last;
    forall i | 0 <= i < |before| ensures all[i] == before[i] && before[i].item < last.item { }
  }

  lemma {:induction false} FilteredInOrder(items: seq<Item>, statuses: seq<Status>, pairs: seq<Pair>)
    requires (forall p :: p in pairs ==> p.item < |items| && p.status < |statuses|) && InOrder(pairs)
    ensures InOrder(Filtered(items, statuses, pairs))
  {
    hide Filtered;
    hide Shows;
    hide InOrder;
    if pairs == [] {
      NothingFiltered(items, statuses);
    } else {
      var before, last := pairs[..|pairs| - 1], pairs[|pairs| - 1];
      assert pairs == before + [last];
      InOrderParts(before, last);
      FilteredInOrder(items, statuses, before);
      FilteredSnoc(items, statuses, before, last);
      OrderSnoc(Filtered(items, statuses, before), last);
    }
  }

  lemma DistinctParts(items: seq<Item>, before: seq<Pair>, last: Pair)
    requires forall p :: p in before + [last] ==> p.item < |items|
    requires DistinctLines(items, before + [last])
    ensures (forall p :: p in before ==> p in before + [last]) && last in before + [last]
    ensures DistinctLines(items, before) && forall p :: p in before ==> items[p.item].id != items[last.item].id
  {
    var all := before + [last];
    assert all[|before|] == last;
    forall i | 0 <= i < |before| ensures all[i] == before[i] && items[before[i].item].id != items[last.item].id { }
  }

  lemma {:induction false} FilteredDistinct(items: seq<Item>, statuses: seq<Status>, pairs: seq<Pair>)
    requires forall p :: p in pairs ==> p.item < |items| && p.status < |statuses|
    requires DistinctLines(items, pairs)
    ensures DistinctLines(items, Filtered(items, statuses, pairs))
  {
    hide Filtered;
    hide Shows;
    hide DistinctLines;
    if pairs == [] {
      NothingFiltered(items, statuses);
    } else {
      var before, last := pairs[..|pairs| - 1], pairs[|pairs| - 1];
      assert pairs == before + [last];
      DistinctParts(items, before, last);
      FilteredDistinct(items, statuses, before);
      FilteredSnoc(items, statuses, before, last);
      DistinctSnoc(items, Filtered(items, statuses, before), last);
    }
  }

  lemma DistinctSnoc(items: seq<Item>, r: seq<Pair>, last: Pair)
    requires (forall p :: p in r ==> p.item < |items|) && last.item < |items|
    requires DistinctLines(items, r) && forall p :: p in r ==> items[p.item].id != items[last.item].id
    ensures DistinctLines(items, r + [last])
  {
    forall i | 0 <= i < |r| ensures r[i] in r { }
  }

  /** The last of the pairs with its line's id. */
  ghost predicate LastWithId(items: seq<Item>, pairs: seq<Pair>, p: Pair)
    requires forall q :: q in pairs ==> q.item < |items|
  {
    exists k :: 0 <= k < |pairs| && pairs[k] == p && items[p.item].id != ""
                && forall l :: k < l < |pairs| ==> items[pairs[l].item].id != items[p.item].id
  }

  lemma LastSnoc(items: seq<Item>, pairs: seq<Pair>, last: Pair, p: Pair)
    requires last.item < |items| && forall q :: q in pairs ==> q.item < |items|
    ensures LastWithId(items, pairs + [last], p) <==>
      if p == last then items[last.item].id != ""
      else LastWithId(items, pairs, p) && items[last.item].id != items[p.item].id
  {
    var all := pairs + [last];
    assert all[|pairs|] == last;
    if p == last && items[last.item].id != "" { assert LastWithId(items, all, p); }
    if p != last && LastWithId(items, all, p) {
      var k :| 0 <= k < |all| && all[k] == p && forall l :: k < l < |all| ==> items[all[l].item].id != items[p.item].id;
      assert pairs[k] == p && forall l :: k < l < |pairs| ==> all[l] == pairs[l];
    }
    if p != last && LastWithId(items, pairs, p) && items[last.item].id != items[p.item].id {
      var k :| 0 <= k < |pairs| && pairs[k] == p && forall l :: k < l < |pairs| ==> items[pairs[l].item].id != items[p.item].id;
      assert all[k] == p;
    }
  }

  lemma {:induction false} SetPairIs(items: seq<Item>, merged: seq<Pair>, p: Pair, q: Pair)
    requires p.item < |items| && (forall r :: r in merged ==> r.item < |items|) && DistinctLines(items, merged)
    ensures q in SetPair(items, merged, p) <==> q == p || (q in merged && items[q.item].id != items[p.item].id)
  {
    if merged != [] {
      var rest := merged[1..];
      assert forall r :: r in merged <==> r == merged[0] || r in rest;
      assert forall r :: r in rest ==> exists j :: 0 < j < |merged| && merged[j] == r;
      SetPairIs(items, rest, p, q);
    }
  }

  lemma {:induction false} MergedIs(items: seq<Item>, pairs: seq<Pair>, p: Pair)
    requires forall q :: q in pairs ==> q.item < |items|
    ensures p in Merged(items, pairs) <==> LastWithId(items, pairs, p)
  {
    hide LastWithId;
    if pairs == [] {
      assert !LastWithId(items, pairs, p) by { NoneIsLast(items, p); }
    } else {
      var before, last := pairs[..|pairs| - 1], pairs[|pairs| - 1];
      assert pairs == before + [last];
      MergedIs(items, before, p);
      LastSnoc(items, before, last, p);
      MergedDistinct(items, before);
      if items[last.item].id != "" {
        SetPairIs(items, Merged(items, before), last, p);
      } else if p in Merged(items, before) {
        assert items[p.item].id != "";
      }
    }
  }

  lemma NoneIsLast(items: seq<Item>, p: Pair)
    ensures !LastWithId(items, [], p)
  {
  }

  /** p is in b and no later line of b has its id; or p is in a, and no line of b has its id. */
  ghost predicate LastOf(items: seq<Item>, a: seq<Pair>, b: seq<Pair>, p: Pair)
    requires (forall q :: q in a ==> q.item < |items|) && (forall q :: q in b ==> q.item < |items|)
  {
    || (p in b && items[p.item].id != "" && forall q :: q in b && items[q.item].id == items[p.item].id ==> q.item <= p.item)
    || (p in a && items[p.item].id != "" && forall q :: q in b ==> items[q.item].id != items[p.item].id)
  }

  lemma LastOfBoth(items: seq<Item>, a: seq<Pair>, b: seq<Pair>, p: Pair)
    requires (forall q :: q in a ==> q.item < |items|) && (forall q :: q in b ==> q.item < |items|)
    requires InOrder(b) && LastWithId(items, a + b, p)
    ensures LastOf(items, a, b, p)
  {
    var all := a + b;
    var k :| 0 <= k < |all| && all[k] == p && forall l :: k < l < |all| ==> items[all[l].item].id != items[p.item].id;
    forall q | q in b && items[q.item].id == items[p.item].id ensures k >= |a| && q.item <= p.item {
      var l :| 0 <= l < |b| && b[l] == q;
      assert all[|a| + l] == q;
      assert k >= |a| && all[k] == b[k - |a|];
    }
    if k >= |a| { assert p == b[k - |a|]; } else { assert p == a[k]; }
  }

  lemma LastInFirst(items: seq<Item>, a: seq<Pair>, b: seq<Pair>, p: Pair)
    requires (forall q :: q in a ==> q.item < |items|) && (forall q :: q in b ==> q.item < |items|) && DistinctLines(items, a)
    requires p in a && items[p.item].id != "" && forall q :: q in b ==> items[q.item].id != items[p.item].id
    ensures LastWithId(items, a + b, p)
  {
    var all := a + b;
    var k :| 0 <= k < |a| && a[k] == p;
    forall l | k < l < |all| ensures items[all[l].item].id != items[p.item].id {
      if l < |a| { assert all[l] == a[l]; } else { assert all[l] == b[l - |a|] && b[l - |a|] in b; }
    }
    assert all[k] == p;
  }

  lemma LastInSecond(items: seq<Item>, a: seq<Pair>, b: seq<Pair>, p: Pair)
    requires (forall q :: q in a ==> q.item < |items|) && (forall q :: q in b ==> q.item < |items|) && InOrder(b)
    requires p in b && items[p.item].id != ""
    requires forall q :: q in b && items[q.item].id == items[p.item].id ==> q.item <= p.item
    ensures LastWithId(items, a + b, p)
  {
    var all := a + b;
    var k :| 0 <= k < |b| && b[k] == p;
    forall l | |a| + k < l < |all| ensures items[all[l].item].id != items[p.item].id {
      assert all[l] == b[l - |a|] && b[l - |a|] in b;
    }
    assert all[|a| + k] == p;
  }

  /**
    A pair is applied exactly if its line has an id and does not show its status yet, and the pair
    joins an overtaken line, the last with that id, to its status, or is one of the matched pairs
    and no line with that id is overtaken.
   */
  lemma AppliedIff(items: seq<Item>, statuses: seq<Status>, p: Pair)
    ensures p in ApplyList(items, statuses) <==>
      || (Overtaken(items, statuses, p)
          && forall q :: Overtaken(items, statuses, q) && items[q.item].id == items[p.item].id ==> q.item <= p.item)
      || (p in Matched(items, statuses, |statuses|) && items[p.item].id != "" && !Shows(items[p.item], statuses[p.status])
          && forall q :: Overtaken(items, statuses, q) ==> items[q.item].id != items[p.item].id)
  {
    hide Shows;
    hide Stale;
    hide Matched;
    hide Filtered;
    hide Merged;
    hide LastWithId;
    hide Overtaken;
    var matched, stale := Matched(items, statuses, |statuses|), Stale(items, statuses, |items|);
    MatchedOneToOne(items, statuses, |statuses|);
    StaleInOrder(items, statuses, |items|);
    FilteredDistinct(items, statuses, matched);
    FilteredInOrder(items, statuses, stale);
    FilteredHas(items, statuses, matched, p);
    var a, b := Filtered(items, statuses, matched), Filtered(items, statuses, stale);
    forall q ensures q in b <==> Overtaken(items, statuses, q) {
      FilteredHas(items, statuses, stale, q);
      StaleIs(items, statuses, |items|, q);
      OvertakenInRange(items, statuses, q);
    }
    MergedIs(items, a + b, p);
    OvertakenInRange(items, statuses, p);
    if LastWithId(items, a + b, p) { LastOfBoth(items, a, b, p); }
    if LastOf(items, a, b, p) {
      if p in b && forall q :: q in b && items[q.item].id == items[p.item].id ==> q.item <= p.item {
        LastInSecond(items, a, b, p);
      } else {
        LastInFirst(items, a, b, p);
      }
    }
  }

  lemma OvertakenInRange(items: seq<Item>, statuses: seq<Status>, p: Pair)
    ensures Overtaken(items, statuses, p) ==> p.item < |items| && p.status < |statuses| && items[p.item].id != ""
  {
  }
}
