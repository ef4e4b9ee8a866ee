/** Re-synchronising line ids with a saved estimate (web/app.js, syncEstimateLineIdsFromSaved). */
module LineIdSync {
  import opened Text
  import opened Wrappers

  /** key: the line's sync key, which a change of the id does not touch */
  datatype Line = Line(id: string, key: Key)
  datatype Key = Key(text: string)

  function ReadLine(id: string, kind: string, source: string, code: string, originalCode: string, rawText: string): Line {
    Line(id, Key(kind + "|" + source + "|" + code + "|" + originalCode + "|" + rawText))
  }

  /**
    Lines share a key exactly if kind, source, both codes and raw text are the same, whatever their ids;
    only the raw text may hold bars.
   */
  lemma SameKeyIff(a: seq<string>, b: seq<string>, id: string, jd: string)
    requires |a| == |b| == 5 && forall i :: 0 <= i < 4 ==> '|' !in a[i] && '|' !in b[i]
    ensures ReadLine(id, a[0], a[1], a[2], a[3], a[4]).id == id
    ensures ReadLine(id, a[0], a[1], a[2], a[3], a[4]).key == ReadLine(jd, b[0], b[1], b[2], b[3], b[4]).key <==> a == b
  {
    var x3, y3 := a[3] + "|" + a[4], b[3] + "|" + b[4];
    var x2, y2 := a[2] + "|" + x3, b[2] + "|" + y3;
    var x1, y1 := a[1] + "|" + x2, b[1] + "|" + y2;
    CutSame(a[0], b[0], '|', x1, y1);
    CutSame(a[1], b[1], '|', x2, y2);
    CutSame(a[2], b[2], '|', x3, y3);
    CutSame(a[3], b[3], '|', a[4], b[4]);
    assert a[0] + "|" + a[1] + "|" + a[2] + "|" + a[3] + "|" + a[4] == a[0] + ['|'] + x1;
    assert b[0] + "|" + b[1] + "|" + b[2] + "|" + b[3] + "|" + b[4] == b[0] + ['|'] + y1;
    assert a == [a[0], a[1], a[2], a[3], a[4]] && b == [b[0], b[1], b[2], b[3], b[4]];
  }

  /** The lines with this key among the first n, in order. */
  function Occurrences(lines: seq<Line>, n: nat, key: Key): seq<Line>
    requires n <= |lines|
  {
    if n == 0 then []
    else Occurrences(lines, n - 1, key) + if lines[n - 1].key == key then [lines[n - 1]] else []
  }

  function Rank(lines: seq<Line>, i: nat): nat
    requires i < |lines|
  {
    |Occurrences(lines, i, lines[i].key)|
  }

  /** The saved line a local line is paired with: same key and same rank, else the same position. */
  function Partner(local: seq<Line>, saved: seq<Line>, i: nat): Option<Line>
    requires i < |local|
  {
    var pool := Occurrences(saved, |saved|, local[i].key);
    if Rank(local, i) < |pool| then Some(pool[Rank(local, i)])
    else if i < |saved| then Some(saved[i])
    else None
  }

  /** String(saved?.id || "").trim() */
  function SavedId(partner: Option<Line>): string {
    match partner
    case None => ""
    case Some(line) => Trim(line.id)
  }

  function Resynced(line: Line, savedId: string): Line {
    if savedId == "" then line else line.(id := savedId)
  }

  function NewLine(local: seq<Line>, saved: seq<Line>, i: nat): Line
    requires i < |local|
  {
    Resynced(local[i], SavedId(Partner(local, saved, i)))
  }

  function NewId(local: seq<Line>, saved: seq<Line>, i: nat): string
    requires i < |local|
  {
    NewLine(local, saved, i).id
  }

  function Changes(local: seq<Line>, saved: seq<Line>, n: nat): map<string, string>
    requires n <= |local|
  {
    if n == 0 then map[]
    else
      var before := Changes(local, saved, n - 1);
      if NewId(local, saved, n - 1) == local[n - 1].id then before
      else before[local[n - 1].id := NewId(local, saved, n - 1)]
  }

  type Pools = map<Key, seq<Line>>

  function Pool(pools: Pools, key: Key): seq<Line> {
    if key in pools then pools[key] else []
  }

  /** The saved lines of a key that the first n local lines have not taken. */
  function Untaken(local: seq<Line>, n: nat, saved: seq<Line>, key: Key): seq<Line>
    requires n <= |local|
  {
    var pool, taken := Occurrences(saved, |saved|, key), |Occurrences(local, n, key)|;
    if taken < |pool| then pool[taken..] else []
  }

  lemma UntakenStep(local: seq<Line>, i: nat, saved: seq<Line>, k: Key)
    requires i < |local|
    ensures var pool := Untaken(local, i, saved, k);
      Untaken(local, i + 1, saved, k) == if k == local[i].key && pool != [] then pool[1..] else pool
  {
  }

  method BuildPools(saved: seq<Line>) returns (pools: Pools)
    ensures forall key :: Pool(pools, key) == Occurrences(saved, |saved|, key)
  {
    pools := map[];
    for j := 0 to |saved|
      invariant forall key :: Pool(pools, key) == Occurrences(saved, j, key)
    {
      pools := pools[saved[j].key := Pool(pools, saved[j].key) + [saved[j]]];
    }
  }

  /** pool?.length ? pool.shift() : savedItems[index] */
  method TakePartner(pools: Pools, key: Key, saved: seq<Line>, i: nat, ghost local: seq<Line>)
    returns (partner: Option<Line>, rest: Pools)
    requires i < |local| && key == local[i].key
    requires forall k :: Pool(pools, k) == Untaken(local, i, saved, k)
    ensures partner == Partner(local, saved, i)
    ensures forall k :: Pool(rest, k) == Untaken(local, i + 1, saved, k)
  {
    var pool := Pool(pools, key);
    assert pool == Untaken(local, i, saved, key);
    if pool != [] {
      partner := Some(pool[0]);
      rest := pools[key := pool[1..]];
    } else {
      partner := if i < |saved| then Some(saved[i]) else None;
      rest := pools;
    }
    forall k ensures Pool(rest, k) == Untaken(local, i + 1, saved, k) {
      UntakenStep(local, i, saved, k);
      assert Pool(pools, k) == Untaken(local, i, saved, k);
    }
  }

  /** The first i local lines have been synchronised, the others are as before. */
  ghost predicate SyncedUpTo(local: array<Line>, before: seq<Line>, saved: seq<Line>, i: nat)
    requires i <= local.Length == |before|
    reads local
  {
    local[..i] == SyncedLines(before, saved, i) && local[i..] == before[i..]
  }

  /** The loop body for one local line. */
  method SyncOne(local: array<Line>, i: nat, saved: seq<Line>, pools: Pools, changes: map<string, string>,
                 ghost before: seq<Line>)
    returns (rest: Pools, r: map<string, string>)
    requires i < local.Length == |before| && SyncedUpTo(local, before, saved, i)
    requires forall key :: Pool(pools, key) == Untaken(before, i, saved, key)
    modifies local
    ensures SyncedUpTo(local, before, saved, i + 1)
    ensures forall key :: Pool(rest, key) == Untaken(before, i + 1, saved, key)
    ensures changes == Changes(before, saved, i) ==> r == Changes(before, saved, i + 1)
  {
    assert local[i] == local[i..][0] == before[i..][0] == before[i];
    var partner;
    partner, rest := TakePartner(pools, local[i].key, saved, i, before);
    hide Partner;
    hide Untaken;
    ghost var done, ahead := local[..i], local[i..];
    r := ResyncAt(local, i, SavedId(partner), changes);
    assert local[i] == NewLine(before, saved, i);
    assert local[..i] == done;
    assert local[..i + 1] == done + [local[i]] == SyncedLines(before, saved, i + 1);
    assert local[i + 1..] == ahead[1..] == before[i + 1..];
  }

  /** syncEstimateLineIdsFromSaved: the local lines are updated in place. */
  method SyncEstimateLineIdsFromSaved(local: array<Line>, saved: seq<Line>) returns (changes: map<string, string>)
    modifies local
    ensures local[..] == SyncedLines(old(local[..]), saved, local.Length)
    ensures changes == Changes(old(local[..]), saved, local.Length)
  {
    ghost var before := local[..];
    changes := map[];
    if local.Length == 0 || saved == [] {
      EmptySavedChangesNothing(before, saved, |before|);
      return;
    }
    var pools := BuildPools(saved);
    for i := 0 to local.Length
      invariant SyncedUpTo(local, before, saved, i)
      invariant forall key :: Pool(pools, key) == Untaken(before, i, saved, key)
      invariant changes == Changes(before, saved, i)
    {
      pools, changes := SyncOne(local, i, saved, pools, changes, before);
    }
    assert local[..local.Length] == local[..];
  }

  method ResyncAt(local: array<Line>, i: nat, savedId: string, changes: map<string, string>)
    returns (r: map<string, string>)
    requires i < local.Length
    modifies local
    ensures local[i] == Resynced(old(local[i]), savedId)
    ensures forall k :: 0 <= k < local.Length && k != i ==> local[k] == old(local[k])
    ensures r == if local[i].id == old(local[i]).id then changes else changes[old(local[i]).id := local[i].id]
  {
    r := changes;
    var line := local[i];
    if savedId != "" && line.id != savedId {
      r := r[line.id := savedId];
      local[i] := line.(id := savedId);
    }
  }

  /** The first n local lines after the call. */
  function SyncedLines(local: seq<Line>, saved: seq<Line>, n: nat): (r: seq<Line>)
    requires n <= |local|
  {
    if n == 0 then []
    else SyncedLines(local, saved, n - 1) + [NewLine(local, saved, n - 1)]
  }

  lemma {:induction false} EmptySavedChangesNothing(local: seq<Line>, saved: seq<Line>, n: nat)
    requires n <= |local| && (local == [] || saved == [])
    ensures Changes(local, saved, n) == map[]
    ensures SyncedLines(local, saved, n) == local[..n]
  {
    if n > 0 {
      EmptySavedChangesNothing(local, saved, n - 1);
    }
  }

  // --- what the pairing achieves --------------------------------------------

  function KeyCount(lines: seq<Line>, n: nat, key: Key): nat
    requires n <= |lines|
  {
    if n == 0 then 0 else KeyCount(lines, n - 1, key) + if lines[n - 1].key == key then 1 else 0
  }

  /** Both lists have the same multiset of keys. */
  ghost predicate SameKeys(local: seq<Line>, saved: seq<Line>) {
    forall key :: KeyCount(local, |local|, key) == KeyCount(saved, |saved|, key)
  }

  /** Ids as the server issues them: not blank, no surrounding space. */
  predicate CleanIds(lines: seq<Line>) {
    forall i :: 0 <= i < |lines| ==> lines[i].id != "" && Trimmed(lines[i].id)
  }

  lemma {:induction false} OccurrencesGrow(lines: seq<Line>, i: nat, n: nat, key: Key)
    requires i <= n <= |lines|
    ensures Occurrences(lines, i, key) <= Occurrences(lines, n, key)
  {
    if i < n { OccurrencesGrow(lines, i, n - 1, key); }
  }

  lemma {:induction false} OccurrencesAreLines(lines: seq<Line>, n: nat, key: Key)
    requires n <= |lines|
    ensures forall x :: x in Occurrences(lines, n, key) ==> x in lines && x.key == key
  {
    if n > 0 { OccurrencesAreLines(lines, n - 1, key); }
  }

  /** With the same keys on both sides the i-th occurrence of a key meets its i-th saved occurrence. */
  lemma PairedByOccurrence(local: seq<Line>, saved: seq<Line>, i: nat)
    requires SameKeys(local, saved) && CleanIds(saved) && i < |local|
    ensures var pool := Occurrences(saved, |saved|, local[i].key);
      Rank(local, i) < |pool| && NewId(local, saved, i) == pool[Rank(local, i)].id
  {
    var key := local[i].key;
    OccurrencesGrow(local, i + 1, |local|, key);
    KeyCountIsLength(local, |local|, key);
    KeyCountIsLength(saved, |saved|, key);
    OccurrencesAreLines(saved, |saved|, key);
    var partner := Occurrences(saved, |saved|, key)[Rank(local, i)];
    assert partner in saved;
    TrimIsTrimmed(partner.id);
  }

  // Counting one id x at a time keeps the permutation argument arithmetic.

  lemma {:induction false} KeyCountIsLength(lines: seq<Line>, n: nat, key: Key)
    requires n <= |lines|
    ensures KeyCount(lines, n, key) == |Occurrences(lines, n, key)|
  {
    if n > 0 { KeyCountIsLength(lines, n - 1, key); }
  }

  lemma {:induction false} KeyCountGrows(lines: seq<Line>, i: nat, n: nat, key: Key)
    requires i <= n <= |lines|
    ensures KeyCount(lines, i, key) <= KeyCount(lines, n, key)
  {
    if i < n { KeyCountGrows(lines, i, n - 1, key); }
  }

  /** 1 if the r-th line with this key among the first m has the id x. */
  function NthHas(saved: seq<Line>, m: nat, key: Key, r: nat, x: string): nat
    requires m <= |saved|
  {
    if m == 0 then 0
    else NthHas(saved, m - 1, key, r, x)
         + if saved[m - 1].key == key && KeyCount(saved, m - 1, key) == r && saved[m - 1].id == x then 1 else 0
  }

  lemma {:induction false} NthIsOccurrence(saved: seq<Line>, m: nat, key: Key, r: nat, x: string)
    requires m <= |saved|
    ensures var pool := Occurrences(saved, m, key);
      NthHas(saved, m, key, r, x) == if r < |pool| && pool[r].id == x then 1 else 0
  {
    if m > 0 {
      NthIsOccurrence(saved, m - 1, key, r, x);
      KeyCountIsLength(saved, m - 1, key);
    }
  }

  /** How many of the first m saved lines have the id x and are not taken by the first n local lines. */
  function Left(local: seq<Line>, n: nat, saved: seq<Line>, m: nat, x: string): nat
    requires n <= |local| && m <= |saved|
  {
    if m == 0 then 0
    else
      var line := saved[m - 1];
      Left(local, n, saved, m - 1, x)
      + if KeyCount(saved, m - 1, line.key) >= KeyCount(local, n, line.key) && line.id == x then 1 else 0
  }

  /** One more local line takes exactly the saved line of its key and rank. */
  lemma {:induction false} TakesOne(local: seq<Line>, n: nat, saved: seq<Line>, m: nat, x: string)
    requires n < |local| && m <= |saved|
    ensures Left(local, n, saved, m, x) == Left(local, n + 1, saved, m, x)
      + NthHas(saved, m, local[n].key, KeyCount(local, n, local[n].key), x)
  {
    if m > 0 { TakesOne(local, n, saved, m - 1, x); }
  }

  lemma {:induction false} NoneLeft(local: seq<Line>, saved: seq<Line>, m: nat, x: string)
    requires SameKeys(local, saved) && m <= |saved|
    ensures Left(local, |local|, saved, m, x) == 0
  {
    if m > 0 {
      NoneLeft(local, saved, m - 1, x);
      KeyCountGrows(saved, m, |saved|, saved[m - 1].key);
    }
  }

  /** How many of the first n local lines get the id x. */
  function Assigned(local: seq<Line>, saved: seq<Line>, n: nat, x: string): nat
    requires n <= |local|
  {
    if n == 0 then 0 else Assigned(local, saved, n - 1, x) + if NewId(local, saved, n - 1) == x then 1 else 0
  }

  function Having(lines: seq<Line>, n: nat, x: string): nat
    requires n <= |lines|
  {
    if n == 0 then 0 else Having(lines, n - 1, x) + if lines[n - 1].id == x then 1 else 0
  }

  lemma {:induction false} AllLeftAtStart(local: seq<Line>, saved: seq<Line>, m: nat, x: string)
    requires m <= |saved|
    ensures Left(local, 0, saved, m, x) == Having(saved, m, x)
  {
    if m > 0 { AllLeftAtStart(local, saved, m - 1, x); }
  }

  /** The local line has no partner of its key and falls back to its position. */
  predicate Unmatched(local: seq<Line>, saved: seq<Line>, i: nat)
    requires i < |local|
  {
    Rank(local, i) >= |Occurrences(saved, |saved|, local[i].key)|
  }

  /** No local line takes this saved line as its partner. */
  predicate Spare(local: seq<Line>, saved: seq<Line>, j: nat)
    requires j < |saved|
  {
    Rank(saved, j) >= |Occurrences(local, |local|, saved[j].key)|
  }

  /** How many of the first n local lines get the id x without a partner. */
  function Fallback(local: seq<Line>, saved: seq<Line>, n: nat, x: string): nat
    requires n <= |local|
  {
    if n == 0 then 0
    else Fallback(local, saved, n - 1, x)
         + if Unmatched(local, saved, n - 1) && NewId(local, saved, n - 1) == x then 1 else 0
  }

  lemma {:induction false} AssignedPlusLeft(local: seq<Line>, n: nat, saved: seq<Line>, x: string)
    requires CleanIds(saved) && n <= |local|
    ensures Assigned(local, saved, n, x) + Left(local, n, saved, |saved|, x)
            == Having(saved, |saved|, x) + Fallback(local, saved, n, x)
  {
    hide Unmatched;
    hide NewId;
    hide KeyCount;
    hide NthHas;
    if n == 0 {
      AllLeftAtStart(local, saved, |saved|, x);
    } else {
      AssignedPlusLeft(local, n - 1, saved, x);
      TakesOne(local, n - 1, saved, |saved|, x);
      AssignedIsNth(local, saved, n - 1, x);
    }
  }

  lemma AssignedIsNth(local: seq<Line>, saved: seq<Line>, i: nat, x: string)
    requires CleanIds(saved) && i < |local|
    ensures NthHas(saved, |saved|, local[i].key, KeyCount(local, i, local[i].key), x)
            == if !Unmatched(local, saved, i) && NewId(local, saved, i) == x then 1 else 0
  {
    var key := local[i].key;
    KeyCountIsLength(local, i, key);
    NthIsOccurrence(saved, |saved|, key, KeyCount(local, i, key), x);
    if !Unmatched(local, saved, i) {
      OccurrencesAreLines(saved, |saved|, key);
      var partner := Occurrences(saved, |saved|, key)[Rank(local, i)];
      assert partner in saved;
      TrimIsTrimmed(partner.id);
    }
  }

  lemma {:induction false} NoFallback(local: seq<Line>, saved: seq<Line>, n: nat, x: string)
    requires SameKeys(local, saved) && CleanIds(saved) && n <= |local|
    ensures Fallback(local, saved, n, x) == 0
  {
    hide Occurrences;
    hide NewId;
    hide KeyCount;
    hide SameKeys;
    hide CleanIds;
    if n > 0 {
      PairedByOccurrence(local, saved, n - 1);
      NoFallback(local, saved, n - 1, x);
    }
  }

  /** Every id is given to as many local lines as there are saved lines with it. */
  lemma IdsArePermutation(local: seq<Line>, saved: seq<Line>, x: string)
    requires SameKeys(local, saved) && CleanIds(saved)
    ensures Assigned(local, saved, |local|, x) == Having(saved, |saved|, x)
  {
    AssignedPlusLeft(local, |local|, saved, x);
    NoneLeft(local, saved, |saved|, x);
    NoFallback(local, saved, |local|, x);
  }

  lemma {:induction false} AssignedIsHaving(local: seq<Line>, saved: seq<Line>, n: nat, x: string)
    requires n <= |local|
    ensures var r := SyncedLines(local, saved, n);
      |r| == n && Having(r, n, x) == Assigned(local, saved, n, x)
  {
    hide NewLine;
    hide Occurrences;
    if n > 0 {
      AssignedIsHaving(local, saved, n - 1, x);
      var before, r := SyncedLines(local, saved, n - 1), SyncedLines(local, saved, n);
      HavingPrefix(before, r, n - 1, x);
    }
  }

  lemma {:induction false} HavingPrefix(a: seq<Line>, b: seq<Line>, n: nat, x: string)
    requires a <= b && n <= |a|
    ensures Having(a, n, x) == Having(b, n, x)
  {
    if n > 0 { HavingPrefix(a, b, n - 1, x); }
  }

  lemma {:induction false} HavingIsMultiplicity(lines: seq<Line>, n: nat, x: string)
    requires n <= |lines|
    ensures Having(lines, n, x) == multiset(Ids(lines, n))[x]
  {
    if n > 0 { HavingIsMultiplicity(lines, n - 1, x); }
  }

  function Ids(lines: seq<Line>, n: nat): seq<string>
    requires n <= |lines|
  {
    if n == 0 then [] else Ids(lines, n - 1) + [lines[n - 1].id]
  }

  /** The local ids after the call are those of the saved lines, each as often. */
  ghost predicate BecomePermutation(local: seq<Line>, saved: seq<Line>) {
    multiset(Ids(SyncedLines(local, saved, |local|), |SyncedLines(local, saved, |local|)|))
    == multiset(Ids(saved, |saved|))
  }

  lemma MultiplicitiesAre(local: seq<Line>, saved: seq<Line>, x: string)
    ensures var r := SyncedLines(local, saved, |local|);
      |r| == |local|
      && multiset(Ids(r, |r|))[x] == Assigned(local, saved, |local|, x)
      && multiset(Ids(saved, |saved|))[x] == Having(saved, |saved|, x)
  {
    var r := SyncedLines(local, saved, |local|);
    AssignedIsHaving(local, saved, |local|, x);
    HavingIsMultiplicity(r, |r|, x);
    HavingIsMultiplicity(saved, |saved|, x);
  }

  /** With the same keys on both sides the ids become a permutation of the saved ids. */
  lemma SyncedIdsArePermutation(local: seq<Line>, saved: seq<Line>)
    requires SameKeys(local, saved) && CleanIds(saved)
    ensures BecomePermutation(local, saved)
  {
    forall x ensures Assigned(local, saved, |local|, x) == Having(saved, |saved|, x) {
      IdsArePermutation(local, saved, x);
      MultiplicitiesAre(local, saved, x);
    }
    forall x { MultiplicitiesAre(local, saved, x); }
  }

  // --- when an edited list keeps its ids apart --------------------------------

  lemma {:induction false} IdsLength(lines: seq<Line>, n: nat)
    requires n <= |lines|
    ensures |Ids(lines, n)| == n
  {
    if n > 0 { IdsLength(lines, n - 1); }
  }

  predicate DistinctIds(lines: seq<Line>) {
    forall i, j :: 0 <= i < j < |lines| ==> lines[i].id != lines[j].id
  }

  /** A line without a partner gets the id at its position. */
  lemma FallbackIsPosition(local: seq<Line>, saved: seq<Line>, i: nat)
    requires CleanIds(saved) && i < |local| && i < |saved| && Unmatched(local, saved, i)
    ensures NewId(local, saved, i) == saved[i].id
  {
    TrimIsTrimmed(saved[i].id);
  }

  lemma SpareIsLeft(local: seq<Line>, saved: seq<Line>, j: nat)
    requires j < |saved|
    ensures Spare(local, saved, j) <==> KeyCount(saved, j, saved[j].key) >= KeyCount(local, |local|, saved[j].key)
  {
    KeyCountIsLength(saved, j, saved[j].key);
    KeyCountIsLength(local, |local|, saved[j].key);
  }

  lemma {:induction false} SamePositions(local: seq<Line>, saved: seq<Line>, n: nat, x: string)
    requires CleanIds(saved) && |local| == |saved| && n <= |local|
    requires forall i :: 0 <= i < |local| ==> (Unmatched(local, saved, i) <==> Spare(local, saved, i))
    ensures Fallback(local, saved, n, x) == Left(local, |local|, saved, n, x)
  {
    hide Unmatched;
    hide Spare;
    hide NewId;
    hide KeyCount;
    if n > 0 {
      SamePositions(local, saved, n - 1, x);
      SpareIsLeft(local, saved, n - 1);
      if Unmatched(local, saved, n - 1) { FallbackIsPosition(local, saved, n - 1); }
    }
  }

  /** With distinct ids only position i can add to the two counts of its id. */
  lemma {:induction false} OnlyPosition(local: seq<Line>, saved: seq<Line>, i: nat, n: nat)
    requires CleanIds(saved) && DistinctIds(saved) && |local| == |saved| && n <= |local| && i < |saved|
    ensures Fallback(local, saved, n, saved[i].id) == if i < n && Unmatched(local, saved, i) then 1 else 0
    ensures Left(local, |local|, saved, n, saved[i].id) == if i < n && Spare(local, saved, i) then 1 else 0
  {
    hide Unmatched;
    hide Spare;
    hide NewId;
    hide KeyCount;
    if n > 0 {
      OnlyPosition(local, saved, i, n - 1);
      SpareIsLeft(local, saved, n - 1);
      if Unmatched(local, saved, n - 1) { FallbackIsPosition(local, saved, n - 1); }
    }
  }

  /**
    For any edit of the local list: the ids become a permutation of the saved ids exactly when the
    lists are equally long and the local lines without a partner stand where the untaken saved
    lines stand.
   */
  lemma PermutationIff(local: seq<Line>, saved: seq<Line>)
    requires CleanIds(saved) && DistinctIds(saved)
    ensures BecomePermutation(local, saved) <==>
      |local| == |saved|
      && forall i :: 0 <= i < |local| ==> (Unmatched(local, saved, i) <==> Spare(local, saved, i))
  {
    hide Left;
    hide Fallback;
    hide SyncedLines;
    hide CleanIds;
    hide DistinctIds;
    hide Unmatched;
    hide Spare;
    var r := SyncedLines(local, saved, |local|);
    MultiplicitiesAre(local, saved, "");
    IdsLength(r, |r|);
    IdsLength(saved, |saved|);
    assert |multiset(Ids(r, |r|))| == |local| && |multiset(Ids(saved, |saved|))| == |saved|;
    hide Ids;
    forall x ensures multiset(Ids(r, |r|))[x] + Left(local, |local|, saved, |saved|, x)
                     == multiset(Ids(saved, |saved|))[x] + Fallback(local, saved, |local|, x)
    {
      MultiplicitiesAre(local, saved, x);
      AssignedPlusLeft(local, |local|, saved, x);
    }
    if BecomePermutation(local, saved) {
      forall i | 0 <= i < |local| ensures Unmatched(local, saved, i) <==> Spare(local, saved, i) {
        OnlyPosition(local, saved, i, |local|);
      }
    }
    if |local| == |saved| && forall i :: 0 <= i < |local| ==> (Unmatched(local, saved, i) <==> Spare(local, saved, i)) {
      forall x { SamePositions(local, saved, |local|, x); }
    }
  }
}
