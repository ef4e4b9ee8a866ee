/**
  One-pass stack algorithms over the levelled hierarchy file: the usage counters of
  prep_gsn_books.py and the parent links of scripts/import_gsn_to_postgres.py.
 */
module HierarchyStack {
  import opened NormRefs
  import opened Wrappers

  /** norms: the record's norm list, expanded */
  datatype Rec = Rec(code: string, level: int, norms: seq<string>)

  const LEAF_LEVEL := 8

  // --- definitions ----------------------------------------------------------

  /** Record j lies in the section opened by record i: nothing after i up to j closes it. */
  predicate Owns(records: seq<Rec>, i: nat, j: nat)
    requires i <= j < |records|
    decreases j
  {
    i == j || (records[j].level > records[i].level && Owns(records, i, j - 1))
  }

  lemma {:induction false} OwnsMeansHigherLevels(records: seq<Rec>, i: nat, j: nat)
    requires i <= j < |records|
    ensures Owns(records, i, j) <==> forall k :: i < k <= j ==> records[k].level > records[i].level
  {
    if i < j { OwnsMeansHigherLevels(records, i, j - 1); }
  }

  /** The first record after i with a level at most its own, or the end. */
  function SectionEnd(records: seq<Rec>, i: nat, from: nat): (e: nat)
    requires i < from <= |records|
    ensures from <= e <= |records|
    decreases |records| - from
  {
    if from == |records| || records[from].level <= records[i].level then from
    else SectionEnd(records, i, from + 1)
  }

  lemma {:induction false} SectionEndCloses(records: seq<Rec>, i: nat, from: nat)
    requires i < from <= |records|
    ensures var e := SectionEnd(records, i, from);
      && (forall k :: from <= k < e ==> records[k].level > records[i].level)
      && (e < |records| ==> records[e].level <= records[i].level)
    decreases |records| - from
  {
    if from < |records| && records[from].level > records[i].level {
      SectionEndCloses(records, i, from + 1);
    }
  }

  /** Sum of the weights of the records i..e-1. */
  function BlockSum(records: seq<Rec>, w: Rec -> nat, i: nat, e: nat): nat
    requires i <= e <= |records|
  {
    if i == e then 0 else BlockSum(records, w, i, e - 1) + w(records[e - 1])
  }

  /** The quadratic definition: a section counts itself and what follows up to its end. */
  function SectionSum(records: seq<Rec>, w: Rec -> nat, i: nat): nat
    requires i < |records|
  {
    BlockSum(records, w, i, SectionEnd(records, i, i + 1))
  }

  /** The same sum restricted to the records before n. */
  function OwnedSum(records: seq<Rec>, w: Rec -> nat, i: nat, n: nat): nat
    requires i <= n <= |records|
  {
    if n == i then 0
    else OwnedSum(records, w, i, n - 1) + if Owns(records, i, n - 1) then w(records[n - 1]) else 0
  }

  lemma {:induction false} OwnedSumIsBlock(records: seq<Rec>, w: Rec -> nat, i: nat, n: nat)
    requires i < n <= |records|
    ensures var e := SectionEnd(records, i, i + 1);
      OwnedSum(records, w, i, n) == BlockSum(records, w, i, if n < e then n else e)
  {
    var e := SectionEnd(records, i, i + 1);
    SectionEndCloses(records, i, i + 1);
    if n == i + 1 {
      assert BlockSum(records, w, i, i) == 0 && OwnedSum(records, w, i, i) == 0;
    } else {
      OwnedSumIsBlock(records, w, i, n - 1);
      OwnsMeansHigherLevels(records, i, n - 1);
    }
  }

  /** A section with this code; leaves do not count. */
  predicate Counts(r: Rec, code: string) {
    r.code == code && r.level < LEAF_LEVEL
  }

  /** Total of the sections with this code among the first m records. */
  function CodeSum(records: seq<Rec>, w: Rec -> nat, code: string, m: nat, n: nat): nat
    requires m <= n <= |records|
  {
    if m == 0 then 0
    else CodeSum(records, w, code, m - 1, n)
         + if Counts(records[m - 1], code) then OwnedSum(records, w, m - 1, n) else 0
  }

  predicate DistinctCodes(records: seq<Rec>) {
    forall i, j :: 0 <= i < j < |records| ==> records[i].code != records[j].code
  }

  predicate SharesCode(records: seq<Rec>, i: nat, k: nat)
    requires i < |records| && k < |records|
  {
    k != i && Counts(records[k], records[i].code)
  }

  /** Total of the other sections with the code of section i among the first m records. */
  function Others(records: seq<Rec>, w: Rec -> nat, i: nat, m: nat): nat
    requires i < |records| && m <= |records|
  {
    if m == 0 then 0
    else Others(records, w, i, m - 1) + if SharesCode(records, i, m - 1) then SectionSum(records, w, m - 1) else 0
  }

  lemma {:induction false} OthersZeroIff(records: seq<Rec>, w: Rec -> nat, i: nat, m: nat)
    requires i < |records| && m <= |records|
    ensures Others(records, w, i, m) == 0 <==>
      forall k :: 0 <= k < m && SharesCode(records, i, k) ==> SectionSum(records, w, k) == 0
  {
    if m > 0 { OthersZeroIff(records, w, i, m - 1); }
  }

  lemma {:induction false} CodeSumSplit(records: seq<Rec>, w: Rec -> nat, i: nat, m: nat)
    requires i < |records| && m <= |records| && records[i].level < LEAF_LEVEL
    ensures CodeSum(records, w, records[i].code, m, |records|)
            == Others(records, w, i, m) + if i < m then SectionSum(records, w, i) else 0
  {
    hide SectionSum;
    if m > 0 {
      CodeSumSplit(records, w, i, m - 1);
      OwnedIsSection(records, w, m - 1);
    }
  }

  lemma OwnedIsSection(records: seq<Rec>, w: Rec -> nat, i: nat)
    requires i < |records|
    ensures OwnedSum(records, w, i, |records|) == SectionSum(records, w, i)
  {
    OwnedSumIsBlock(records, w, i, |records|);
  }

  /** The counter of a section is the quadratic definition exactly when no other section with its code adds to it. */
  lemma CounterIsSectionIff(records: seq<Rec>, w: Rec -> nat, i: nat)
    requires i < |records| && records[i].level < LEAF_LEVEL
    ensures CodeSum(records, w, records[i].code, |records|, |records|) == SectionSum(records, w, i) <==>
      forall k :: 0 <= k < |records| && SharesCode(records, i, k) ==> SectionSum(records, w, k) == 0
  {
    CodeSumSplit(records, w, i, |records|);
    OthersZeroIff(records, w, i, |records|);
  }

  /** With distinct codes the counter of a section is the quadratic definition. */
  lemma CountersAreSections(records: seq<Rec>, w: Rec -> nat, i: nat)
    requires DistinctCodes(records) && i < |records| && records[i].level < LEAF_LEVEL
    ensures CodeSum(records, w, records[i].code, |records|, |records|) == SectionSum(records, w, i)
  {
    CounterIsSectionIff(records, w, i);
  }

  // --- the stack ------------------------------------------------------------

  /** The records before position m that own record n, in order. */
  function Owners(records: seq<Rec>, m: nat, n: nat): seq<Rec>
    requires m <= n + 1 && n < |records|
  {
    if m == 0 then []
    else Owners(records, m - 1, n) + if Owns(records, m - 1, n) then [records[m - 1]] else []
  }

  /** while stack and stack[-1].level >= level: stack.pop() */
  function Popped(stack: seq<Rec>, level: int): (r: seq<Rec>)
  {
    if stack != [] && stack[|stack| - 1].level >= level then Popped(stack[..|stack| - 1], level) else stack
  }

  /** Popping leaves exactly the owners of the next record. */
  lemma {:induction false} PoppedOwners(records: seq<Rec>, m: nat, n: nat)
    requires m <= n + 1 && n + 1 < |records|
    ensures Popped(Owners(records, m, n), records[n + 1].level) == Owners(records, m, n + 1)
  {
    if m > 0 {
      PoppedOwners(records, m - 1, n);
      var o := Owners(records, m, n);
      if Owns(records, m - 1, n) {
        assert o[..|o| - 1] == Owners(records, m - 1, n);
        if records[m - 1].level < records[n + 1].level {
          OwnersAgree(records, m - 1, m - 1, n);
        }
      } else {
        assert o == Owners(records, m - 1, n);
      }
    }
  }

  /** If record i owns n and n+1, every owner of n before it owns n+1 too. */
  lemma {:induction false} OwnersAgree(records: seq<Rec>, m: nat, i: nat, n: nat)
    requires m <= i <= n && n + 1 < |records| && Owns(records, i, n + 1)
    ensures Owners(records, m, n) == Owners(records, m, n + 1)
  {
    if m > 0 {
      OwnersAgree(records, m - 1, i, n);
      OwnsMeansHigherLevels(records, m - 1, n);
    }
  }

  method PopStack(stack: seq<Rec>, level: int) returns (r: seq<Rec>)
    ensures r == Popped(stack, level)
  {
    r := stack;
    while r != [] && r[|r| - 1].level >= level
      invariant Popped(stack, level) == Popped(r, level)
    {
      r := r[..|r| - 1];
    }
  }

  /** The stack at the head of the loop, before record n is looked at. */
  function StackBefore(records: seq<Rec>, n: nat): seq<Rec>
    requires n <= |records|
  {
    if n == 0 then [] else Owners(records, n, n - 1)
  }

  lemma StackStep(records: seq<Rec>, n: nat)
    requires n < |records|
    ensures Popped(StackBefore(records, n), records[n].level) == Owners(records, n, n)
    ensures Owners(records, n, n) + [records[n]] == StackBefore(records, n + 1)
  {
    if n > 0 {
      PoppedOwners(records, n, n - 1);
    }
  }

  // --- the importer's parents -----------------------------------------------

  /** The nearest record before position m of strictly smaller level. */
  function NearestSmaller(records: seq<Rec>, m: nat, level: int): Option<Rec>
    requires m <= |records|
  {
    if m == 0 then None
    else if records[m - 1].level < level then Some(records[m - 1])
    else NearestSmaller(records, m - 1, level)
  }

  lemma {:induction false} TopOwnerIsNearest(records: seq<Rec>, m: nat, n: nat)
    requires m <= n < |records|
    requires forall k :: m <= k < n ==> records[k].level >= records[n].level
    ensures var o := Owners(records, m, n);
      NearestSmaller(records, m, records[n].level) == if o == [] then None else Some(o[|o| - 1])
  {
    if m > 0 {
      OwnsMeansHigherLevels(records, m - 1, n);
      if records[m - 1].level >= records[n].level {
        TopOwnerIsNearest(records, m - 1, n);
      }
    }
  }

  function ParentCode(records: seq<Rec>, n: nat): Option<string>
    requires n < |records|
  {
    match NearestSmaller(records, n, records[n].level)
    case None => None
    case Some(r) => Some(r.code)
  }

  /** parse_hierarchy: each row's parent is the top of the stack after popping. */
  method ParentCodes(records: seq<Rec>) returns (parents: seq<Option<string>>)
    ensures |parents| == |records|
    ensures forall n :: 0 <= n < |records| ==> parents[n] == ParentCode(records, n)
  {
    parents := [];
    var stack: seq<Rec> := [];
    for n := 0 to |records|
      invariant |parents| == n && stack == StackBefore(records, n)
      invariant forall k :: 0 <= k < n ==> parents[k] == ParentCode(records, k)
    {
      StackStep(records, n);
      stack := PopStack(stack, records[n].level);
      TopOwnerIsNearest(records, n, n);
      parents := parents + [if stack == [] then None else Some(stack[|stack| - 1].code)];
      stack := stack + [records[n]];
    }
  }

  // --- the usage counters ---------------------------------------------------

  type Counter = map<string, nat>

  function Get(c: Counter, code: string): nat {
    if code in c then c[code] else 0
  }

  /** What a code's counter receives: the amount once per section on the stack with that code. */
  function Received(stack: seq<Rec>, code: string, amount: nat): nat {
    if stack == [] then 0
    else Received(stack[..|stack| - 1], code, amount)
         + if Counts(stack[|stack| - 1], code) then amount else 0
  }

  /** One more record adds its weight once for every owner with the code. */
  lemma {:induction false} CodeSumStep(records: seq<Rec>, w: Rec -> nat, code: string, m: nat, n: nat)
    requires m <= n < |records|
    ensures CodeSum(records, w, code, m, n + 1)
            == CodeSum(records, w, code, m, n) + Received(Owners(records, m, n), code, w(records[n]))
  {
    hide Counts;
    if m > 0 {
      CodeSumStep(records, w, code, m - 1, n);
      var o, before := Owners(records, m, n), Owners(records, m - 1, n);
      if Owns(records, m - 1, n) {
        assert o[..|o| - 1] == before;
      } else {
        assert o == before;
      }
    }
  }

  lemma CodeSumNext(records: seq<Rec>, w: Rec -> nat, code: string, n: nat)
    requires n < |records|
    ensures CodeSum(records, w, code, n + 1, n + 1)
            == CodeSum(records, w, code, n, n) + Received(Owners(records, n, n) + [records[n]], code, w(records[n]))
  {
    var o := Owners(records, n, n);
    CodeSumStep(records, w, code, n, n);
    assert OwnedSum(records, w, n, n) == 0;
    assert (o + [records[n]])[..|o|] == o;
  }

  /** targets: counter[target.code] += amount for every section among them. */
  method AddToTargets(targets: seq<Rec>, counter: Counter, amount: nat) returns (r: Counter)
    ensures forall code :: Get(r, code) == Get(counter, code) + Received(targets, code, amount)
  {
    r := counter;
    for p := 0 to |targets|
      invariant forall code :: Get(r, code) == Get(counter, code) + Received(targets[..p], code, amount)
    {
      assert targets[..p + 1][..p] == targets[..p];
      var target := targets[p];
      if target.level < LEAF_LEVEL {
        r := r[target.code := Get(r, target.code) + amount];
      }
    }
    assert targets[..|targets|] == targets;
  }

  function NormCount(r: Rec): nat {
    |r.norms|
  }

  function Matches(codes: seq<string>, found: set<string>): nat {
    if codes == [] then 0
    else Matches(codes[..|codes| - 1], found) + if codes[|codes| - 1] in found then 1 else 0
  }

  function MatchCount(found: set<string>): Rec -> nat {
    (r: Rec) => Matches(r.norms, found)
  }

  /** The positions at which a found norm stands. */
  function FoundAt(codes: seq<string>, found: set<string>): set<nat> {
    set i: nat | i < |codes| && codes[i] in found
  }

  lemma {:induction false} MatchesArePositions(codes: seq<string>, found: set<string>)
    ensures Matches(codes, found) == |FoundAt(codes, found)|
  {
    if codes == [] {
      assert FoundAt(codes, found) == {};
    } else {
      var n := |codes| - 1;
      MatchesArePositions(codes[..n], found);
      assert FoundAt(codes, found) == FoundAt(codes[..n], found) + if codes[n] in found then {n} else {};
    }
  }

  method CountMatches(codes: seq<string>, found: set<string>) returns (n: nat)
    ensures n == Matches(codes, found)
  {
    n := 0;
    for i := 0 to |codes|
      invariant n == Matches(codes[..i], found)
    {
      assert codes[..i + 1][..i] == codes[..i];
      if codes[i] in found { n := n + 1; }
    }
    assert codes[..|codes|] == codes;
  }

  ghost predicate Counted(records: seq<Rec>, w: Rec -> nat, counter: Counter, n: nat)
    requires n <= |records|
  {
    forall code :: Get(counter, code) == CodeSum(records, w, code, n, n)
  }

  /** The first pass of mark_used_hierarchy. */
  method CountNorms(records: seq<Rec>, found: set<string>) returns (descendants: Counter, matched: Counter)
    ensures Counted(records, NormCount, descendants, |records|)
    ensures Counted(records, MatchCount(found), matched, |records|)
  {
    descendants, matched := map[], map[];
    var stack: seq<Rec> := [];
    for n := 0 to |records|
      invariant stack == StackBefore(records, n)
      invariant Counted(records, NormCount, descendants, n)
      invariant Counted(records, MatchCount(found), matched, n)
    {
      StackStep(records, n);
      stack := PopStack(stack, records[n].level);
      var codes := records[n].norms;
      var targets := stack + [records[n]];
      var m := CountMatches(codes, found);
      if codes != [] {
        var d := AddToTargets(targets, descendants, |codes|);
        CountedStep(records, NormCount, descendants, d, n);
        var k := AddToTargets(targets, matched, m);
        CountedStep(records, MatchCount(found), matched, k, n);
        descendants, matched := d, k;
      } else {
        SilentStep(records, NormCount, descendants, n);
        SilentStep(records, MatchCount(found), matched, n);
      }
      stack := targets;
    }
  }

  lemma CountedStep(records: seq<Rec>, w: Rec -> nat, before: Counter, after: Counter, n: nat)
    requires n < |records| && Counted(records, w, before, n)
    requires forall code :: Get(after, code)
                            == Get(before, code) + Received(Owners(records, n, n) + [records[n]], code, w(records[n]))
    ensures Counted(records, w, after, n + 1)
  {
    forall code ensures Get(after, code) == CodeSum(records, w, code, n + 1, n + 1) {
      CodeSumNext(records, w, code, n);
    }
  }

  lemma {:induction false} NothingReceived(stack: seq<Rec>, code: string)
    ensures Received(stack, code, 0) == 0
  {
    if stack != [] { NothingReceived(stack[..|stack| - 1], code); }
  }

  lemma SilentStep(records: seq<Rec>, w: Rec -> nat, counter: Counter, n: nat)
    requires n < |records| && Counted(records, w, counter, n) && w(records[n]) == 0
    ensures Counted(records, w, counter, n + 1)
  {
    forall code ensures Get(counter, code) == CodeSum(records, w, code, n + 1, n + 1) {
      CodeSumNext(records, w, code, n);
      NothingReceived(Owners(records, n, n) + [records[n]], code);
    }
  }

  datatype Row = Row(code: string, level: int, descendantNorms: nat, matchedNorms: nat)

  function RowOf(r: Rec, descendants: nat, matched: nat): seq<Row> {
    if r.level < LEAF_LEVEL && descendants > 0 && matched == 0 then [Row(r.code, r.level, descendants, matched)] else []
  }

  /** The reported rows by the counters of the codes. */
  function ReportRows(records: seq<Rec>, found: set<string>, n: nat): seq<Row>
    requires n <= |records|
  {
    if n == 0 then []
    else
      var code := records[n - 1].code;
      ReportRows(records, found, n - 1)
      + RowOf(records[n - 1], CodeSum(records, NormCount, code, |records|, |records|),
              CodeSum(records, MatchCount(found), code, |records|, |records|))
  }

  /** The rows by the quadratic definition of each section. */
  function DefinedRows(records: seq<Rec>, found: set<string>, n: nat): seq<Row>
    requires n <= |records|
  {
    if n == 0 then []
    else DefinedRows(records, found, n - 1)
         + RowOf(records[n - 1], SectionSum(records, NormCount, n - 1), SectionSum(records, MatchCount(found), n - 1))
  }

  method MarkUsedHierarchy(records: seq<Rec>, found: set<string>) returns (rows: seq<Row>)
    ensures rows == ReportRows(records, found, |records|)
  {
    var descendants, matched := CountNorms(records, found);
    rows := [];
    for n := 0 to |records|
      invariant rows == ReportRows(records, found, n)
    {
      var r := records[n];
      if r.level < LEAF_LEVEL {
        var d, m := Get(descendants, r.code), Get(matched, r.code);
        if d != 0 && m == 0 {
          rows := rows + [Row(r.code, r.level, d, m)];
        }
      }
    }
  }

  /** Section i references norms, none of them was found, and row reports it. */
  predicate IsUnmatchedRow(records: seq<Rec>, found: set<string>, i: nat, row: Row)
    requires i < |records|
  {
    && records[i].level < LEAF_LEVEL
    && SectionSum(records, NormCount, i) > 0 && SectionSum(records, MatchCount(found), i) == 0
    && row == Row(records[i].code, records[i].level, SectionSum(records, NormCount, i), 0)
  }

  lemma ReportRowsStep(records: seq<Rec>, found: set<string>, n: nat, row: Row)
    requires DistinctCodes(records) && 0 < n <= |records|
    ensures row in ReportRows(records, found, n)
            <==> row in ReportRows(records, found, n - 1) || IsUnmatchedRow(records, found, n - 1, row)
  {
    if records[n - 1].level < LEAF_LEVEL {
      CountersAreSections(records, NormCount, n - 1);
      CountersAreSections(records, MatchCount(found), n - 1);
    }
  }

  lemma NothingReported(records: seq<Rec>, found: set<string>)
    ensures ReportRows(records, found, 0) == []
  {
  }

  /** With distinct codes every row reports a section with norms of which none was found. */
  lemma {:induction false} RowIsUnmatchedSection(records: seq<Rec>, found: set<string>, n: nat, row: Row) returns (i: nat)
    requires DistinctCodes(records) && n <= |records| && row in ReportRows(records, found, n)
    ensures i < n && IsUnmatchedRow(records, found, i, row)
  {
    hide ReportRows;
    hide IsUnmatchedRow;
    hide DistinctCodes;
    if n == 0 { NothingReported(records, found); }
    ReportRowsStep(records, found, n, row);
    if row in ReportRows(records, found, n - 1) {
      i := RowIsUnmatchedSection(records, found, n - 1, row);
    } else {
      i := n - 1;
    }
  }

  /** And every such section is reported, with the counts of the quadratic definition. */
  lemma {:induction false} UnmatchedSectionIsReported(records: seq<Rec>, found: set<string>, n: nat, i: nat, row: Row)
    requires DistinctCodes(records) && i < n <= |records| && IsUnmatchedRow(records, found, i, row)
    ensures row in ReportRows(records, found, n)
  {
    hide ReportRows;
    hide IsUnmatchedRow;
    hide DistinctCodes;
    ReportRowsStep(records, found, n, row);
    if i < n - 1 {
      UnmatchedSectionIsReported(records, found, n - 1, i, row);
    }
  }

  // --- the report by positions --------------------------------------------------

  /** Record j stands in the section of record i: everything behind i up to it is deeper. */
  predicate InSection(records: seq<Rec>, i: nat, j: nat) {
    i <= j < |records| && forall k :: i < k <= j ==> records[k].level > records[i].level
  }

  /** Where the section's norms stand: record and position in its list. */
  function NormsOf(records: seq<Rec>, i: nat): set<(nat, nat)> {
    set j: nat, p: nat | j < |records| && InSection(records, i, j) && p < |records[j].norms| :: (j, p)
  }

  function NormsUpTo(records: seq<Rec>, i: nat, e: nat): set<(nat, nat)>
    requires e <= |records|
  {
    set j: nat, p: nat | i <= j < e && p < |records[j].norms| :: (j, p)
  }

  function NormsAt(j: nat, n: nat): set<(nat, nat)> {
    set p: nat | p < n :: (j, p)
  }

  lemma {:induction false} NormsAtSize(j: nat, n: nat)
    ensures |NormsAt(j, n)| == n
  {
    if n > 0 {
      NormsAtSize(j, n - 1);
      assert NormsAt(j, n) == NormsAt(j, n - 1) + {(j, n - 1)};
    } else {
      assert NormsAt(j, 0) == {};
    }
  }

  lemma {:induction false} BlockNorms(records: seq<Rec>, i: nat, e: nat)
    requires i <= e <= |records|
    ensures BlockSum(records, NormCount, i, e) == |NormsUpTo(records, i, e)|
  {
    if i == e {
      assert NormsUpTo(records, i, e) == {};
    } else {
      BlockNorms(records, i, e - 1);
      NormsAtSize(e - 1, |records[e - 1].norms|);
      assert NormsUpTo(records, i, e) == NormsUpTo(records, i, e - 1) + NormsAt(e - 1, |records[e - 1].norms|);
      assert NormsUpTo(records, i, e - 1) !! NormsAt(e - 1, |records[e - 1].norms|);
    }
  }

  lemma SectionIsRange(records: seq<Rec>, i: nat, j: nat)
    requires i < |records|
    ensures InSection(records, i, j) <==> i <= j < SectionEnd(records, i, i + 1)
  {
    SectionEndCloses(records, i, i + 1);
  }

  lemma SectionNorms(records: seq<Rec>, i: nat)
    requires i < |records|
    ensures SectionSum(records, NormCount, i) == |NormsOf(records, i)|
  {
    hide InSection;
    var e := SectionEnd(records, i, i + 1);
    BlockNorms(records, i, e);
    forall j: nat ensures InSection(records, i, j) <==> i <= j < e { SectionIsRange(records, i, j); }
    assert NormsOf(records, i) == NormsUpTo(records, i, e);
  }

  lemma {:induction false} BlockMatches(records: seq<Rec>, found: set<string>, i: nat, e: nat)
    requires i <= e <= |records|
    ensures BlockSum(records, MatchCount(found), i, e) == 0 <==>
      forall j, p :: i <= j < e && 0 <= p < |records[j].norms| ==> records[j].norms[p] !in found
  {
    if i < e {
      BlockMatches(records, found, i, e - 1);
      var norms := records[e - 1].norms;
      MatchesArePositions(norms, found);
      if forall p :: 0 <= p < |norms| ==> norms[p] !in found {
        assert FoundAt(norms, found) == {};
      } else {
        var p: nat :| p < |norms| && norms[p] in found;
        assert p in FoundAt(norms, found);
      }
    }
  }

  /** No norm of the section was found. */
  predicate NothingFound(records: seq<Rec>, found: set<string>, i: nat) {
    forall j: nat, p: nat :: j < |records| && InSection(records, i, j) && p < |records[j].norms| ==>
      records[j].norms[p] !in found
  }

  lemma SectionMatches(records: seq<Rec>, found: set<string>, i: nat)
    requires i < |records|
    ensures SectionSum(records, MatchCount(found), i) == 0 <==> NothingFound(records, found, i)
  {
    hide InSection;
    var e := SectionEnd(records, i, i + 1);
    BlockMatches(records, found, i, e);
    forall j: nat ensures InSection(records, i, j) <==> i <= j < e { SectionIsRange(records, i, j); }
  }

  /**
    With distinct codes a section is reported exactly if its level is below 8, some record in it
    has a norm, and none of its norms was found; and then with the number of its norms.
   */
  lemma SectionReportedIff(records: seq<Rec>, found: set<string>, i: nat)
    requires DistinctCodes(records) && i < |records|
    ensures forall row :: row in ReportRows(records, found, |records|) && row.code == records[i].code <==>
      && records[i].level < 8 && NormsOf(records, i) != {} && NothingFound(records, found, i)
      && row == Row(records[i].code, records[i].level, |NormsOf(records, i)|, 0)
  {
    hide NothingFound;
    hide NormsOf;
    hide SectionSum;
    hide ReportRows;
    SectionNorms(records, i);
    SectionMatches(records, found, i);
    forall row: Row
      ensures row in ReportRows(records, found, |records|) && row.code == records[i].code <==> IsUnmatchedRow(records, found, i, row)
    {
      if row in ReportRows(records, found, |records|) {
        var k := RowIsUnmatchedSection(records, found, |records|, row);
      }
      if IsUnmatchedRow(records, found, i, row) { UnmatchedSectionIsReported(records, found, |records|, i, row); }
    }
  }

  // --- sections that share a code ----------------------------------------------

  /**
    Section i comes out as defined: it does not share its code; or nothing with its code has
    norms; or something with its code was found, and the section itself has no norms or a match.
   */
  ghost predicate Settled(records: seq<Rec>, found: set<string>, i: nat)
    requires i < |records|
  {
    || (forall k :: 0 <= k < |records| ==> !SharesCode(records, i, k))
    || CodeSum(records, NormCount, records[i].code, |records|, |records|) == 0
    || (CodeSum(records, MatchCount(found), records[i].code, |records|, |records|) > 0
        && (SectionSum(records, NormCount, i) == 0 || SectionSum(records, MatchCount(found), i) > 0))
  }

  lemma SettledRow(records: seq<Rec>, found: set<string>, i: nat)
    requires i < |records| && records[i].level < LEAF_LEVEL && Settled(records, found, i)
    ensures var code, n := records[i].code, |records|;
      RowOf(records[i], CodeSum(records, NormCount, code, n, n), CodeSum(records, MatchCount(found), code, n, n))
      == RowOf(records[i], SectionSum(records, NormCount, i), SectionSum(records, MatchCount(found), i))
  {
    hide SectionSum;
    hide CodeSum;
    CodeSumSplit(records, NormCount, i, |records|);
    CodeSumSplit(records, MatchCount(found), i, |records|);
    if forall k :: 0 <= k < |records| ==> !SharesCode(records, i, k) {
      CounterIsSectionIff(records, NormCount, i);
      CounterIsSectionIff(records, MatchCount(found), i);
    }
  }

  lemma {:induction false} SettledRows(records: seq<Rec>, found: set<string>, n: nat)
    requires n <= |records|
    requires forall i :: 0 <= i < |records| && records[i].level < LEAF_LEVEL ==> Settled(records, found, i)
    ensures ReportRows(records, found, n) == DefinedRows(records, found, n)
  {
    hide Settled;
    if n > 0 {
      SettledRows(records, found, n - 1);
      if records[n - 1].level < LEAF_LEVEL { SettledRow(records, found, n - 1); }
    }
  }

  /** The norms that the rows with this code report. */
  function RowNorms(rows: seq<Row>, code: string): nat {
    if rows == [] then 0
    else RowNorms(rows[..|rows| - 1], code)
         + if rows[|rows| - 1].code == code then rows[|rows| - 1].descendantNorms else 0
  }

  lemma NoRows(code: string)
    ensures RowNorms([], code) == 0
  {
  }

  lemma RowNormsAdd(rows: seq<Row>, r: Rec, d: nat, m: nat, code: string)
    ensures RowNorms(rows + RowOf(r, d, m), code)
            == RowNorms(rows, code) + if Counts(r, code) && m == 0 then d else 0
  {
    var row := RowOf(r, d, m);
    if row == [] {
      assert rows + row == rows;
    } else {
      assert (rows + row)[..|rows|] == rows;
    }
  }

  lemma NoneMatched(records: seq<Rec>, w: Rec -> nat, code: string, i: nat)
    requires i < |records| && Counts(records[i], code) && CodeSum(records, w, code, |records|, |records|) == 0
    ensures SectionSum(records, w, i) == 0
  {
    hide SectionSum;
    hide Others;
    CodeSumSplit(records, w, i, |records|);
  }

  /** By the definition the rows of a code of which nothing was found share its norms. */
  lemma {:induction false} DefinedNorms(records: seq<Rec>, found: set<string>, code: string, n: nat)
    requires n <= |records| && CodeSum(records, MatchCount(found), code, |records|, |records|) == 0
    ensures RowNorms(DefinedRows(records, found, n), code) == CodeSum(records, NormCount, code, n, |records|)
  {
    hide Counts;
    hide SectionSum;
    hide OwnedSum;
    hide RowNorms;
    hide RowOf;
    if n == 0 {
      NoRows(code);
    } else {
      var r, rows := records[n - 1], DefinedRows(records, found, n - 1);
      var d, m := SectionSum(records, NormCount, n - 1), SectionSum(records, MatchCount(found), n - 1);
      DefinedNorms(records, found, code, n - 1);
      OwnedIsSection(records, NormCount, n - 1);
      if Counts(r, code) { NoneMatched(records, MatchCount(found), code, n - 1); }
      RowNormsAdd(rows, r, d, m, code);
    }
  }

  /** By the counters each of them reports all these norms; so two report twice as many. */
  lemma {:induction false} ReportedNorms(records: seq<Rec>, found: set<string>, code: string, i: nat, k: nat, n: nat)
    requires i < |records| && k < |records| && i != k && n <= |records|
    requires Counts(records[i], code) && Counts(records[k], code)
    requires CodeSum(records, MatchCount(found), code, |records|, |records|) == 0
    ensures var d := CodeSum(records, NormCount, code, |records|, |records|);
      RowNorms(ReportRows(records, found, n), code) >= (if i < n then d else 0) + if k < n then d else 0
  {
    hide CodeSum;
    hide Counts;
    hide RowNorms;
    hide RowOf;
    if n > 0 {
      var r, rows := records[n - 1], ReportRows(records, found, n - 1);
      ReportedNorms(records, found, code, i, k, n - 1);
      RowNormsAdd(rows, r, CodeSum(records, NormCount, r.code, |records|, |records|),
                  CodeSum(records, MatchCount(found), r.code, |records|, |records|), code);
      if Counts(r, code) { CodeOf(r, code); }
    }
  }

  lemma CodeOf(r: Rec, code: string)
    requires Counts(r, code)
    ensures r.code == code
  {
  }

  /** Nothing is reported for a code of which something was found. */
  lemma {:induction false} NoReportedRow(records: seq<Rec>, found: set<string>, i: nat, n: nat)
    requires i < |records| && n <= |records|
    requires CodeSum(records, MatchCount(found), records[i].code, |records|, |records|) > 0
    ensures forall row :: row in ReportRows(records, found, n) ==> row.code != records[i].code
  {
    hide CodeSum;
    if n > 0 { NoReportedRow(records, found, i, n - 1); }
  }

  lemma {:induction false} DefinedRowIsListed(records: seq<Rec>, found: set<string>, i: nat, n: nat)
    requires i < n <= |records| && records[i].level < LEAF_LEVEL
    requires SectionSum(records, NormCount, i) > 0 && SectionSum(records, MatchCount(found), i) == 0
    ensures Row(records[i].code, records[i].level, SectionSum(records, NormCount, i), 0) in DefinedRows(records, found, n)
  {
    hide SectionSum;
    if i < n - 1 { DefinedRowIsListed(records, found, i, n - 1); }
  }

  lemma UnsettledRows(records: seq<Rec>, found: set<string>, i: nat)
    requires i < |records| && records[i].level < LEAF_LEVEL && !Settled(records, found, i)
    ensures ReportRows(records, found, |records|) != DefinedRows(records, found, |records|)
  {
    hide SectionSum;
    hide CodeSum;
    var k :| 0 <= k < |records| && SharesCode(records, i, k);
    if CodeSum(records, MatchCount(found), records[i].code, |records|, |records|) > 0 {
      NoReportedRow(records, found, i, |records|);
      DefinedRowIsListed(records, found, i, |records|);
    } else {
      DefinedNorms(records, found, records[i].code, |records|);
      ReportedNorms(records, found, records[i].code, i, k, |records|);
    }
  }

  /** The reported rows are the defined ones, also for shared codes, exactly when every section is settled. */
  lemma RowsAreDefinedIff(records: seq<Rec>, found: set<string>)
    ensures ReportRows(records, found, |records|) == DefinedRows(records, found, |records|) <==>
      forall i :: 0 <= i < |records| && records[i].level < LEAF_LEVEL ==> Settled(records, found, i)
  {
    hide Settled;
    if i :| 0 <= i < |records| && records[i].level < LEAF_LEVEL && !Settled(records, found, i) {
      UnsettledRows(records, found, i);
    } else {
      SettledRows(records, found, |records|);
    }
  }
}
