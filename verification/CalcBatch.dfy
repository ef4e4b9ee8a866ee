/** Paging of calculated line statuses (backend/internal/store/calc_batch.go). */
module CalcBatch {
  import opened Text

  datatype LineStatus = LineStatus(lineId: string, status: string, total: real)

  datatype Response = Response(generation: int, applied: int, total: nat, processed: nat, errors: nat,
                               grandTotal: real, done: bool, reset: bool, items: seq<LineStatus>)

  const DEFAULT_BATCH_SIZE := 50

  datatype Kind = Done | Failed | Open

  function KindOf(status: string): Kind {
    var s := Trim(status);
    if s == "done" then Done else if s == "failed" || s == "dead" then Failed else Open
  }

  predicate IsCalcTerminalStatus(status: string) {
    KindOf(status) != Open
  }

  function Terminal(lines: seq<LineStatus>): (t: seq<LineStatus>)
    ensures |t| <= |lines|
  {
    if lines == [] then []
    else
      var last := lines[|lines| - 1];
      Terminal(lines[..|lines| - 1]) + if IsCalcTerminalStatus(last.status) then [last] else []
  }

  function ErrorCount(lines: seq<LineStatus>): nat {
    if lines == [] then 0
    else ErrorCount(lines[..|lines| - 1]) + if KindOf(lines[|lines| - 1].status) == Failed then 1 else 0
  }

  function DoneTotal(lines: seq<LineStatus>): real {
    if lines == [] then 0.0
    else DoneTotal(lines[..|lines| - 1])
         + if KindOf(lines[|lines| - 1].status) == Done then lines[|lines| - 1].total else 0.0
  }

  function Clamp(applied: int, n: nat): (c: nat)
    ensures c <= n
  {
    if applied < 0 then 0 else if applied > n then n else applied
  }

  predicate Finished(lines: seq<LineStatus>) {
    lines != [] && |Terminal(lines)| == |lines|
  }

  predicate Ready(lines: seq<LineStatus>, applied: int, b: nat) {
    var left := |Terminal(lines)| - Clamp(applied, |Terminal(lines)|);
    left >= b || (Finished(lines) && (left > 0 || Clamp(applied, |Terminal(lines)|) > 0))
  }

  /** The slice a response carries: the next min(b, rest) terminal lines after the cursor. */
  function Slice(lines: seq<LineStatus>, applied: int, b: nat): seq<LineStatus> {
    var t := Terminal(lines);
    var from := Clamp(applied, |t|);
    if Ready(lines, applied, b) then t[from..if |t| - from < b then |t| else from + b] else []
  }

  /** The loop over the lines: terminal list, error count, total of the done lines. */
  method Tally(lines: seq<LineStatus>)
    returns (terminal: seq<LineStatus>, processed: nat, errors: nat, grandTotal: real)
    ensures terminal == Terminal(lines) && processed == |terminal|
    ensures errors == ErrorCount(lines) && grandTotal == DoneTotal(lines)
  {
    terminal, processed, errors, grandTotal := [], 0, 0, 0.0;
    var i := 0;
    while i < |lines|
      invariant 0 <= i <= |lines|
      invariant terminal == Terminal(lines[..i]) && processed == |terminal|
      invariant errors == ErrorCount(lines[..i]) && grandTotal == DoneTotal(lines[..i])
    {
      assert lines[..i + 1][..i] == lines[..i];
      var status := Trim(lines[i].status);
      TrimIsTrimmed(lines[i].status);
      if IsCalcTerminalStatus(status) {
        terminal := terminal + [lines[i]];
        processed := processed + 1;
        if status == "failed" || status == "dead" {
          errors := errors + 1;
        }
        if status == "done" {
          grandTotal := grandTotal + lines[i].total;
        }
      }
      i := i + 1;
    }
    assert lines[..|lines|] == lines;
  }

  method BuildEstimateCalcBatchResponse(generation: int, applied: int, batchSize: int,
                                        lines: seq<LineStatus>, reset: bool)
    returns (resp: Response, ready: bool)
    ensures resp.generation == generation && resp.reset == reset
    ensures resp.total == |lines| && resp.processed == |Terminal(lines)| && resp.errors == ErrorCount(lines)
    ensures resp.grandTotal == DoneTotal(lines) && resp.done == Finished(lines)
    ensures var size := if batchSize <= 0 then 50 else batchSize;
      ready == Ready(lines, applied, size) && resp.items == Slice(lines, applied, size)
    ensures resp.applied == if ready then Clamp(applied, |Terminal(lines)|) + |resp.items| else applied
  {
    var size := batchSize;
    if size <= 0 {
      size := DEFAULT_BATCH_SIZE;
    }
    var terminal, processed, errors, grandTotal := Tally(lines);
    var done := |lines| > 0 && processed >= |lines|;
    resp := Response(generation, applied, |lines|, processed, errors, grandTotal, done, reset, []);

    var from := applied;
    if from < 0 { from := 0; }
    if from > |terminal| { from := |terminal|; }
    var left := |terminal| - from;
    ready := left >= size || (done && left > 0) || (done && left == 0 && from > 0);
    if !ready {
      return resp, false;
    }
    var count := size;
    if left < count { count := left; }
    var end := from + count;
    if end > from {
      resp := resp.(items := terminal[from..end]);
    }
    resp := resp.(applied := from + |resp.items|);
  }

  // --- when a response is withheld ----------------------------------------------

  predicate HasFailed(status: string) {
    Trim(status) == "failed" || Trim(status) == "dead"
  }

  predicate HasEnded(status: string) {
    Trim(status) == "done" || HasFailed(status)
  }

  /** The positions of the lines whose calculation has ended, and of those that failed. */
  function EndedAt(lines: seq<LineStatus>): set<nat> {
    set i: nat | i < |lines| && HasEnded(lines[i].status)
  }

  function FailedAt(lines: seq<LineStatus>): set<nat> {
    set i: nat | i < |lines| && HasFailed(lines[i].status)
  }

  lemma KindIs(status: string)
    ensures IsCalcTerminalStatus(status) <==> HasEnded(status)
    ensures KindOf(status) == Failed <==> HasFailed(status)
  {
    hide Trim;
  }

  lemma {:induction false} TerminalCount(lines: seq<LineStatus>)
    ensures |Terminal(lines)| == |EndedAt(lines)|
  {
    hide HasEnded;
    hide IsCalcTerminalStatus;
    if lines == [] {
      assert EndedAt(lines) == {};
    } else {
      var n := |lines| - 1;
      TerminalCount(lines[..n]);
      KindIs(lines[n].status);
      assert EndedAt(lines) == EndedAt(lines[..n]) + if HasEnded(lines[n].status) then {n} else {};
    }
  }

  lemma {:induction false} FailedCount(lines: seq<LineStatus>)
    ensures ErrorCount(lines) == |FailedAt(lines)|
  {
    hide HasFailed;
    hide KindOf;
    if lines == [] {
      assert FailedAt(lines) == {};
    } else {
      var n := |lines| - 1;
      FailedCount(lines[..n]);
      KindIs(lines[n].status);
      assert FailedAt(lines) == FailedAt(lines[..n]) + if HasFailed(lines[n].status) then {n} else {};
    }
  }

  lemma {:induction false} AllEnded(lines: seq<LineStatus>)
    ensures |Terminal(lines)| == |lines| <==> forall i :: 0 <= i < |lines| ==> HasEnded(lines[i].status)
  {
    hide HasEnded;
    hide IsCalcTerminalStatus;
    if lines != [] {
      var n := |lines| - 1;
      AllEnded(lines[..n]);
      KindIs(lines[n].status);
      assert forall i :: 0 <= i < n ==> lines[..n][i] == lines[i];
    }
  }

  /** The terminal list counts exactly the ended lines, the error count the failed ones. */
  lemma TerminalIsEnded(lines: seq<LineStatus>)
    ensures |Terminal(lines)| == |EndedAt(lines)| && ErrorCount(lines) == |FailedAt(lines)|
    ensures |Terminal(lines)| == |lines| <==> forall i :: 0 <= i < |lines| ==> HasEnded(lines[i].status)
  {
    TerminalCount(lines);
    FailedCount(lines);
    AllEnded(lines);
  }

  /** A response is ready exactly if every line has ended, or a whole batch of ended lines is outstanding. */
  lemma ReadyIff(lines: seq<LineStatus>, applied: int, b: nat)
    requires b > 0
    ensures Ready(lines, applied, b) <==>
      || (lines != [] && forall i :: 0 <= i < |lines| ==> HasEnded(lines[i].status))
      || |EndedAt(lines)| - (if applied < 0 then 0 else applied) >= b
  {
    hide HasEnded;
    hide Terminal;
    hide EndedAt;
    TerminalIsEnded(lines);
  }

  /** A ready response carries the outstanding lines, but no more than a batch; any other carries none. */
  lemma SliceSize(lines: seq<LineStatus>, applied: int, b: nat)
    requires b > 0
    ensures var left := |EndedAt(lines)| - if applied < 0 then 0 else applied;
      |Slice(lines, applied, b)| == if !Ready(lines, applied, b) || left < 0 then 0 else if left < b then left else b
  {
    hide Terminal;
    hide EndedAt;
    hide Ready;
    TerminalIsEnded(lines);
  }

  // --- feeding Applied back -------------------------------------------------

  function NextApplied(lines: seq<LineStatus>, applied: nat, b: nat): nat {
    if Ready(lines, applied, b) then Clamp(applied, |Terminal(lines)|) + |Slice(lines, applied, b)| else applied
  }

  /** The cursor after one fetch per list, starting from 0. */
  function Cursor(lists: seq<seq<LineStatus>>, b: nat): nat {
    if lists == [] then 0
    else NextApplied(lists[|lists| - 1], Cursor(lists[..|lists| - 1], b), b)
  }

  /** Everything delivered by these fetches, in order. */
  function Delivered(lists: seq<seq<LineStatus>>, b: nat): seq<LineStatus> {
    if lists == [] then []
    else Delivered(lists[..|lists| - 1], b) + Slice(lists[|lists| - 1], Cursor(lists[..|lists| - 1], b), b)
  }

  /** From one fetch to the next the terminal list is the same or longer at its end. */
  ghost predicate GrowsByExtension(lists: seq<seq<LineStatus>>) {
    forall i :: 0 < i < |lists| ==> Terminal(lists[i - 1]) <= Terminal(lists[i])
  }

  lemma GrowthPrefix(lists: seq<seq<LineStatus>>)
    requires GrowsByExtension(lists) && |lists| > 1
    ensures GrowsByExtension(lists[..|lists| - 1])
    ensures Terminal(lists[|lists| - 2]) <= Terminal(lists[|lists| - 1])
  {
  }

  lemma SliceExtends(lines: seq<LineStatus>, applied: nat, b: nat)
    requires applied <= |Terminal(lines)|
    ensures var t := Terminal(lines);
      NextApplied(lines, applied, b) <= |t| && t[..applied] + Slice(lines, applied, b) == t[..NextApplied(lines, applied, b)]
  {
  }

  /** The slices are consecutive: together they are the terminal list up to the cursor. */
  lemma {:induction false} DeliveredIsPrefix(lists: seq<seq<LineStatus>>, b: nat)
    requires GrowsByExtension(lists) && lists != []
    ensures var t := Terminal(lists[|lists| - 1]);
      Cursor(lists, b) <= |t| && Delivered(lists, b) == t[..Cursor(lists, b)]
  {
    var before, last := lists[..|lists| - 1], lists[|lists| - 1];
    var t := Terminal(last);
    if before == [] {
      assert Delivered(before, b) == t[..0];
    } else {
      GrowthPrefix(lists);
      DeliveredIsPrefix(before, b);
      var t0 := Terminal(before[|before| - 1]);
      assert t0[..Cursor(before, b)] == t[..Cursor(before, b)];
    }
    SliceExtends(last, Cursor(before, b), b);
  }

  lemma {:induction false} FinishedCursor(lines: seq<LineStatus>, b: nat, k: nat)
    requires Finished(lines) && b > 0
    ensures Cursor(seq(k, i => lines), b) == if k * b < |lines| then k * b else |lines|
  {
    hide Terminal;
    if k > 0 {
      FinishedCursor(lines, b, k - 1);
      assert seq(k, i => lines)[..k - 1] == seq(k - 1, i => lines);
      assert k * b == (k - 1) * b + b;
      if (k - 1) * b <= |lines| { FinishedNext(lines, (k - 1) * b, b); }
      FinishedNext(lines, |lines|, b);
    }
  }

  lemma FinishedNext(lines: seq<LineStatus>, applied: nat, b: nat)
    requires Finished(lines) && b > 0 && applied <= |lines|
    ensures NextApplied(lines, applied, b) == if applied + b < |lines| then applied + b else |lines|
  {
    hide Terminal;
  }

  function CeilDiv(n: nat, b: nat): nat
    requires b > 0
  {
    (n + b - 1) / b
  }

  /** A finished list of n lines is drained by ceil(n/b) responses, and by no fewer. */
  lemma FinishedDrained(lines: seq<LineStatus>, b: nat, k: nat)
    requires Finished(lines) && b > 0 && k > 0
    ensures Delivered(seq(k, i => lines), b) == Terminal(lines) <==> k >= CeilDiv(|lines|, b)
    ensures Terminal(lines) == lines
  {
    hide CeilDiv;
    hide Terminal;
    hide Cursor;
    hide Delivered;
    hide Slice;
    var lists := seq(k, i => lines);
    assert lists[k - 1] == lines;
    FinishedCursor(lines, b, k);
    DeliveredIsPrefix(lists, b);
    CeilDivIff(|lines|, b, k);
    AllTerminal(lines);
  }

  lemma CeilDivIff(n: nat, b: nat, k: nat)
    requires b > 0
    ensures k >= CeilDiv(n, b) <==> k * b >= n
  {
    var c, r := CeilDiv(n, b), (n + b - 1) % b;
    assert c * b == n + b - 1 - r;
    if k >= c {
      MultiplesOrdered(c, k, b);
    } else {
      MultiplesOrdered(k + 1, c, b);
      assert (k + 1) * b == k * b + b;
    }
  }

  lemma MultiplesOrdered(j: nat, k: nat, b: nat)
    requires j <= k
    ensures j * b <= k * b
  {
  }

  lemma {:induction false} AllTerminal(lines: seq<LineStatus>)
    ensures |Terminal(lines)| == |lines| ==> Terminal(lines) == lines
  {
    if lines != [] {
      AllTerminal(lines[..|lines| - 1]);
    }
  }

  /** What the receiver can recompute from the delivered lines agrees with the response. */
  lemma {:induction false} TotalsAgree(lines: seq<LineStatus>)
    ensures ErrorCount(Terminal(lines)) == ErrorCount(lines)
    ensures DoneTotal(Terminal(lines)) == DoneTotal(lines)
    ensures Terminal(Terminal(lines)) == Terminal(lines)
  {
    if lines != [] {
      var before, last := lines[..|lines| - 1], lines[|lines| - 1];
      TotalsAgree(before);
      if IsCalcTerminalStatus(last.status) {
        assert Terminal(lines)[..|Terminal(lines)| - 1] == Terminal(before);
      } else {
        assert Terminal(lines) == Terminal(before);
      }
    }
  }

  /**
    The listener in web/app.js stops at the first response marked done. It has then received
    every line exactly when no more than one batch was outstanding; the rest is left to the
    reconciliation that follows.
   */
  lemma StopAtDoneIff(lists: seq<seq<LineStatus>>, b: nat)
    requires GrowsByExtension(lists) && lists != [] && b > 0
    requires Finished(lists[|lists| - 1])
    ensures Delivered(lists, b) == lists[|lists| - 1]
            <==> |lists[|lists| - 1]| - Cursor(lists[..|lists| - 1], b) <= b
  {
    var before, last := lists[..|lists| - 1], lists[|lists| - 1];
    DeliveredIsPrefix(lists, b);
    AllTerminal(last);
    if before != [] {
      GrowthPrefix(lists);
      DeliveredIsPrefix(before, b);
      assert Terminal(before[|before| - 1]) <= Terminal(last);
    }
  }
}
