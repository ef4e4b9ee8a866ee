/**
  Strings as the Go and JavaScript code handles them: trimming, searching, splitting,
  joining, and global left-to-right replacement. White space is a small ASCII set plus
  the no-break space.
 */
module Text {
  predicate IsSpace(c: char) {
    c == ' ' || c == '\t' || c == '\n' || c == '\r' || c == '\U{000B}' || c == '\U{000C}' || c == '\U{00A0}'
  }

  function TrimLeft(s: string): string {
    if s != [] && IsSpace(s[0]) then TrimLeft(s[1..]) else s
  }

  function TrimRight(s: string): string {
    if s != [] && IsSpace(s[|s| - 1]) then TrimRight(s[..|s| - 1]) else s
  }

  /** strings.TrimSpace, String.prototype.trim */
  function Trim(s: string): string {
    TrimRight(TrimLeft(s))
  }

  lemma {:induction false} TrimLeftTrims(s: string)
    ensures TrimLeft(s) == [] || !IsSpace(TrimLeft(s)[0])
  {
    if s != [] && IsSpace(s[0]) { TrimLeftTrims(s[1..]); }
  }

  lemma {:induction false} TrimRightTrims(s: string)
    ensures var r := TrimRight(s); r <= s && (r == [] || !IsSpace(r[|r| - 1]))
  {
    if s != [] && IsSpace(s[|s| - 1]) { TrimRightTrims(s[..|s| - 1]); }
  }

  lemma TrimIsTrimmed(s: string)
    ensures Trimmed(Trim(s))
    ensures Trimmed(s) ==> Trim(s) == s
    ensures Trim(Trim(s)) == Trim(s)
  {
    TrimLeftTrims(s);
    TrimRightTrims(TrimLeft(s));
  }

  predicate Trimmed(s: string) {
    s == [] || (!IsSpace(s[0]) && !IsSpace(s[|s| - 1]))
  }

  /** strings.TrimSpace(s) == "" */
  predicate Blank(s: string) {
    forall i :: 0 <= i < |s| ==> IsSpace(s[i])
  }

  lemma BlankIffTrimsToEmpty(s: string)
    ensures Blank(s) <==> Trim(s) == []
  {
    if Blank(s) {
      BlankTrims(s);
    } else {
      TrimLeftKeepsText(s);
    }
  }

  lemma {:induction false} BlankTrims(s: string)
    requires Blank(s)
    ensures TrimLeft(s) == []
  {
    if s != [] { BlankTrims(s[1..]); }
  }

  lemma {:induction false} TrimLeftKeepsText(s: string)
    requires !Blank(s)
    ensures TrimLeft(s) != [] && TrimRight(TrimLeft(s)) != []
  {
    if IsSpace(s[0]) {
      assert forall i :: 1 <= i < |s| ==> s[i] == s[1..][i - 1];
      TrimLeftKeepsText(s[1..]);
    } else {
      TrimRightKeepsHead(s);
    }
  }

  lemma {:induction false} TrimRightKeepsHead(s: string)
    requires s != [] && !IsSpace(s[0])
    ensures TrimRight(s) != []
  {
    if |s| > 1 && IsSpace(s[|s| - 1]) {
      TrimRightKeepsHead(s[..|s| - 1]);
    }
  }

  lemma {:induction false} TrimRightJoin(front: string, s: string)
    requires front != "" && !IsSpace(front[|front| - 1])
    ensures TrimRight(front + s) == front + TrimRight(s)
  {
    if s == "" {
      assert front + s == front;
    } else {
      assert (front + s)[|front + s| - 1] == s[|s| - 1];
      assert (front + s)[..|front + s| - 1] == front + s[..|s| - 1];
      if IsSpace(s[|s| - 1]) { TrimRightJoin(front, s[..|s| - 1]); }
    }
  }

  lemma {:induction false} TrimLeftJoin(s: string, back: string)
    requires back != "" && !IsSpace(back[0])
    ensures TrimLeft(s + back) == TrimLeft(s) + back
  {
    if s == "" {
      assert s + back == back;
    } else {
      assert (s + back)[1..] == s[1..] + back;
      if IsSpace(s[0]) { TrimLeftJoin(s[1..], back); }
    }
  }

  lemma TrimSpace(s: string, sp: char)
    requires IsSpace(sp)
    ensures Trim(s + [sp]) == Trim(s)
  {
    if Blank(s) {
      BlankIffTrimsToEmpty(s);
      BlankIffTrimsToEmpty(s + [sp]);
    } else {
      TrimLeftSpace(s, sp);
      var t := TrimLeft(s);
      assert (t + [sp])[..|t|] == t;
    }
  }

  lemma {:induction false} TrimLeftSpace(s: string, sp: char)
    requires !Blank(s)
    ensures TrimLeft(s + [sp]) == TrimLeft(s) + [sp]
  {
    assert (s + [sp])[1..] == s[1..] + [sp];
    if IsSpace(s[0]) { TrimLeftSpace(s[1..], sp); }
  }

  lemma {:induction false} TrimTrimmedRight(s: string)
    ensures Trim(TrimRight(s)) == Trim(s)
  {
    hide Trim;
    if s != "" && IsSpace(s[|s| - 1]) {
      TrimTrimmedRight(s[..|s| - 1]);
      TrimSpace(s[..|s| - 1], s[|s| - 1]);
      assert s[..|s| - 1] + [s[|s| - 1]] == s;
    }
  }

  lemma TrimTrimmedLeft(s: string)
    ensures Trim(TrimLeft(s)) == Trim(s)
  {
    TrimLeftTrims(s);
  }

  lemma {:induction false} TrimLeftChars(s: string, c: char)
    requires c in TrimLeft(s)
    ensures c in s
  {
    if s != "" && IsSpace(s[0]) { TrimLeftChars(s[1..], c); }
  }

  lemma TrimChars(s: string, c: char)
    requires c in Trim(s)
    ensures c in s
  {
    TrimRightTrims(TrimLeft(s));
    TrimLeftChars(s, c);
  }

  /** Trimming around something that is not white space at its ends. */
  lemma TrimAround(a: string, mid: string, b: string)
    requires mid != "" && !IsSpace(mid[0]) && !IsSpace(mid[|mid| - 1])
    ensures Trim(a + mid + b) == TrimLeft(a) + mid + TrimRight(b)
  {
    assert a + mid + b == a + (mid + b);
    TrimLeftJoin(a, mid + b);
    assert TrimLeft(a) + (mid + b) == TrimLeft(a) + mid + b;
    TrimRightJoin(TrimLeft(a) + mid, b);
  }

  predicate StartsWith(s: string, prefix: string) {
    prefix <= s
  }

  /** Index of the first occurrence of c, or |s| when there is none. */
  function IndexOfChar(s: string, c: char): (i: nat)
    ensures i <= |s|
    ensures i < |s| ==> s[i] == c
    ensures forall j :: 0 <= j < i ==> s[j] != c
  {
    if s == [] || s[0] == c then 0 else 1 + IndexOfChar(s[1..], c)
  }

  /** String.split by one character: always at least one field. */
  function Split(s: string, c: char): (fields: seq<string>)
    ensures |fields| >= 1
    decreases |s|
  {
    var i := IndexOfChar(s, c);
    if i == |s| then [s] else [s[..i]] + Split(s[i + 1..], c)
  }

  function Join(fields: seq<string>, c: char): string
    requires |fields| >= 1
  {
    if |fields| == 1 then fields[0] else fields[0] + [c] + Join(fields[1..], c)
  }

  lemma IndexOfCharFirst(a: string, c: char, b: string)
    requires c !in a
    ensures IndexOfChar(a + [c] + b, c) == |a|
  {
    var s := a + [c] + b;
    var i := IndexOfChar(s, c);
    assert s[|a|] == c;
    assert forall j :: 0 <= j < |a| ==> s[j] == a[j] && a[j] in a;
  }

  /** Two texts cut at their first separator. */
  lemma CutSame(a: string, b: string, c: char, x: string, y: string)
    requires c !in a && c !in b
    ensures a + [c] + x == b + [c] + y <==> a == b && x == y
  {
    var s, t := a + [c] + x, b + [c] + y;
    IndexOfCharFirst(a, c, x);
    IndexOfCharFirst(b, c, y);
    assert s[..|a|] == a && t[..|b|] == b && s[|a| + 1..] == x && t[|b| + 1..] == y;
  }

  /** Fields free of the separator come back from the joined text. */
  lemma {:induction false} SplitJoin(fields: seq<string>, c: char)
    requires |fields| >= 1
    requires forall f :: f in fields ==> c !in f
    ensures Split(Join(fields, c), c) == fields
  {
    var head := fields[0];
    assert head in fields;
    if |fields| == 1 {
      assert forall j :: 0 <= j < |head| ==> head[j] in head;
    } else {
      SplitJoin(fields[1..], c);
      var tail := Join(fields[1..], c);
      IndexOfCharFirst(head, c, tail);
      var s := head + [c] + tail;
      assert s[..|head|] == head && s[|head| + 1..] == tail;
    }
  }

  lemma {:induction false} JoinSplit(s: string, c: char)
    ensures Join(Split(s, c), c) == s
    ensures forall f :: f in Split(s, c) ==> c !in f
    decreases |s|
  {
    var i := IndexOfChar(s, c);
    if i < |s| {
      JoinSplit(s[i + 1..], c);
      assert ([s[..i]] + Split(s[i + 1..], c))[1..] == Split(s[i + 1..], c);
      assert s == s[..i] + [c] + s[i + 1..];
    }
  }

  lemma {:induction false} JoinLast(fields: seq<string>, c: char, last: string) returns (front: string)
    requires |fields| >= 1
    ensures Join(fields, c) == front + fields[|fields| - 1]
    ensures Join(fields[|fields| - 1 := last], c) == front + last
    ensures front == "" || front[|front| - 1] == c
  {
    if |fields| == 1 {
      front := "";
    } else {
      hide Join;
      var n := |fields| - 1;
      var rest := JoinLast(fields[1..], c, last);
      front := fields[0] + [c] + rest;
      var changed := fields[n := last];
      assert changed[1..] == fields[1..][n - 1 := last];
      JoinStep(fields, c);
      JoinStep(changed, c);
      assert fields[0] + [c] + (rest + fields[n]) == front + fields[n];
      assert fields[0] + [c] + (rest + last) == front + last;
    }
  }

  lemma JoinStep(fields: seq<string>, c: char)
    requires |fields| > 1
    ensures Join(fields, c) == fields[0] + [c] + Join(fields[1..], c)
  {
  }

  /** String.lastIndexOf, or the length when there is none */
  function LastIndexOf(s: string, c: char): (i: nat)
    ensures i <= |s|
    ensures i < |s| ==> s[i] == c
    ensures forall j :: i < j < |s| ==> s[j] != c
    ensures i == |s| ==> c !in s
  {
    if s == "" then 0
    else if s[|s| - 1] == c then |s| - 1
    else
      var i := LastIndexOf(s[..|s| - 1], c);
      if i == |s| - 1 then |s| else i
  }

  lemma {:induction false} LastIndexExact(a: string, c: char, b: string)
    requires c !in b
    ensures LastIndexOf(a + [c] + b, c) == |a|
  {
    var s := a + [c] + b;
    if b == "" {
      assert s[|s| - 1] == c;
    } else {
      var d := b[..|b| - 1];
      assert s[|s| - 1] == b[|b| - 1] && b[|b| - 1] in b;
      assert s[..|s| - 1] == a + [c] + d;
      LastIndexExact(a, c, d);
    }
  }

  function CountChar(s: string, c: char): nat {
    if s == "" then 0 else (if s[0] == c then 1 else 0) + CountChar(s[1..], c)
  }

  lemma {:induction false} CountCharJoin(a: string, b: string, c: char)
    ensures CountChar(a + b, c) == CountChar(a, c) + CountChar(b, c)
  {
    if a == "" {
      assert a + b == b;
    } else {
      assert (a + b)[1..] == a[1..] + b;
      CountCharJoin(a[1..], b, c);
    }
  }

  lemma {:induction false} CountCharZeroIff(s: string, c: char)
    ensures CountChar(s, c) == 0 <==> c !in s
  {
    if s != "" { CountCharZeroIff(s[1..], c); }
  }

  lemma {:induction false} IndexOfCharNone(s: string, c: char)
    requires c !in s
    ensures IndexOfChar(s, c) == |s|
  {
  }

  /** s.replace(/pat/g, rep): one pass from the left, matches do not overlap. */
  function ReplaceAll(s: string, pat: string, rep: string): string
    requires |pat| > 0
  {
    if |s| < |pat| then s
    else if s[..|pat|] == pat then rep + ReplaceAll(s[|pat|..], pat, rep)
    else [s[0]] + ReplaceAll(s[1..], pat, rep)
  }
}
