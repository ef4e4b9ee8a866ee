/**
  Escaping of estimate text fields (web/app.js): two chains of global replacements, and what
  is left of a field after both.
 */
module EscapedText {
  import opened Text

  /** escapeEstimateTextField */
  function Escape(value: string): string {
    var backslashes := ReplaceAll(value, "\\", "\\\\");
    var pairs := ReplaceAll(backslashes, "\r\n", "\\n");
    var feeds := ReplaceAll(pairs, "\n", "\\n");
    var returns_ := ReplaceAll(feeds, "\r", "\\n");
    ReplaceAll(returns_, "'", "''")
  }

  /** unescapeEstimateTextField */
  function Unescape(value: string): string {
    ReplaceAll(ReplaceAll(value, "\\n", "\n"), "\\\\", "\\")
  }

  // --- both chains as single passes -----------------------------------------

  predicate LineEndPair(s: string) {
    |s| >= 2 && s[0] == '\r' && s[1] == '\n'
  }

  predicate LineBreakLetter(s: string) {
    |s| >= 2 && s[0] == '\\' && s[1] == 'n'
  }

  /** Backslashes doubled, line end pairs replaced. */
  function HalfEscaped(s: string): string
    decreases |s|
  {
    if s == "" then ""
    else if s[0] == '\\' then "\\\\" + HalfEscaped(s[1..])
    else if LineEndPair(s) then "\\n" + HalfEscaped(s[2..])
    else [s[0]] + HalfEscaped(s[1..])
  }

  function EscapedChar(c: char): string {
    if c == '\\' then "\\\\" else if c == '\n' || c == '\r' then "\\n" else if c == '\'' then "''" else [c]
  }

  /** All five replacements in one pass. */
  function Escaped(s: string): string
    decreases |s|
  {
    if s == "" then ""
    else if LineEndPair(s) then "\\n" + Escaped(s[2..])
    else EscapedChar(s[0]) + Escaped(s[1..])
  }

  lemma {:induction false} HalfEscapedIs(s: string)
    ensures ReplaceAll(ReplaceAll(s, "\\", "\\\\"), "\r\n", "\\n") == HalfEscaped(s)
    decreases |s|
  {
    if s != "" {
      var rest := ReplaceAll(s[1..], "\\", "\\\\");
      HalfEscapedIs(s[1..]);
      if s[0] == '\\' {
        DoubledHead(s);
        PairSkips("\\", "\\" + rest);
        PairSkips("\\", rest);
        assert "\\" + ("\\" + rest) == "\\\\" + rest;
        assert "\\" + ("\\" + HalfEscaped(s[1..])) == "\\\\" + HalfEscaped(s[1..]);
      } else if LineEndPair(s) {
        HalfEscapedIs(s[2..]);
        PlainHead(s);
        PlainHead(s[1..]);
        assert s[1..][1..] == s[2..];
        PairMatches(ReplaceAll(s[2..], "\\", "\\\\"));
      } else {
        PlainHead(s);
        if s[0] == '\r' && |s| > 1 {
          DoubledKeepsHead(s[1..]);
        }
        PairSkips([s[0]], rest);
      }
    }
  }

  lemma DoubledHead(s: string)
    requires s != "" && s[0] == '\\'
    ensures ReplaceAll(s, "\\", "\\\\") == "\\" + ("\\" + ReplaceAll(s[1..], "\\", "\\\\"))
  {
  }

  lemma PlainHead(s: string)
    requires s != "" && s[0] != '\\'
    ensures ReplaceAll(s, "\\", "\\\\") == [s[0]] + ReplaceAll(s[1..], "\\", "\\\\")
  {
  }

  lemma DoubledKeepsHead(s: string)
    requires s != ""
    ensures var r := ReplaceAll(s, "\\", "\\\\"); r != "" && r[0] == s[0]
  {
  }

  lemma PairSkips(c: string, rest: string)
    requires |c| == 1 && (c[0] == '\r' ==> rest == "" || rest[0] != '\n')
    ensures ReplaceAll(c + rest, "\r\n", "\\n") == c + ReplaceAll(rest, "\r\n", "\\n")
  {
  }

  lemma PairMatches(rest: string)
    ensures ReplaceAll("\r" + ("\n" + rest), "\r\n", "\\n") == "\\n" + ReplaceAll(rest, "\r\n", "\\n")
  {
    var s := "\r" + ("\n" + rest);
    assert s[..2] == "\r\n" && s[2..] == rest;
  }

  /** A replacement of single characters is done character by character. */
  lemma {:induction false} ReplaceJoin(a: string, b: string, c: char, rep: string)
    ensures ReplaceAll(a + b, [c], rep) == ReplaceAll(a, [c], rep) + ReplaceAll(b, [c], rep)
  {
    if a == "" {
      assert a + b == b;
    } else {
      var head, tail := a[..1], a[1..];
      assert (a + b)[..1] == head && (a + b)[1..] == tail + b;
      ReplaceJoin(tail, b, c, rep);
      var x, y := ReplaceAll(tail, [c], rep), ReplaceAll(b, [c], rep);
      assert rep + (x + y) == (rep + x) + y && [a[0]] + (x + y) == ([a[0]] + x) + y;
    }
  }

  lemma ReplaceOne(x: char, c: char, rep: string)
    ensures ReplaceAll([x], [c], rep) == if x == c then rep else [x]
  {
  }

  /** The last three replacements. */
  function Finish(s: string): string {
    ReplaceAll(ReplaceAll(ReplaceAll(s, "\n", "\\n"), "\r", "\\n"), "'", "''")
  }

  lemma FinishJoin(a: string, b: string)
    ensures Finish(a + b) == Finish(a) + Finish(b)
  {
    hide ReplaceAll;
    ReplaceJoin(a, b, '\n', "\\n");
    var a1, b1 := ReplaceAll(a, "\n", "\\n"), ReplaceAll(b, "\n", "\\n");
    ReplaceJoin(a1, b1, '\r', "\\n");
    ReplaceJoin(ReplaceAll(a1, "\r", "\\n"), ReplaceAll(b1, "\r", "\\n"), '\'', "''");
  }

  lemma FinishPlain(c: char)
    requires c != '\n' && c != '\r' && c != '\''
    ensures Finish([c]) == [c]
  {
    hide ReplaceAll;
    ReplaceOne(c, '\n', "\\n"); ReplaceOne(c, '\r', "\\n"); ReplaceOne(c, '\'', "''");
  }

  lemma FinishTwo(a: char, b: char)
    requires a != '\n' && a != '\r' && a != '\'' && b != '\n' && b != '\r' && b != '\''
    ensures Finish([a, b]) == [a, b]
  {
    hide Finish;
    FinishPlain(a);
    FinishPlain(b);
    FinishJoin([a], [b]);
    assert [a] + [b] == [a, b];
  }

  lemma FinishChar(c: char)
    requires c != '\\'
    ensures Finish([c]) == EscapedChar(c)
  {
  }

  lemma {:induction false} FinishHalf(s: string)
    ensures Finish(HalfEscaped(s)) == Escaped(s)
    decreases |s|
  {
    hide Finish;
    if s == "" {
      assert Finish("") == "" by { FinishNothing(); }
    } else if s[0] == '\\' {
      FinishTwo('\\', '\\');
      FinishHalf(s[1..]);
      FinishJoin("\\\\", HalfEscaped(s[1..]));
    } else if LineEndPair(s) {
      FinishTwo('\\', 'n');
      FinishHalf(s[2..]);
      FinishJoin("\\n", HalfEscaped(s[2..]));
    } else {
      FinishChar(s[0]);
      FinishHalf(s[1..]);
      FinishJoin([s[0]], HalfEscaped(s[1..]));
    }
  }

  lemma FinishNothing()
    ensures Finish("") == ""
  {
  }

  lemma EscapeIsEscaped(s: string)
    ensures Escape(s) == Escaped(s)
  {
    hide ReplaceAll;
    HalfEscapedIs(s);
    FinishHalf(s);
  }

  /** What comes back: line ends become line feeds, quotes are doubled, backslash n becomes backslash and line feed. */
  function ComesBackAs(s: string): string
    decreases |s|
  {
    if s == "" then ""
    else if LineEndPair(s) then "\n" + ComesBackAs(s[2..])
    else if LineBreakLetter(s) then "\\\n" + ComesBackAs(s[2..])
    else (if s[0] == '\r' then "\n" else if s[0] == '\'' then "''" else [s[0]]) + ComesBackAs(s[1..])
  }

  /** The same before the second replacement, with other backslashes still doubled. */
  function HalfBack(s: string): string
    decreases |s|
  {
    if s == "" then ""
    else if LineEndPair(s) then "\n" + HalfBack(s[2..])
    else if LineBreakLetter(s) then "\\\n" + HalfBack(s[2..])
    else (if s[0] == '\\' then "\\\\" else if s[0] == '\r' then "\n" else if s[0] == '\'' then "''" else [s[0]])
         + HalfBack(s[1..])
  }

  /** One character that does not start a match is copied. */
  lemma BreakSkips(c: char, rest: string)
    requires c == '\\' ==> rest == "" || rest[0] != 'n'
    ensures ReplaceAll([c] + rest, "\\n", "\n") == [c] + ReplaceAll(rest, "\\n", "\n")
  {
    var s := [c] + rest;
    assert s[1..] == rest;
    if |s| >= 2 {
      assert s[..2] == [s[0], s[1]];
    }
  }

  lemma BreakMatches(rest: string)
    ensures ReplaceAll("\\n" + rest, "\\n", "\n") == "\n" + ReplaceAll(rest, "\\n", "\n")
  {
  }

  lemma EscapedHead(s: string)
    requires s != ""
    ensures Escaped(s) != "" && (Escaped(s)[0] == 'n' <==> s[0] == 'n')
  {
  }

  lemma BreakAfterSlash(more: string)
    ensures ReplaceAll("\\\\" + ("n" + more), "\\n", "\n") == "\\\n" + ReplaceAll(more, "\\n", "\n")
  {
    hide ReplaceAll;
    BreakSkips('\\', "\\n" + more);
    BreakMatches(more);
    assert "\\\\" + ("n" + more) == ['\\'] + ("\\n" + more);
    assert ['\\'] + ("\n" + ReplaceAll(more, "\\n", "\n")) == "\\\n" + ReplaceAll(more, "\\n", "\n");
  }

  lemma BreakSkipsTwice(c: char, rest: string)
    requires c == '\\' ==> rest == "" || rest[0] != 'n'
    ensures ReplaceAll([c, c] + rest, "\\n", "\n") == [c, c] + ReplaceAll(rest, "\\n", "\n")
  {
    hide ReplaceAll;
    BreakSkips(c, [c] + rest);
    BreakSkips(c, rest);
    assert [c, c] + rest == [c] + ([c] + rest);
    assert [c] + ([c] + ReplaceAll(rest, "\\n", "\n")) == [c, c] + ReplaceAll(rest, "\\n", "\n");
  }

  lemma EscapedBreakLetter(s: string)
    requires LineBreakLetter(s)
    ensures Escaped(s) == "\\\\" + ("n" + Escaped(s[2..])) && HalfBack(s) == "\\\n" + HalfBack(s[2..])
  {
  }

  lemma EscapedSlash(s: string)
    requires s != "" && s[0] == '\\' && !LineBreakLetter(s)
    ensures Escaped(s) == "\\\\" + Escaped(s[1..]) && HalfBack(s) == "\\\\" + HalfBack(s[1..])
    ensures Escaped(s[1..]) == "" || Escaped(s[1..])[0] != 'n'
  {
  }

  lemma {:induction false} FirstUnescape(s: string)
    ensures ReplaceAll(Escaped(s), "\\n", "\n") == HalfBack(s)
    decreases |s|
  {
    hide ReplaceAll;
    if s == "" {
      NothingReplaced("\\n", "\n");
    } else if LineEndPair(s) {
      FirstUnescape(s[2..]);
      BreakMatches(Escaped(s[2..]));
    } else if LineBreakLetter(s) {
      FirstUnescape(s[2..]);
      EscapedBreakLetter(s);
      BreakAfterSlash(Escaped(s[2..]));
    } else {
      FirstUnescape(s[1..]);
      FirstUnescapeHead(s);
    }
  }

  lemma FirstUnescapeHead(s: string)
    requires s != "" && !LineEndPair(s) && !LineBreakLetter(s)
    requires ReplaceAll(Escaped(s[1..]), "\\n", "\n") == HalfBack(s[1..])
    ensures ReplaceAll(Escaped(s), "\\n", "\n") == HalfBack(s)
  {
    hide ReplaceAll;
    var rest := Escaped(s[1..]);
    if s[0] == '\\' {
      EscapedSlash(s);
      BreakSkipsTwice('\\', rest);
    } else if s[0] == '\n' || s[0] == '\r' {
      BreakMatches(rest);
    } else if s[0] == '\'' {
      BreakSkipsTwice('\'', rest);
    } else {
      BreakSkips(s[0], rest);
    }
  }

  lemma NothingReplaced(pat: string, rep: string)
    requires pat != ""
    ensures ReplaceAll("", pat, rep) == ""
  {
  }

  lemma SlashSkips(c: char, rest: string)
    requires c == '\\' ==> rest == "" || rest[0] != '\\'
    ensures ReplaceAll([c] + rest, "\\\\", "\\") == [c] + ReplaceAll(rest, "\\\\", "\\")
  {
    var s := [c] + rest;
    assert s[1..] == rest;
    if |s| >= 2 {
      assert s[..2] == [s[0], s[1]];
    }
  }

  lemma SlashMatches(rest: string)
    ensures ReplaceAll("\\\\" + rest, "\\\\", "\\") == "\\" + ReplaceAll(rest, "\\\\", "\\")
  {
  }

  lemma SlashSkipsTwice(a: char, b: char, rest: string)
    requires b != '\\'
    ensures ReplaceAll([a, b] + rest, "\\\\", "\\") == [a, b] + ReplaceAll(rest, "\\\\", "\\")
  {
  }

  lemma {:induction false} SecondUnescape(s: string)
    ensures ReplaceAll(HalfBack(s), "\\\\", "\\") == ComesBackAs(s)
    decreases |s|
  {
    hide ReplaceAll;
    if s == "" {
      NothingReplaced("\\\\", "\\");
    } else if LineEndPair(s) {
      SecondUnescape(s[2..]);
      SlashSkips('\n', HalfBack(s[2..]));
    } else if LineBreakLetter(s) {
      SecondUnescape(s[2..]);
      SlashSkipsTwice('\\', '\n', HalfBack(s[2..]));
    } else {
      SecondUnescape(s[1..]);
      SecondUnescapeHead(s);
    }
  }

  lemma SecondUnescapeHead(s: string)
    requires s != "" && !LineEndPair(s) && !LineBreakLetter(s)
    requires ReplaceAll(HalfBack(s[1..]), "\\\\", "\\") == ComesBackAs(s[1..])
    ensures ReplaceAll(HalfBack(s), "\\\\", "\\") == ComesBackAs(s)
  {
    hide ReplaceAll;
    var rest := HalfBack(s[1..]);
    if s[0] == '\\' {
      SlashMatches(rest);
    } else if s[0] == '\'' {
      SlashSkipsTwice('\'', '\'', rest);
    } else {
      SlashSkips(if s[0] == '\r' then '\n' else s[0], rest);
    }
  }

  /** What any field comes back as. */
  lemma UnescapeEscape(s: string)
    ensures Unescape(Escape(s)) == ComesBackAs(s)
  {
    hide ReplaceAll;
    EscapeIsEscaped(s);
    FirstUnescape(s);
    SecondUnescape(s);
  }

  // --- the fields that survive ----------------------------------------------

  predicate NoBreakLetter(s: string) {
    forall i :: 0 <= i < |s| - 1 ==> !(s[i] == '\\' && s[i + 1] == 'n')
  }

  predicate FieldSafe(s: string) {
    '\'' !in s && '\r' !in s && NoBreakLetter(s)
  }

  lemma FieldSafeTail(s: string)
    requires FieldSafe(s) && s != ""
    ensures FieldSafe(s[1..]) && s[0] != '\'' && s[0] != '\r' && !LineBreakLetter(s)
  {
  }

  lemma {:induction false} SafeComesBack(s: string)
    requires FieldSafe(s)
    ensures ComesBackAs(s) == s
  {
    if s != "" {
      FieldSafeTail(s);
      SafeComesBack(s[1..]);
    }
  }

  lemma {:induction false} QuotesDouble(s: string)
    ensures CountChar(ComesBackAs(s), '\'') == 2 * CountChar(s, '\'')
    ensures CountChar(ComesBackAs(s), '\r') == 0
    decreases |s|
  {
    if s != "" {
      if LineEndPair(s) || LineBreakLetter(s) {
        QuotesDouble(s[2..]);
        assert s[1..][1..] == s[2..];
        var front := if LineEndPair(s) then "\n" else "\\\n";
        CountFront(front, ComesBackAs(s[2..]));
      } else {
        QuotesDouble(s[1..]);
        CountFront(if s[0] == '\r' then "\n" else if s[0] == '\'' then "''" else [s[0]], ComesBackAs(s[1..]));
      }
    }
  }

  lemma CountFront(front: string, rest: string)
    requires 1 <= |front| <= 2
    ensures CountChar(front + rest, '\'') == (if front[0] == '\'' then 1 else 0)
            + (if |front| == 2 && front[1] == '\'' then 1 else 0) + CountChar(rest, '\'')
    ensures CountChar(front + rest, '\r') == (if front[0] == '\r' then 1 else 0)
            + (if |front| == 2 && front[1] == '\r' then 1 else 0) + CountChar(rest, '\r')
  {
  }

  lemma BreakLetterChanges(s: string)
    ensures LineBreakLetter(s) ==> ComesBackAs(s) != s
  {
  }

  lemma {:induction false} OnlySafeComesBack(s: string)
    requires '\'' !in s && '\r' !in s && ComesBackAs(s) == s
    ensures NoBreakLetter(s)
  {
    if s != "" {
      BreakLetterChanges(s);
      assert ComesBackAs(s) == [s[0]] + ComesBackAs(s[1..]);
      assert ComesBackAs(s)[1..] == ComesBackAs(s[1..]);
      OnlySafeComesBack(s[1..]);
      forall i | 0 <= i < |s| - 1 ensures !(s[i] == '\\' && s[i + 1] == 'n') {
        if i > 0 {
          var t := s[1..];
          assert t[i - 1] == s[i] && t[i - 1 + 1] == s[i + 1];
        }
      }
    }
  }

  /** A field survives exactly when it has no quote, no carriage return and no backslash before an n. */
  lemma SurvivesIff(s: string)
    ensures Unescape(Escape(s)) == s <==> FieldSafe(s)
  {
    hide Escape;
    hide Unescape;
    UnescapeEscape(s);
    if FieldSafe(s) {
      SafeComesBack(s);
    } else if ComesBackAs(s) == s {
      QuotesDouble(s);
      CountCharZeroIff(s, '\'');
      CountCharZeroIff(s, '\r');
      OnlySafeComesBack(s);
    }
  }

  // --- what an escaped field looks like -------------------------------------

  /** An escaped field without quotes holds no delimiter and no line end. */
  lemma {:induction false} EscapedIsOneField(s: string)
    requires '\'' !in s
    ensures '\'' !in Escaped(s) && '\n' !in Escaped(s) && '\r' !in Escaped(s)
    decreases |s|
  {
    if s != "" {
      if LineEndPair(s) {
        EscapedIsOneField(s[2..]);
      } else {
        EscapedIsOneField(s[1..]);
      }
    }
  }

  predicate Plain(s: string) {
    '\\' !in s && '\'' !in s && '\n' !in s && '\r' !in s
  }

  /** Fields without special characters are written and read as they are. */
  lemma {:induction false} PlainStays(s: string)
    requires Plain(s)
    ensures Escaped(s) == s && HalfBack(s) == s && ComesBackAs(s) == s
  {
    if s != "" {
      PlainStays(s[1..]);
    }
  }

  lemma PlainUnescapes(s: string)
    requires Plain(s)
    ensures Escape(s) == s && Unescape(s) == s
  {
    hide Escape;
    hide Unescape;
    EscapeIsEscaped(s);
    PlainStays(s);
    UnescapeEscape(s);
  }

  // --- ends, fronts and characters --------------------------------------------

  lemma EscapedFirst(s: string)
    requires s != "" && '\'' !in s
    ensures var e := Escaped(s);
      && e != "" && e[0] != '\'' && (!IsSpace(s[0]) ==> !IsSpace(e[0]))
      && (e[0] != '\\' ==> s[0] == e[0])
      && (s[0] != '\\' && s[0] != '\n' && s[0] != '\r' ==> e == [s[0]] + Escaped(s[1..]))
  {
  }

  lemma {:induction false} EscapedLast(s: string)
    requires s != "" && !IsSpace(s[|s| - 1])
    ensures Escaped(s) != "" && !IsSpace(Escaped(s)[|Escaped(s)| - 1])
    decreases |s|
  {
    if LineEndPair(s) {
      if |s| > 2 {
        EscapedLast(s[2..]);
        LastOfJoin("\\n", Escaped(s[2..]));
      }
    } else if |s| > 1 {
      EscapedLast(s[1..]);
      LastOfJoin(EscapedChar(s[0]), Escaped(s[1..]));
    } else {
      assert s[1..] == "";
      assert Escaped(s) == EscapedChar(s[0]);
    }
  }

  lemma LastOfJoin(a: string, b: string)
    requires b != ""
    ensures (a + b)[|a + b| - 1] == b[|b| - 1]
  {
  }

  lemma {:induction false} EscapedFront(a: string, b: string)
    requires Plain(a)
    ensures Escaped(a + b) == a + Escaped(b)
  {
    if a == "" {
      assert a + b == b;
    } else {
      assert (a + b)[1..] == a[1..] + b && (a + b)[0] == a[0];
      EscapedFront(a[1..], b);
      assert [a[0]] + (a[1..] + Escaped(b)) == a + Escaped(b);
    }
  }

  lemma {:induction false} ReplaceFront(a: string, b: string, pat: string, rep: string)
    requires |pat| > 0 && pat[0] !in a
    ensures ReplaceAll(a + b, pat, rep) == a + ReplaceAll(b, pat, rep)
  {
    var s := a + b;
    if a == "" {
      assert s == b;
    } else {
      assert s[1..] == a[1..] + b && s[0] == a[0];
      ReplaceFront(a[1..], b, pat, rep);
      assert |s| >= |pat| ==> s[..|pat|][0] == a[0];
      if |s| < |pat| { ShortStays(b, pat, rep); }
      assert [a[0]] + (a[1..] + ReplaceAll(b, pat, rep)) == a + ReplaceAll(b, pat, rep);
    }
  }

  lemma ShortStays(s: string, pat: string, rep: string)
    requires |pat| > 0 && |s| < |pat|
    ensures ReplaceAll(s, pat, rep) == s
  {
  }

  lemma UnescapeFront(a: string, b: string)
    requires '\\' !in a
    ensures Unescape(a + b) == a + Unescape(b)
  {
    hide ReplaceAll;
    ReplaceFront(a, b, "\\n", "\n");
    ReplaceFront(a, ReplaceAll(b, "\\n", "\n"), "\\\\", "\\");
  }

  lemma {:induction false} ReplaceChars(s: string, pat: string, rep: string, c: char)
    requires |pat| > 0 && c !in s && c !in rep
    ensures c !in ReplaceAll(s, pat, rep)
  {
    if |s| >= |pat| {
      if s[..|pat|] == pat {
        ReplaceChars(s[|pat|..], pat, rep, c);
      } else {
        ReplaceChars(s[1..], pat, rep, c);
      }
    }
  }

  /** Unescaping adds line feeds and backslashes only. */
  lemma UnescapeChars(s: string, c: char)
    requires c !in s && c != '\n' && c != '\\'
    ensures c !in Unescape(s)
  {
    hide ReplaceAll;
    ReplaceChars(s, "\\n", "\n", c);
    ReplaceChars(ReplaceAll(s, "\\n", "\n"), "\\\\", "\\", c);
  }

  /** Escaping adds backslashes, quotes and the letter n only. */
  lemma {:induction false} EscapedChars(s: string, c: char)
    requires c !in s && c != 'n' && c != '\\' && c != '\''
    ensures c !in Escaped(s)
    decreases |s|
  {
    if s != "" {
      if LineEndPair(s) { EscapedChars(s[2..], c); } else { EscapedChars(s[1..], c); }
    }
  }

  /** The first character after a replacement that puts none of the letter n in front. */
  lemma ReplaceHead(s: string, pat: string, rep: string)
    requires |pat| > 0 && pat[0] != 'n' && rep != "" && rep[0] != 'n'
    ensures var r := ReplaceAll(s, pat, rep); (r == "" <==> s == "") && (s != "" ==> (r[0] == 'n' <==> s[0] == 'n'))
  {
  }

  lemma NoBreakLetterCons(c: char, t: string)
    requires NoBreakLetter(t) && (c == '\\' && t != "" ==> t[0] != 'n')
    ensures NoBreakLetter([c] + t)
  {
    var s := [c] + t;
    forall i | 0 <= i < |s| - 1 ensures !(s[i] == '\\' && s[i + 1] == 'n') {
      assert s[i + 1] == t[i] && (i > 0 ==> s[i] == t[i - 1]);
    }
  }

  lemma NoBreakLetterTail(s: string, k: nat)
    requires NoBreakLetter(s) && k <= |s|
    ensures NoBreakLetter(s[k..])
  {
    var t := s[k..];
    forall i | 0 <= i < |t| - 1 ensures !(t[i] == '\\' && t[i + 1] == 'n') {
      assert t[i] == s[k + i] && t[i + 1] == s[k + i + 1];
    }
  }

  lemma {:induction false} BreaksReplaced(s: string)
    ensures NoBreakLetter(ReplaceAll(s, "\\n", "\n"))
  {
    if |s| >= 2 {
      if s[..2] == "\\n" {
        BreaksReplaced(s[2..]);
        NoBreakLetterCons('\n', ReplaceAll(s[2..], "\\n", "\n"));
      } else {
        assert s[..2] == [s[0], s[1]];
        BreaksReplaced(s[1..]);
        ReplaceHead(s[1..], "\\n", "\n");
        NoBreakLetterCons(s[0], ReplaceAll(s[1..], "\\n", "\n"));
      }
    }
  }

  lemma {:induction false} HalvedKeepsNone(s: string)
    requires NoBreakLetter(s)
    ensures NoBreakLetter(ReplaceAll(s, "\\\\", "\\"))
  {
    if |s| >= 2 {
      if s[..2] == "\\\\" {
        assert s[1] == '\\' && (|s| > 2 ==> s[2..][0] == s[2]);
        NoBreakLetterTail(s, 2);
        HalvedKeepsNone(s[2..]);
        ReplaceHead(s[2..], "\\\\", "\\");
        NoBreakLetterCons('\\', ReplaceAll(s[2..], "\\\\", "\\"));
      } else {
        NoBreakLetterTail(s, 1);
        HalvedKeepsNone(s[1..]);
        ReplaceHead(s[1..], "\\\\", "\\");
        NoBreakLetterCons(s[0], ReplaceAll(s[1..], "\\\\", "\\"));
      }
    }
  }

  /** What has been unescaped once survives being escaped and unescaped again. */
  lemma UnescapedSurvives(s: string)
    requires '\'' !in s && '\r' !in s
    ensures FieldSafe(Unescape(s)) && Unescape(Escape(Unescape(s))) == Unescape(s)
  {
    hide ReplaceAll;
    hide Escape;
    UnescapeChars(s, '\'');
    UnescapeChars(s, '\r');
    BreaksReplaced(s);
    HalvedKeepsNone(ReplaceAll(s, "\\n", "\n"));
    SurvivesIff(Unescape(s));
  }

  // --- lists of fields ------------------------------------------------------

  function EscapeAll(fields: seq<string>): (r: seq<string>)
    ensures |r| == |fields|
  {
    seq(|fields|, i requires 0 <= i < |fields| => Escape(fields[i]))
  }

  function UnescapeAll(fields: seq<string>): (r: seq<string>)
    ensures |r| == |fields|
  {
    seq(|fields|, i requires 0 <= i < |fields| => Unescape(fields[i]))
  }
}
