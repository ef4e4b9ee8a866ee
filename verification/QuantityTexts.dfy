/**
  Quantity expressions character by character: which texts write a tree. The tokenizer and the
  parser together accept exactly these, with that tree.
 */
module QuantityTexts {
  import opened Text
  import opened Numbers
  import opened Wrappers
  import opened QuantityGrammar
  import opened QuantityTokens

  /** Digits, or digits with one comma somewhere among them as the decimal point. */
  predicate WritesNumber(text: string, v: real) {
    || (text != "" && AllDigits(text) && v == DigitsValue(text) as real)
    || exists i :: 0 <= i < |text| && WritesDecimal(text, i, v)
  }

  predicate WritesDecimal(text: string, i: nat, v: real)
    requires i < |text|
  {
    && text[i] == ',' && |text| > 1 && AllDigits(text[..i]) && AllDigits(text[i + 1..])
    && v == DigitsValue(text[..i]) as real + DigitsValue(text[i + 1..]) as real / Pow10(|text| - i - 1)
  }

  predicate WritesOp(c: char, op: Op) {
    match op
    case Add => c == '+'
    case Sub => c == '-'
    case Times => c == '*' || c == '.'
    case Over => c == '/' || c == ':'
  }

  /** The text, without spaces, writes the tree with exactly its parentheses. */
  predicate Writes(text: string, n: Node)
    decreases n
  {
    match n
    case Num(v) => WritesNumber(text, v)
    case Sign(negative, a) => text != "" && text[0] == (if negative then '-' else '+') && Writes(text[1..], a)
    case Group(e) => |text| >= 2 && text[0] == '(' && text[|text| - 1] == ')' && Writes(text[1..|text| - 1], e)
    case Bin(op, l, r) => exists i :: 0 <= i < |text| && WritesOp(text[i], op) && Writes(text[..i], l) && Writes(text[i + 1..], r)
  }

  // --- numbers --------------------------------------------------------------

  lemma NumberChars(text: string)
    requires forall i :: 0 <= i < |text| ==> NumberChar(text[i])
    ensures ParseLocalized(text) == if text == "" then Some(0.0) else ParseDecimal(CommaToPoint(text))
  {
    hide ParseDecimal;
    assert forall i :: 0 <= i < |text| ==> NumberChar(text[i]) && !IsSpace(text[i]);
    StripTrim(text);
    StripNothing(text);
  }

  lemma UnsignedDecimal(text: string)
    requires text == "" || (text[0] != '-' && text[0] != '+')
    ensures ParseDecimal(text) == ParseUnsigned(text)
  {
  }

  lemma WholeNumber(text: string)
    requires AllDigits(text) && text != ""
    ensures ParseDecimal(CommaToPoint(text)) == Some(DigitsValue(text) as real)
  {
    hide DigitsValue;
    assert IsDigit(text[0]) && forall i :: 0 <= i < |text| ==> IsDigit(text[i]);
    assert IndexOfChar(text, ',') == |text|;
    UnsignedDecimal(text);
    ParseWhole(text);
    WholeValue(text);
    assert Pow10(0) == 1.0;
  }

  lemma CommaNumber(text: string, i: nat)
    requires i < |text| && text[i] == ',' && AllDigits(text[..i])
    ensures ParseDecimal(CommaToPoint(text)) == ParseParts(text[..i], text[i + 1..])
  {
    hide ParseParts;
    var a, b := text[..i], text[i + 1..];
    assert forall j :: 0 <= j < i ==> text[j] == a[j];
    assert IndexOfChar(text, ',') == i;
    assert text[i := '.'] == a + "." + b;
    assert i > 0 ==> IsDigit(a[0]);
    UnsignedDecimal(a + "." + b);
    ParsePointed(a, b);
  }

  lemma SameNumber(text: string, i: nat, j: nat, v: real)
    requires i < |text| && j < |text| && text[i] == ',' && AllDigits(text[..i]) && WritesDecimal(text, j, v)
    ensures i == j
  {
    assert forall k :: 0 <= k < i ==> text[k] == text[..i][k];
    assert forall k :: 0 <= k < j ==> text[k] == text[..j][k];
  }

  /** Among digits and commas the number is read exactly when the text writes it. */
  lemma NumberWritten(text: string, v: real)
    requires text != "" && forall i :: 0 <= i < |text| ==> NumberChar(text[i])
    ensures ParseLocalized(text) == Some(v) <==> WritesNumber(text, v)
  {
    hide DigitsValue;
    hide Pow10;
    hide ParseLocalized;
    hide ParseDecimal;
    hide CommaToPoint;
    NumberChars(text);
    var i := IndexOfChar(text, ',');
    assert forall j :: 0 <= j < i ==> NumberChar(text[j]) && text[j] != ',';
    if i == |text| {
      WholeNumber(text);
    } else {
      assert !IsDigit(text[i]);
      CommaNumber(text, i);
      forall j | 0 <= j < |text| && WritesDecimal(text, j, v) ensures j == i {
        SameNumber(text, i, j, v);
      }
      assert ParseParts(text[..i], text[i + 1..]) == Some(v) <==> WritesDecimal(text, i, v);
    }
  }

  lemma WrittenChars(text: string, v: real)
    requires WritesNumber(text, v)
    ensures text != "" && forall i :: 0 <= i < |text| ==> NumberChar(text[i])
  {
    hide DigitsValue;
    hide Pow10;
    if !AllDigits(text) {
      var i :| 0 <= i < |text| && WritesDecimal(text, i, v);
      forall j | 0 <= j < |text| ensures NumberChar(text[j]) {
        if j < i {
          assert text[j] == text[..i][j];
        } else if j > i {
          assert text[j] == text[i + 1..][j - i - 1];
        }
      }
    }
  }

  // --- from the text to its lexemes and back ----------------------------------

  lemma {:induction false} SpellingJoin(a: seq<Lexeme>, b: seq<Lexeme>)
    ensures Spelling(a + b) == Spelling(a) + Spelling(b)
  {
    if a == [] {
      assert a + b == b;
    } else {
      assert (a + b)[1..] == a[1..] + b;
      SpellingJoin(a[1..], b);
    }
  }

  lemma SpellsJoin(a: seq<Lexeme>, b: seq<Lexeme>, s: seq<Token>, t: seq<Token>)
    requires SpellsAll(a, s) && SpellsAll(b, t)
    ensures SpellsAll(a + b, s + t) && Spelling(a + b) == Spelling(a) + Spelling(b)
  {
    hide SpellsToken;
    SpellingJoin(a, b);
  }

  lemma OneLexeme(l: Lexeme, t: Token)
    ensures SpellsAll([l], [t]) <==> SpellsToken(l, t)
    ensures Spelling([l]) == LexemeText(l)
  {
    assert [l][1..] == [];
    assert LexemeText(l) + "" == LexemeText(l);
    if SpellsAll([l], [t]) { assert SpellsToken([l][0], [t][0]); }
  }

  lemma OneChar(c: char, t: Token)
    requires Symbol(c) == Some(t)
    ensures SpellsAll([Char(c)], [t]) && Spelling([Char(c)]) == [c]
  {
    OneLexeme(Char(c), t);
  }

  lemma OneNumber(text: string, v: real)
    requires WritesNumber(text, v)
    ensures SpellsAll([Digits(text)], [Number(v)]) && Spelling([Digits(text)]) == text
  {
    WrittenChars(text, v);
    NumberWritten(text, v);
    OneLexeme(Digits(text), Number(v));
  }

  /** A written tree is spelled by lexemes. */
  lemma {:induction false} WrittenSpells(text: string, n: Node) returns (ls: seq<Lexeme>)
    requires Writes(text, n)
    ensures SpellsAll(ls, Tokens(n)) && Spelling(ls) == text
    decreases n
  {
    hide Spelling;
    hide SpellsAll;
    hide SpellsToken;
    hide WritesNumber;
    match n
    case Num(v) =>
      OneNumber(text, v);
      ls := [Digits(text)];
    case Sign(negative, a) =>
      var rest := WrittenSpells(text[1..], a);
      OneChar(text[0], SignToken(negative));
      SpellsJoin([Char(text[0])], rest, [SignToken(negative)], Tokens(a));
      ls := [Char(text[0])] + rest;
      assert [text[0]] + text[1..] == text;
    case Group(e) =>
      var inner := WrittenSpells(text[1..|text| - 1], e);
      OneChar('(', LParen);
      OneChar(')', RParen);
      SpellsJoin([Char('(')], inner, [LParen], Tokens(e));
      SpellsJoin([Char('(')] + inner, [Char(')')], [LParen] + Tokens(e), [RParen]);
      ls := [Char('(')] + inner + [Char(')')];
      assert ['('] + text[1..|text| - 1] + [')'] == text;
    case Bin(op, l, r) =>
      var i :| 0 <= i < |text| && WritesOp(text[i], op) && Writes(text[..i], l) && Writes(text[i + 1..], r);
      var a := WrittenSpells(text[..i], l);
      var b := WrittenSpells(text[i + 1..], r);
      OneChar(text[i], OpToken(op));
      SpellsJoin(a, [Char(text[i])], Tokens(l), [OpToken(op)]);
      SpellsJoin(a + [Char(text[i])], b, Tokens(l) + [OpToken(op)], Tokens(r));
      ls := a + [Char(text[i])] + b;
      assert text[..i] + [text[i]] + text[i + 1..] == text;
  }

  lemma SpellsPart(ls: seq<Lexeme>, ts: seq<Token>, i: nat, j: nat)
    requires SpellsAll(ls, ts) && i <= j <= |ls|
    ensures SpellsAll(ls[i..j], ts[i..j])
  {
    hide SpellsToken;
  }

  lemma TokenSpelled(ls: seq<Lexeme>, ts: seq<Token>, i: nat)
    requires SpellsAll(ls, ts) && i < |ts|
    ensures |ls| == |ts| && SpellsToken(ls[i], ts[i])
  {
  }

  lemma SymbolSpelled(l: Lexeme, t: Token)
    requires SpellsToken(l, t) && !t.Number?
    ensures l.Char? && Symbol(l.c) == Some(t) && Spelling([l]) == [l.c] == LexemeText(l)
    ensures (t.LParen? ==> l.c == '(') && (t.RParen? ==> l.c == ')')
  {
    OneLexeme(l, t);
  }

  lemma WritesSign(text: string, negative: bool, rest: string, a: Node)
    requires Writes(rest, a) && text == [if negative then '-' else '+'] + rest
    ensures Writes(text, Sign(negative, a))
  {
    assert text[1..] == rest;
  }

  lemma WritesGroup(text: string, inner: string, e: Node)
    requires Writes(inner, e) && text == "(" + inner + ")"
    ensures Writes(text, Group(e))
  {
    assert text[1..|text| - 1] == inner;
  }

  lemma WritesBin(text: string, a: string, c: char, b: string, n: Node)
    requires n.Bin? && Writes(a, n.left) && Writes(b, n.right) && WritesOp(c, n.op) && text == a + [c] + b
    ensures Writes(text, n)
  {
    assert text[..|a|] == a && text[|a|] == c && text[|a| + 1..] == b;
  }

  /** And lexemes that spell the tokens of a tree write it. */
  lemma {:induction false} SpelledWrites(ls: seq<Lexeme>, n: Node)
    requires SpellsAll(ls, Tokens(n))
    ensures Writes(Spelling(ls), n)
    decreases n
  {
    hide Spelling;
    hide SpellsAll;
    hide Writes;
    match n
    case Num(v) =>
      TokenSpelled(ls, [Number(v)], 0);
      assert ls == [ls[0]];
      OneLexeme(ls[0], Number(v));
      NumberWritten(ls[0].text, v);
      NumberWrites(ls[0].text, v);
    case Sign(negative, a) =>
      SpelledSign(ls, negative, a);
      SpelledWrites(ls[1..], a);
      WritesSign(Spelling(ls), negative, Spelling(ls[1..]), a);
    case Group(e) =>
      SpelledGroup(ls, e);
      SpellingInside(ls);
      SpelledWrites(ls[1..|ls| - 1], e);
      WritesGroup(Spelling(ls), Spelling(ls[1..|ls| - 1]), e);
    case Bin(op, l, r) =>
      var k := |Tokens(l)|;
      SpelledBin(ls, n);
      SpellingAt(ls, k);
      SpelledWrites(ls[..k], l);
      SpelledWrites(ls[k + 1..], r);
      WritesBin(Spelling(ls), Spelling(ls[..k]), ls[k].c, Spelling(ls[k + 1..]), n);
  }

  lemma NumberWrites(text: string, v: real)
    ensures Writes(text, Num(v)) <==> WritesNumber(text, v)
  {
  }

  lemma SpelledSign(ls: seq<Lexeme>, negative: bool, a: Node)
    requires SpellsAll(ls, Tokens(Sign(negative, a)))
    ensures ls != [] && SpellsAll(ls[1..], Tokens(a)) && Spelling(ls) == [if negative then '-' else '+'] + Spelling(ls[1..])
  {
    hide Spelling;
    hide SpellsToken;
    var ts := Tokens(Sign(negative, a));
    assert ts[1..|ts|] == Tokens(a) && ls[1..|ls|] == ls[1..];
    TokenSpelled(ls, ts, 0);
    SpellsPart(ls, ts, 1, |ls|);
    SymbolSpelled(ls[0], ts[0]);
    SpellingAt(ls, 0);
    EmptySpelling(ls[..0]);
  }

  lemma SpellingCut(ls: seq<Lexeme>, k: nat)
    requires k <= |ls|
    ensures Spelling(ls) == Spelling(ls[..k]) + Spelling(ls[k..])
  {
    hide Spelling;
    assert ls[..k] + ls[k..] == ls;
    SpellingJoin(ls[..k], ls[k..]);
  }

  lemma SpellingAt(ls: seq<Lexeme>, k: nat)
    requires k < |ls|
    ensures Spelling(ls) == Spelling(ls[..k]) + LexemeText(ls[k]) + Spelling(ls[k + 1..])
  {
    hide Spelling;
    SpellingCut(ls, k);
    SpellingCut(ls[k..], 1);
    assert ls[k..][1..] == ls[k + 1..] && ls[k..][..1] == [ls[k]];
    OneLexeme(ls[k], Plus);
  }

  lemma EmptySpelling(ls: seq<Lexeme>)
    requires |ls| == 0
    ensures Spelling(ls) == ""
  {
  }

  lemma GroupTokens(e: Node)
    ensures var ts, m := Tokens(Group(e)), |Tokens(e)| + 1;
      |ts| == m + 1 && ts[0] == LParen && ts[m] == RParen && ts[1..m] == Tokens(e)
  {
  }

  lemma SpelledGroup(ls: seq<Lexeme>, e: Node)
    requires SpellsAll(ls, Tokens(Group(e)))
    ensures |ls| >= 2 && SpellsAll(ls[1..|ls| - 1], Tokens(e))
    ensures LexemeText(ls[0]) == "(" && LexemeText(ls[|ls| - 1]) == ")"
  {
    hide Spelling;
    hide SpellsToken;
    hide SpellsAll;
    hide Tokens;
    GroupTokens(e);
    var ts, m := Tokens(Group(e)), |Tokens(e)| + 1;
    TokenSpelled(ls, ts, 0);
    TokenSpelled(ls, ts, m);
    SpellsPart(ls, ts, 1, m);
    SymbolSpelled(ls[0], LParen);
    SymbolSpelled(ls[m], RParen);
  }

  lemma SpellingInside(ls: seq<Lexeme>)
    requires |ls| >= 2
    ensures var m := |ls| - 1;
      Spelling(ls) == LexemeText(ls[0]) + Spelling(ls[1..m]) + LexemeText(ls[m])
  {
    hide Spelling;
    hide LexemeText;
    var m := |ls| - 1;
    SpellingAt(ls, m);
    SpellingAt(ls[..m], 0);
    EmptySpelling(ls[..m][..0]);
    EmptySpelling(ls[m + 1..]);
    assert ls[..m][1..] == ls[1..m];
  }

  lemma BinTokens(n: Node)
    requires n.Bin?
    ensures var ts, k := Tokens(n), |Tokens(n.left)|;
      && |ts| == k + 1 + |Tokens(n.right)| && ts[k] == OpToken(n.op)
      && ts[0..k] == Tokens(n.left) && ts[k + 1..|ts|] == Tokens(n.right)
  {
  }

  lemma SpelledBin(ls: seq<Lexeme>, n: Node)
    requires n.Bin? && SpellsAll(ls, Tokens(n))
    ensures var k := |Tokens(n.left)|;
      && k < |ls| && SpellsAll(ls[..k], Tokens(n.left)) && SpellsAll(ls[k + 1..], Tokens(n.right))
      && ls[k].Char? && Symbol(ls[k].c) == Some(OpToken(n.op))
  {
    hide Spelling;
    hide SpellsToken;
    hide SpellsAll;
    hide Tokens;
    hide LexemeText;
    hide Symbol;
    BinTokens(n);
    var ts, k := Tokens(n), |Tokens(n.left)|;
    TokenSpelled(ls, ts, k);
    SpellsPart(ls, ts, 0, k);
    SpellsPart(ls, ts, k + 1, |ls|);
    assert ls[0..k] == ls[..k] && ls[k + 1..|ls|] == ls[k + 1..];
    SymbolSpelled(ls[k], ts[k]);
  }

  /** What the tokenizer reads, it reads from lexemes that spell it. */
  lemma {:induction false} LexSpelled(s: string) returns (ls: seq<Lexeme>)
    requires Lex(s).Ok?
    ensures SpellsAll(ls, Lex(s).value) && Spelling(ls) == s
    decreases |s|
  {
    hide ParseLocalized;
    if s == "" {
      ls := [];
    } else {
      var k, l, t := 1, Char(s[0]), Plus;
      if Symbol(s[0]).Some? {
        t := Symbol(s[0]).value;
      } else {
        k, l := NumberRun(s), Digits(s[..NumberRun(s)]);
        t := Number(ParseLocalized(s[..k]).value);
      }
      var rest := LexSpelled(s[k..]);
      OneLexeme(l, t);
      SpellsJoin([l], rest, [t], Lex(s[k..]).value);
      ls := [l] + rest;
      assert LexemeText(l) + s[k..] == s;
    }
  }

  // --- exactly the written texts mean their tree -------------------------------

  /**
    With spaces anywhere, a text means a tree if and only if the tree needs no further parentheses
    and the text writes it.
   */
  lemma MeansIffWritten(text: string, n: Node)
    ensures Meaning(text) == Some(n) <==> Derivable(n) && Writes(StripSpaces(text), n)
  {
    hide Lex;
    hide StripSpaces;
    hide SpellsAll;
    hide Spelling;
    hide Writes;
    var s := StripSpaces(text);
    StripTrim(text);
    if Derivable(n) && Writes(s, n) {
      var ls := WrittenSpells(s, n);
      PrintedSeparated(n);
      LexSpelling(ls, Tokens(n));
      ParseTreeIff(Tokens(n), n);
    }
    if Meaning(text) == Some(n) {
      var ls := LexSpelled(s);
      ParseTreeIff(Lex(s).value, n);
      SpelledWrites(ls, n);
    }
  }

  /** What the operators mean. */
  lemma ValueIsArithmetic(l: Node, r: Node, x: real, y: real)
    requires Value(l) == Some(x) && Value(r) == Some(y)
    ensures Value(Bin(Add, l, r)) == Some(x + y) && Value(Bin(Sub, l, r)) == Some(x - y)
    ensures Value(Bin(Times, l, r)) == Some(x * y)
    ensures Value(Bin(Over, l, r)) == if y == 0.0 then None else Some(x / y)
    ensures Value(Sign(true, l)) == Some(-x) && Value(Sign(false, l)) == Some(x) && Value(Group(l)) == Some(x)
  {
  }
}
