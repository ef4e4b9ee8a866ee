/** Quantities of estimate lines (web/app.js): an expression or a number, optionally rounded. */
module Quantities {
  import opened Text
  import opened Numbers
  import opened Wrappers
  import opened QuantityGrammar
  import opened QuantityTexts
  import opened QuantityTokens

  // --- quantities -----------------------------------------------------------

  predicate OperatorChar(c: char) {
    c == '(' || c == '+' || c == '-' || c == '*' || c == '/' || c == '.' || c == ':'
  }

  /** isSourceDataQuantityExpression */
  predicate IsExpression(expr: string) {
    exists i :: 0 <= i < |expr| && OperatorChar(expr[i])
  }

  /** roundSourceDataQuantity */
  function RoundTo(value: real, decimals: nat): real {
    Quotient(RoundHalfUp(Product(value, Pow10(decimals))) as real, Pow10(decimals))
  }

  function Precision(text: string): Option<nat> {
    match ParseDecimal(text)
    case None => None
    case Some(v) => if v >= 0.0 && v == v.Floor as real then Some(v.Floor) else None
  }

  function ExpressionValue(expr: string): Option<real> {
    if IsExpression(expr) then (match Meaning(expr) case None => None case Some(n) => Value(n))
    else ParseLocalized(expr)
  }

  predicate HasPrecision(trimmed: string) {
    LastIndexOf(trimmed, '[') < |trimmed| && trimmed[|trimmed| - 1] == ']'
  }

  /** The quantity a text stands for: an expression or a number, optionally rounded to [N] decimals. */
  function QuantityOf(raw: string): Option<real> {
    var trimmed := Trim(raw);
    if trimmed == "" then Some(0.0)
    else if HasPrecision(trimmed) then
      var open := LastIndexOf(trimmed, '[');
      match (Precision(Trim(trimmed[open + 1..|trimmed| - 1])), ExpressionValue(Trim(trimmed[..open])))
      case (Some(d), Some(v)) => Some(RoundTo(v, d))
      case _ => None
    else ExpressionValue(trimmed)
  }

  /** parseSourceDataQuantity */
  method ParseQuantity(raw: string) returns (r: Result<real>)
    ensures r.Ok? <==> QuantityOf(raw).Some?
    ensures r.Ok? ==> r.value == QuantityOf(raw).value
  {
    hide Trim;
    hide ParseDecimal;
    hide ParseLocalized;
    hide Meaning;
    var trimmed := Trim(raw);
    if trimmed == "" {
      return Ok(0.0);
    }
    var expr := trimmed;
    var decimals := -1;
    var open := LastIndexOf(expr, '[');
    if open < |expr| && expr[|expr| - 1] == ']' {
      var inside := Trim(expr[open + 1..|expr| - 1]);
      var parsed := ParseDecimal(inside);
      if parsed.None? || parsed.value != parsed.value.Floor as real || parsed.value < 0.0 {
        return Err(InvalidPrecision);
      }
      decimals := parsed.value.Floor;
      expr := Trim(expr[..open]);
    }
    var value;
    if exists i :: 0 <= i < |expr| && OperatorChar(expr[i]) {
      var evaluated := EvaluateExpression(expr);
      if evaluated.Err? {
        return evaluated;
      }
      value := evaluated.value;
    } else {
      var number := ParseLocalized(expr);
      if number.None? {
        return Err(InvalidNumber);
      }
      value := number.value;
    }
    if decimals >= 0 {
      value := RoundTo(value, decimals);
    }
    return Ok(value);
  }

  lemma DivideBound(x: real, bound: real, p: real)
    requires p > 0.0 && -bound <= x <= bound
    ensures -(bound / p) <= x / p <= bound / p
  {
  }

  lemma DivideDifference(n: real, value: real, p: real)
    requires p > 0.0
    ensures Quotient(n, p) - value == (n - Product(value, p)) / p && Product(Quotient(n, p), p) == n
  {
  }

  lemma RoundWhole(n: int)
    ensures RoundHalfUp(n as real) == n
  {
  }

  /** A rounded quantity is within half of its last place, and rounding it again changes nothing. */
  lemma RoundToIsNear(value: real, decimals: nat)
    ensures Abs(RoundTo(value, decimals) - value) <= 0.5 / Pow10(decimals)
    ensures RoundTo(RoundTo(value, decimals), decimals) == RoundTo(value, decimals)
  {
    hide RoundHalfUp;
    hide Pow10;
    var p := Pow10(decimals);
    var n := RoundHalfUp(Product(value, p));
    RoundedIsNear(Product(value, p));
    DivideDifference(n as real, value, p);
    DivideBound(n as real - Product(value, p), 0.5, p);
    RoundWhole(n);
  }

  lemma {:induction false} SpellingChars(ls: seq<Lexeme>, ts: seq<Token>, c: char)
    requires SpellsAll(ls, ts) && c in Spelling(ls)
    ensures Symbol(c).Some? || NumberChar(c)
  {
    hide ParseLocalized;
    assert SpellsToken(ls[0], ts[0]);
    if c !in LexemeText(ls[0]) {
      SpellsTail(ls, ts);
      SpellingChars(ls[1..], ts[1..], c);
    }
  }

  lemma SpellsTail(ls: seq<Lexeme>, ts: seq<Token>)
    requires SpellsAll(ls, ts) && ls != []
    ensures SpellsAll(ls[1..], ts[1..])
  {
  }

  lemma {:induction false} SpellingHas(ls: seq<Lexeme>, i: nat)
    requires i < |ls| && ls[i].Char?
    ensures ls[i].c in Spelling(ls)
  {
    if i > 0 { SpellingHas(ls[1..], i - 1); }
  }

  predicate OperatorToken(t: Token) {
    t.LParen? || TermOp(t).Some? || ExprOp(t).Some?
  }

  /** Everything but a bare number is printed with an operator or a parenthesis. */
  lemma PrintedOperator(n: Node) returns (i: nat)
    requires !n.Num?
    ensures i < |Tokens(n)| && OperatorToken(Tokens(n)[i])
  {
    match n
    case Sign(_, _) => i := 0;
    case Group(_) => i := 0;
    case Bin(op, l, r) => i := |Tokens(l)|;
  }

  /** The test for an operator sends every printed tree to an evaluation that gives its value. */
  lemma PrintedExpressionValue(tree: Node, ls: seq<Lexeme>, text: string)
    requires SpellsAll(ls, Tokens(Parenthesize(tree))) && StripSpaces(text) == Spelling(ls)
    ensures ExpressionValue(text) == Value(tree)
  {
    hide ParseLocalized;
    hide StripSpaces;
    PrintedTreeMeans(tree, ls, text);
    var n := Parenthesize(tree);
    if !IsExpression(text) {
      if !n.Num? {
        var i := PrintedOperator(n);
        OperatorSpelled(ls, Tokens(n), i, text);
      } else {
        NumberSpelled(ls, n.number, text);
      }
    }
  }

  lemma OperatorSpelled(ls: seq<Lexeme>, ts: seq<Token>, i: nat, text: string)
    requires SpellsAll(ls, ts) && i < |ts| && OperatorToken(ts[i]) && StripSpaces(text) == Spelling(ls)
    ensures IsExpression(text)
  {
    hide ParseLocalized;
    assert SpellsToken(ls[i], ts[i]);
    var c := ls[i].c;
    SpellingHas(ls, i);
    StripKeeps(text, c);
    assert OperatorChar(c);
  }

  lemma NumberSpelled(ls: seq<Lexeme>, v: real, text: string)
    requires SpellsAll(ls, [Number(v)]) && StripSpaces(text) == Spelling(ls)
    ensures ParseLocalized(text) == Some(v)
  {
    hide ParseDecimal;
    hide CommaToPoint;
    var ts: seq<Token> := [Number(v)];
    assert SpellsToken(ls[0], ts[0]);
    var t := ls[0].text;
    assert ls[1..] == [];
    assert Spelling(ls) == t + "" == t;
    StripTrim(text);
    StripTrim(t);
    assert forall i :: 0 <= i < |t| ==> NumberChar(t[i]) && !IsSpace(t[i]);
    StripNothing(t);
  }

  /** A quantity written as any expression is the value of the expression. */
  lemma PrintedQuantity(tree: Node, ls: seq<Lexeme>, raw: string)
    requires SpellsAll(ls, Tokens(Parenthesize(tree))) && StripSpaces(raw) == Spelling(ls)
    ensures QuantityOf(raw) == Value(tree)
  {
    hide Spelling;
    hide StripSpaces;
    hide Trim;
    hide SpellsAll;
    hide ExpressionValue;
    var ts := Tokens(Parenthesize(tree));
    StripTrim(raw);
    PrintedExpressionValue(tree, ls, Trim(raw));
    var trimmed := Trim(raw);
    if ']' in trimmed {
      StripKeeps(trimmed, ']');
      SpellingChars(ls, ts, ']');
    }
    SpellingNotEmpty(ls, ts);
    NothingToStrip();
  }

  lemma NothingToStrip()
    ensures StripSpaces("") == ""
  {
  }

  lemma SpellingNotEmpty(ls: seq<Lexeme>, ts: seq<Token>)
    requires SpellsAll(ls, ts) && ts != []
    ensures Spelling(ls) != ""
  {
  }

  /** With [N] behind it, the value rounded to N decimals. */
  lemma PrintedRoundedQuantity(tree: Node, ls: seq<Lexeme>, raw: string, body: string, p: string, decimals: nat)
    requires SpellsAll(ls, Tokens(Parenthesize(tree))) && StripSpaces(body) == Spelling(ls)
    requires Trim(raw) == body + "[" + p + "]" && '[' !in p && Precision(Trim(p)) == Some(decimals)
    ensures QuantityOf(raw) == match Value(tree) case None => None case Some(v) => Some(RoundTo(v, decimals))
  {
    hide Spelling;
    hide StripSpaces;
    hide Trim;
    hide SpellsAll;
    hide Precision;
    hide ExpressionValue;
    StripTrim(body);
    PrintedExpressionValue(tree, ls, Trim(body));
    var trimmed := Trim(raw);
    LastIndexExact(body, '[', p + "]");
    assert trimmed == body + ['['] + (p + "]");
    assert trimmed[..|body|] == body && trimmed[|body| + 1..|trimmed| - 1] == p;
  }

  // --- quantities character by character --------------------------------------

  /** A quantity written as any expression, in literal characters and with spaces anywhere, is its value. */
  lemma WrittenQuantity(tree: Node, raw: string)
    requires Writes(StripSpaces(raw), Parenthesize(tree))
    ensures QuantityOf(raw) == Value(tree)
  {
    hide Writes;
    var ls := WrittenSpells(StripSpaces(raw), Parenthesize(tree));
    PrintedQuantity(tree, ls, raw);
  }

  lemma UnsignedChars(t: string, j: nat)
    requires ParseUnsigned(t).Some? && j < |t|
    ensures IsDigit(t[j]) || j == IndexOfChar(t, '.')
  {
    var i := IndexOfChar(t, '.');
    assert j < i ==> t[j] == t[..i][j];
    assert j > i ==> t[j] == t[i + 1..][j - i - 1];
  }

  lemma DecimalChars(s: string, j: nat)
    requires s != "" && s[0] != '-' && s[0] != '+' && '.' !in s && j < |s| && ParseDecimal(CommaToPoint(s)).Some?
    ensures NumberChar(s[j])
  {
    hide ParseUnsigned;
    var i := IndexOfChar(s, ',');
    var t := CommaToPoint(s);
    assert forall k :: 0 <= k < |s| && k != i ==> t[k] == s[k];
    assert t[0] == if i == 0 then '.' else s[0];
    UnsignedDecimal(t);
    UnsignedChars(t, j);
    assert s[j] != '.';
  }

  lemma NoOperator(text: string, c: char)
    requires !IsExpression(text) && OperatorChar(c)
    ensures c !in text
  {
    assert forall i :: 0 <= i < |text| ==> text[i] != c;
  }

  lemma NumberIffWritten(text: string, v: real)
    requires !IsExpression(text) && StripSpaces(text) != ""
    ensures ParseLocalized(text) == Some(v) <==> WritesNumber(StripSpaces(text), v)
  {
    hide ParseDecimal;
    hide CommaToPoint;
    hide WritesNumber;
    var s := StripSpaces(text);
    StripTrim(text);
    forall c | c == '.' || c == '-' || c == '+' ensures c !in s {
      StripKeeps(text, c);
      NoOperator(text, c);
    }
    assert s[0] in s;
    if ParseLocalized(text) == Some(v) {
      CommaKeepsLength(s);
      forall j | 0 <= j < |s| ensures NumberChar(s[j]) { DecimalChars(s, j); }
    }
    if WritesNumber(s, v) { WrittenChars(s, v); }
    if forall i :: 0 <= i < |s| ==> NumberChar(s[i]) {
      NumberWritten(s, v);
      NumberChars(s);
      CommaKeepsLength(s);
    }
  }

  lemma CommaKeepsLength(s: string)
    ensures |CommaToPoint(s)| == |s|
  {
  }

  /** Without a bracketed precision a text is a quantity exactly if it writes a tree that has this value. */
  lemma QuantityIffWritten(raw: string, v: real)
    requires Trim(raw) != "" && !HasPrecision(Trim(raw))
    ensures QuantityOf(raw) == Some(v) <==> exists n :: Derivable(n) && Writes(StripSpaces(raw), n) && Value(n) == Some(v)
  {
    hide StripSpaces;
    hide Trim;
    hide Meaning;
    hide ParseLocalized;
    hide Writes;
    hide HasPrecision;
    var text := Trim(raw);
    StripTrim(raw);
    forall n | Derivable(n) && Writes(StripSpaces(raw), n) ensures QuantityOf(raw) == Value(n) {
      ParenthesizeSound(n);
      WrittenQuantity(n, raw);
    }
    if QuantityOf(raw) == Some(v) {
      if IsExpression(text) {
        var n := Meaning(text).value;
        MeansIffWritten(text, n);
      } else {
        TrimmedNotEmpty(raw);
        NumberIffWritten(text, v);
        NumberWrites(StripSpaces(raw), v);
        assert Derivable(Num(v)) && Value(Num(v)) == Some(v);
      }
    }
  }

  lemma TrimmedNotEmpty(raw: string)
    requires Trim(raw) != ""
    ensures StripSpaces(raw) != ""
  {
    TrimIsTrimmed(raw);
    StripTrim(raw);
    StripKeeps(Trim(raw), Trim(raw)[0]);
  }

  /** Rounding takes the half-open interval around a last place to it: halves go up. */
  lemma RoundToIs(value: real, decimals: nat, n: int)
    requires n as real - 0.5 <= value * Pow10(decimals) < n as real + 0.5
    ensures RoundTo(value, decimals) == n as real / Pow10(decimals)
  {
    hide Pow10;
    FloorIs(Product(value, Pow10(decimals)) + 0.5, n);
  }

  lemma FloorIs(x: real, n: int)
    requires n as real <= x < n as real + 1.0
    ensures x.Floor == n
  {
  }

  /** With [N] behind it in digits, the value rounded to N decimals. */
  lemma WrittenRoundedQuantity(tree: Node, raw: string, body: string, p: string, n: int)
    requires Writes(StripSpaces(body), Parenthesize(tree)) && Trim(raw) == body + "[" + p + "]"
    requires p != "" && AllDigits(p)
    ensures Value(tree).None? ==> QuantityOf(raw).None?
    ensures var scale := Pow10(DigitsValue(p));
      Value(tree).Some? && n as real - 0.5 <= Value(tree).value * scale < n as real + 0.5 ==>
        QuantityOf(raw) == Some(n as real / scale)
  {
    hide Writes;
    hide StripSpaces;
    hide RoundTo;
    hide QuantityOf;
    hide DigitsValue;
    hide Pow10;
    hide Value;
    hide Parenthesize;
    hide Tokens;
    hide SpellsAll;
    hide Trim;
    var ls := WrittenSpells(StripSpaces(body), Parenthesize(tree));
    DigitsPrecision(p);
    PrintedRoundedQuantity(tree, ls, raw, body, p, DigitsValue(p));
    if Value(tree).Some? && n as real - 0.5 <= Value(tree).value * Pow10(DigitsValue(p)) < n as real + 0.5 {
      RoundToIs(Value(tree).value, DigitsValue(p), n);
    }
  }

  lemma DigitsPrecision(p: string)
    requires p != "" && AllDigits(p)
    ensures '[' !in p && Precision(Trim(p)) == Some(DigitsValue(p))
  {
    hide DigitsValue;
    assert IsDigit(p[0]) && IsDigit(p[|p| - 1]);
    TrimIsTrimmed(p);
    UnsignedDecimal(p);
    ParseWhole(p);
    WholeValue(p);
    PowZero();
  }

  // --- a number written as a quantity ---------------------------------------

  lemma DigitsLocalized(a: string)
    requires AllDigits(a) && a != ""
    ensures ParseLocalized(a) == Some(DigitsValue(a) as real)
  {
    hide DigitsValue;
    hide Pow10;
    assert forall i :: 0 <= i < |a| ==> IsDigit(a[i]) && !IsSpace(a[i]) && a[i] != ',';
    StripTrim(a);
    StripNothing(a);
    ParseWhole(a);
    WholeValue(a);
    assert Pow10(0) == 1.0 by { PowZero(); }
    assert IsDigit(a[0]);
  }

  lemma PowZero()
    ensures Pow10(0) == 1.0
  {
  }

  /** [-]a.b is read as a product, [-]a as a number. */
  function WrittenTree(negative: bool, a: real, b: Option<real>): Node {
    var head := if negative then Sign(true, Num(a)) else Num(a);
    if b.Some? then Bin(Times, head, Num(b.value)) else head
  }

  function WrittenLexemes(negative: bool, a: string, b: Option<string>): seq<Lexeme> {
    (if negative then [Char('-')] else []) + [Digits(a)] + if b.Some? then [Char('.'), Digits(b.value)] else []
  }

  function WrittenText(negative: bool, a: string, b: Option<string>): string {
    (if negative then "-" else "") + a + if b.Some? then "." + b.value else ""
  }

  lemma WrittenSpelling(negative: bool, a: string, b: Option<string>)
    ensures Spelling(WrittenLexemes(negative, a, b)) == WrittenText(negative, a, b)
  {
    var ls := WrittenLexemes(negative, a, b);
    var rest := if b.Some? then [Char('.'), Digits(b.value)] else [];
    assert ls[if negative then 1 else 0..] == [Digits(a)] + rest;
    assert ([Digits(a)] + rest)[1..] == rest;
    if b.Some? {
      assert rest[1..] == [Digits(b.value)] && [Digits(b.value)][1..] == [];
      assert Spelling([Digits(b.value)]) == b.value + "" == b.value;
      assert Spelling(rest) == "." + b.value;
    }
    assert Spelling([Digits(a)] + rest) == a + Spelling(rest);
  }

  lemma WrittenSpelled(negative: bool, a: string, b: Option<string>)
    requires AllDigits(a) && a != "" && (b.Some? ==> AllDigits(b.value) && b.value != "")
    ensures var y := if b.Some? then Some(DigitsValue(b.value) as real) else None;
      SpellsAll(WrittenLexemes(negative, a, b), Tokens(Parenthesize(WrittenTree(negative, DigitsValue(a) as real, y))))
  {
    hide DigitsValue;
    hide ParseLocalized;
    DigitsLocalized(a);
    assert forall i :: 0 <= i < |a| ==> NumberChar(a[i]);
    var x, y := DigitsValue(a) as real, if b.Some? then Some(DigitsValue(b.value) as real) else None;
    var tree := WrittenTree(negative, x, y);
    ParenthesizeSound(tree);
    var head := if negative then Sign(true, Num(x)) else Num(x);
    assert Derivable(Num(x)) && Derivable(head) && Level(head) == 2;
    assert Derivable(tree);
    var front: seq<Token> := if negative then [Minus, Number(x)] else [Number(x)];
    assert Tokens(head) == front;
    if b.Some? {
      DigitsLocalized(b.value);
      assert forall i :: 0 <= i < |b.value| ==> NumberChar(b.value[i]);
      assert Tokens(tree) == front + [Mul] + [Number(y.value)];
    }
  }

  lemma WrittenQuantityOf(negative: bool, a: string, b: Option<string>)
    requires AllDigits(a) && a != "" && (b.Some? ==> AllDigits(b.value) && b.value != "")
    ensures var y := if b.Some? then Some(DigitsValue(b.value) as real) else None;
      QuantityOf(WrittenText(negative, a, b)) == Value(WrittenTree(negative, DigitsValue(a) as real, y))
  {
    hide DigitsValue;
    hide ParseLocalized;
    hide Spelling;
    hide StripSpaces;
    hide QuantityOf;
    DigitsLocalized(a);
    if b.Some? { DigitsLocalized(b.value); }
    var x := DigitsValue(a) as real;
    var y := if b.Some? then Some(DigitsValue(b.value) as real) else None;
    var tree, ls := WrittenTree(negative, x, y), WrittenLexemes(negative, a, b);
    WrittenSpelled(negative, a, b);
    WrittenSpelling(negative, a, b);
    var text := WrittenText(negative, a, b);
    assert forall i :: 0 <= i < |text| ==> !IsSpace(text[i]);
    StripNothing(text);
    PrintedQuantity(tree, ls, text);
  }

  lemma LastDigit(a: string, b: string)
    requires AllDigits(a) && AllDigits(b) && b != ""
    requires AllDigits(a + b) && DigitsValue(a + b) % 10 != 0
    ensures DigitsValue(b) > 0
  {
  }

  /** a times b against a plus b ten-to-the-k-ths */
  lemma ProductIsNoSum(a: nat, b: nat, p: real)
    requires b > 0 && p > b as real
    ensures Product(a as real, b as real) != a as real + b as real / p
  {
    var f := b as real / p;
    assert 0.0 < f < 1.0 by { FractionBound(b as real, p); }
    assert Product(a as real, b as real) == (a * b) as real;
    var n := a * b - a;
    assert n as real == (a * b) as real - a as real;
  }

  lemma FractionBound(x: real, p: real)
    requires 0.0 < x < p
    ensures 0.0 < x / p < 1.0
  {
    RatioBound(x / p, x, p);
  }

  lemma RatioBound(q: real, x: real, p: real)
    requires 0.0 < x < p && q * p == x
    ensures 0.0 < q < 1.0
  {
    if q >= 1.0 {
      Distributes(q - 1.0, 1.0, p);
      NonNegativeProduct(q - 1.0, p);
    } else if q <= 0.0 {
      Distributes(q, -q, p);
      NonNegativeProduct(-q, p);
    }
  }

  lemma Distributes(a: real, b: real, p: real)
    ensures (a + b) * p == a * p + b * p
  {
  }

  lemma NonNegativeProduct(x: real, y: real)
    requires x >= 0.0 && y >= 0.0
    ensures x * y >= 0.0
  {
  }

  /** The written number, its digits cut at the point. */
  lemma WrittenNumber(d: Decimal) returns (a: string, b: Option<string>)
    ensures AllDigits(a) && a != "" && b.Some? == (d.scale > 0)
    ensures b.Some? ==> AllDigits(b.value) && |b.value| == d.scale && a + b.value == d.Digits()
    ensures b.None? ==> a == d.Digits()
    ensures NumberText(d) == WrittenText(d.mantissa < 0, a, b)
  {
    hide DigitsText;
    hide DigitsValue;
    var digits := d.Digits();
    DigitsTextValue(if d.mantissa < 0 then -d.mantissa else d.mantissa, d.scale + 1);
    if d.scale == 0 {
      a, b := digits, None;
    } else {
      a, b := digits[..|digits| - d.scale], Some(digits[|digits| - d.scale..]);
    }
  }

  /** A number cut at the point is its whole part and its fraction, which is not zero. */
  lemma FractionSum(m: nat, a: string, b: string)
    requires AllDigits(a) && AllDigits(b) && b != "" && AllDigits(a + b)
    requires DigitsValue(a + b) == m && m % 10 != 0
    ensures 0 < DigitsValue(b) && DigitsValue(b) as real < Pow10(|b|)
    ensures m as real / Pow10(|b|) == DigitsValue(a) as real + DigitsValue(b) as real / Pow10(|b|)
  {
    hide DigitsValue;
    hide Pow10;
    hide Shifted;
    hide TenTo;
    LastDigit(a, b);
    DigitsBound(b);
    TenToIsPow10(|b|);
    DigitsSplit(a, b);
    ShiftedBack(DigitsValue(a), |b|);
    DivideSum(Shifted(DigitsValue(a), |b|) as real, DigitsValue(b) as real, Pow10(|b|));
  }

  lemma SignedValue(d: Decimal)
    ensures var m := if d.mantissa < 0 then -d.mantissa else d.mantissa;
      && d.Value() == (if d.mantissa < 0 then -(m as real / Pow10(d.scale)) else m as real / Pow10(d.scale))
      && (d.scale == 0 ==> d.Value() == d.mantissa as real)
  {
  }

  lemma WholeWritten(d: Decimal, a: string)
    requires d.scale == 0 && AllDigits(a) && a != "" && a == d.Digits()
    ensures Value(WrittenTree(d.mantissa < 0, DigitsValue(a) as real, None)) == Some(d.Value())
  {
    hide DigitsText;
    hide Value;
    hide WrittenTree;
    SignedValue(d);
    WrittenValue(d.mantissa < 0, DigitsValue(a) as real, None);
    DigitsTextValue(if d.mantissa < 0 then -d.mantissa else d.mantissa, d.scale + 1);
  }

  lemma FractionWritten(d: Decimal, a: string, b: string)
    requires d.scale > 0 && d.Canonical() && AllDigits(a) && AllDigits(b) && b != "" && |b| == d.scale && a + b == d.Digits()
    ensures var r := Value(WrittenTree(d.mantissa < 0, DigitsValue(a) as real, Some(DigitsValue(b) as real)));
      r.Some? && r != Some(d.Value())
  {
    hide DigitsText;
    hide DigitsValue;
    hide Value;
    hide WrittenTree;
    hide Pow10;
    var x, y := DigitsValue(a), DigitsValue(b);
    SignedValue(d);
    WrittenValue(d.mantissa < 0, x as real, Some(y as real));
    var m := if d.mantissa < 0 then -d.mantissa else d.mantissa;
    DigitsTextValue(m, d.scale + 1);
    FractionSum(m, a, b);
    ProductIsNoSum(x, y, Pow10(d.scale));
    ProductNegated(x as real, y as real);
  }

  /**
    A quantity that has no text of its own is written as its number. Read back it is the
    same quantity exactly when it is whole: the point is a multiplication sign.
   */
  lemma WrittenQuantityIffWhole(d: Decimal)
    requires d.Canonical()
    ensures QuantityOf(NumberText(d)).Some?
    ensures QuantityOf(NumberText(d)) == Some(d.Value()) <==> d.scale == 0
  {
    hide QuantityOf;
    hide NumberText;
    hide DigitsValue;
    hide DigitsText;
    hide Pow10;
    hide Value;
    hide WrittenTree;
    var a, b := WrittenNumber(d);
    WrittenQuantityOf(d.mantissa < 0, a, b);
    if b.None? {
      WholeWritten(d, a);
    } else {
      FractionWritten(d, a, b.value);
    }
  }

  lemma WrittenValue(negative: bool, a: real, b: Option<real>)
    ensures Value(WrittenTree(negative, a, b))
            == Some(var x := if negative then -a else a; if b.Some? then Product(x, b.value) else x)
  {
    var head := if negative then Sign(true, Num(a)) else Num(a);
    assert Value(head) == Some(if negative then -a else a);
  }

  lemma ProductNegated(x: real, y: real)
    ensures Product(-x, y) == -Product(x, y)
  {
  }
}
