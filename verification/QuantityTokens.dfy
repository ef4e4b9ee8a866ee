/** The tokenizer of quantity expressions (web/app.js), and the texts that spell an expression. */
module QuantityTokens {
  import opened Text
  import opened Numbers
  import opened Wrappers
  import opened QuantityGrammar

  // --- the tokenizer --------------------------------------------------------

  /** s.replace(/\s/g, "") */
  function StripSpaces(s: string): string {
    if s == "" then "" else (if IsSpace(s[0]) then "" else [s[0]]) + StripSpaces(s[1..])
  }

  /** parseSourceDataLocalizedNumber: the first comma is the decimal point */
  function ParseLocalized(raw: string): Option<real> {
    var normalized := CommaToPoint(StripSpaces(Trim(raw)));
    if normalized == "" then Some(0.0) else ParseDecimal(normalized)
  }

  function CommaToPoint(s: string): string {
    var i := IndexOfChar(s, ',');
    if i < |s| then s[i := '.'] else s
  }

  function Symbol(c: char): Option<Token> {
    if c == '+' then Some(Plus)
    else if c == '-' then Some(Minus)
    else if c == '*' || c == '.' then Some(Mul)
    else if c == '/' || c == ':' then Some(Div)
    else if c == '(' then Some(LParen)
    else if c == ')' then Some(RParen)
    else None
  }

  predicate NumberChar(c: char) {
    IsDigit(c) || c == ','
  }

  /** Length of the run of digits and commas at the front. */
  function NumberRun(s: string): (k: nat)
    ensures k <= |s|
    ensures forall i :: 0 <= i < k ==> NumberChar(s[i])
    ensures k < |s| ==> !NumberChar(s[k])
  {
    if s == "" || !NumberChar(s[0]) then 0 else 1 + NumberRun(s[1..])
  }

  /** The tokens of a text without spaces, left to right. */
  function Lex(s: string): Result<seq<Token>>
    decreases |s|
  {
    if s == "" then Ok([])
    else if Symbol(s[0]).Some? then Before([Symbol(s[0]).value], Lex(s[1..]))
    else if NumberChar(s[0]) then
      var k := NumberRun(s);
      (match ParseLocalized(s[..k])
       case None => Err(InvalidNumber)
       case Some(v) => Before([Number(v)], Lex(s[k..])))
    else Err(InvalidCharacter)
  }

  function Before(ts: seq<Token>, rest: Result<seq<Token>>): Result<seq<Token>> {
    match rest
    case Ok(more) => Ok(ts + more)
    case Err(e) => Err(e)
  }

  lemma BeforeTwice(a: seq<Token>, b: seq<Token>, rest: Result<seq<Token>>)
    ensures Before(a, Before(b, rest)) == Before(a + b, rest)
  {
    if rest.Ok? {
      assert a + (b + rest.value) == (a + b) + rest.value;
    }
  }

  /** One symbol or one whole run of number characters. */
  method NextToken(s: string, index: nat) returns (token: Result<Token>, next: nat)
    requires index < |s|
    ensures index <= next <= |s|
    ensures token.Ok? ==> index < next && Lex(s[index..]) == Before([token.value], Lex(s[next..]))
    ensures token.Err? ==> Lex(s[index..]) == Err(token.error)
  {
    hide ParseLocalized;
    var ch := s[index];
    var rest := s[index..];
    if Symbol(ch).Some? {
      next := index + 1;
      assert rest[1..] == s[next..];
      return Ok(Symbol(ch).value), next;
    }
    if NumberChar(ch) {
      next := index;
      while next < |s| && NumberChar(s[next])
        invariant index <= next <= |s|
        invariant NumberRun(rest) == next - index + NumberRun(s[next..])
      {
        assert s[next..][1..] == s[next + 1..];
        next := next + 1;
      }
      assert rest[..next - index] == s[index..next] && rest[next - index..] == s[next..];
      var value := ParseLocalized(s[index..next]);
      if value.None? {
        return Err(InvalidNumber), next;
      }
      return Ok(Number(value.value)), next;
    }
    return Err(InvalidCharacter), index;
  }

  method Tokenize(expr: string) returns (r: Result<seq<Token>>)
    ensures r == if StripSpaces(Trim(expr)) == "" then Err(EmptyExpression) else Lex(StripSpaces(Trim(expr)))
  {
    hide Lex;
    var normalized := StripSpaces(Trim(expr));
    if normalized == "" {
      return Err(EmptyExpression);
    }
    var tokens: seq<Token> := [];
    var index := 0;
    assert normalized[0..] == normalized;
    BeforeNothing(Lex(normalized));
    while index < |normalized|
      invariant index <= |normalized|
      invariant Lex(normalized) == Before(tokens, Lex(normalized[index..]))
    {
      var token, next := NextToken(normalized, index);
      if token.Err? {
        return Err(token.error);
      }
      BeforeTwice(tokens, [token.value], Lex(normalized[next..]));
      tokens := tokens + [token.value];
      index := next;
    }
    assert normalized[index..] == "";
    LexNothing();
    assert tokens + [] == tokens;
    return Ok(tokens);
  }

  lemma BeforeNothing(rest: Result<seq<Token>>)
    ensures Before([], rest) == rest
  {
    if rest.Ok? { assert [] + rest.value == rest.value; }
  }

  lemma LexNothing()
    ensures Lex("") == Ok([])
  {
  }

  /** The value a text stands for, if it is an expression and nothing is divided by zero. */
  function Meaning(expr: string): Option<Node> {
    match Lex(StripSpaces(Trim(expr)))
    case Err(_) => None
    case Ok(ts) => ParseTree(ts)
  }

  /** evaluateSourceDataQuantityExpression */
  method EvaluateExpression(expr: string) returns (r: Result<real>)
    ensures r.Ok? <==> Meaning(expr).Some? && Value(Meaning(expr).value).Some?
    ensures r.Ok? ==> Value(Meaning(expr).value) == Some(r.value)
    ensures Meaning(expr).Some? && r.Err? ==> r.error == DivisionByZero
  {
    hide Lex;
    hide StripSpaces;
    hide Trim;
    NothingIsNoExpression();
    var tokenized := Tokenize(expr);
    if tokenized.Err? {
      return Err(tokenized.error);
    }
    var evaluator := new Evaluator(tokenized.value);
    r := evaluator.ParseExpression();
    if r.Err? {
      return;
    }
    if evaluator.position != |tokenized.value| {
      return Err(TrailingInput);
    }
  }

  lemma NothingIsNoExpression()
    ensures Lex("") == Ok([]) && ParseTree([]).None?
  {
  }

  // --- every spelling of a tree evaluates to its value -----------------------

  /** One symbol character, or one number as digits and commas. */
  datatype Lexeme = Char(c: char) | Digits(text: string)

  predicate SpellsToken(l: Lexeme, t: Token) {
    match l
    case Char(c) => Symbol(c) == Some(t)
    case Digits(text) =>
      && text != "" && (forall i :: 0 <= i < |text| ==> NumberChar(text[i]))
      && t.Number? && ParseLocalized(text) == Some(t.value)
  }

  predicate SpellsAll(ls: seq<Lexeme>, ts: seq<Token>) {
    |ls| == |ts| && forall i :: 0 <= i < |ls| ==> SpellsToken(ls[i], ts[i])
  }

  function LexemeText(l: Lexeme): string {
    if l.Char? then [l.c] else l.text
  }

  function Spelling(ls: seq<Lexeme>): string {
    if ls == [] then "" else LexemeText(ls[0]) + Spelling(ls[1..])
  }

  /** No two numbers side by side, where their digits would run together. */
  predicate Separated(ts: seq<Token>) {
    forall i :: 0 <= i < |ts| - 1 ==> !(ts[i].Number? && ts[i + 1].Number?)
  }

  /** A printed tree never puts two numbers side by side. */
  lemma {:induction false} PrintedSeparated(n: Node)
    ensures Separated(Tokens(n))
  {
    match n
    case Num(_) =>
    case Sign(_, a) =>
      PrintedSeparated(a);
      ApartJoin([SignToken(n.negative)], Tokens(a));
    case Group(e) =>
      PrintedSeparated(e);
      ApartJoin([LParen], Tokens(e));
      ApartJoin([LParen] + Tokens(e), [RParen]);
    case Bin(op, l, r) =>
      PrintedSeparated(l);
      PrintedSeparated(r);
      ApartJoin(Tokens(l), [OpToken(op)]);
      ApartJoin(Tokens(l) + [OpToken(op)], Tokens(r));
  }

  lemma ApartJoin(a: seq<Token>, b: seq<Token>)
    requires Separated(a) && Separated(b) && a != [] && b != []
    requires !(a[|a| - 1].Number? && b[0].Number?)
    ensures Separated(a + b)
  {
  }

  lemma {:induction false} NumberRunExact(text: string, rest: string)
    requires forall i :: 0 <= i < |text| ==> NumberChar(text[i])
    requires rest == "" || !NumberChar(rest[0])
    ensures NumberRun(text + rest) == |text|
  {
    if text == "" {
      assert text + rest == rest;
    } else {
      assert (text + rest)[1..] == text[1..] + rest;
      NumberRunExact(text[1..], rest);
    }
  }

  /** One spelled token in front of something it cannot run into. */
  lemma LexLexeme(l: Lexeme, t: Token, rest: string)
    requires SpellsToken(l, t)
    requires l.Digits? ==> rest == "" || !NumberChar(rest[0])
    ensures Lex(LexemeText(l) + rest) == Before([t], Lex(rest))
  {
    hide ParseLocalized;
    var text := LexemeText(l);
    var s := text + rest;
    assert s[|text|..] == rest && s[..|text|] == text && s[0] == text[0];
    if l.Digits? {
      NumberRunExact(text, rest);
    }
  }

  lemma SpellingHead(ls: seq<Lexeme>, ts: seq<Token>)
    requires SpellsAll(ls, ts) && ls != []
    ensures Spelling(ls) != "" && (ts[0].Number? || !NumberChar(Spelling(ls)[0]))
  {
  }

  lemma SpellsRest(ls: seq<Lexeme>, ts: seq<Token>)
    requires SpellsAll(ls, ts) && Separated(ts) && ls != []
    ensures SpellsToken(ls[0], ts[0]) && SpellsAll(ls[1..], ts[1..]) && Separated(ts[1..])
    ensures ls[0].Digits? ==> ts[0].Number?
    ensures |ls| > 1 && ls[0].Digits? ==> !ts[1..][0].Number?
  {
  }

  /** Any spelling of separated tokens is read back as those tokens. */
  lemma {:induction false} LexSpelling(ls: seq<Lexeme>, ts: seq<Token>)
    requires SpellsAll(ls, ts) && Separated(ts)
    ensures Lex(Spelling(ls)) == Ok(ts)
  {
    hide Lex;
    hide SpellsToken;
    hide Separated;
    hide NumberChar;
    if ls == [] {
      LexNothing();
    } else {
      SpellsRest(ls, ts);
      LexSpelling(ls[1..], ts[1..]);
      if |ls| > 1 {
        SpellingHead(ls[1..], ts[1..]);
      }
      LexLexeme(ls[0], ts[0], Spelling(ls[1..]));
      assert ts == [ts[0]] + ts[1..];
    }
  }

  lemma {:induction false} StripKeeps(s: string, c: char)
    requires !IsSpace(c)
    ensures c in StripSpaces(s) <==> c in s
  {
    if s != "" { StripKeeps(s[1..], c); }
  }

  lemma {:induction false} StripNothing(s: string)
    requires forall i :: 0 <= i < |s| ==> !IsSpace(s[i])
    ensures StripSpaces(s) == s
  {
    if s != "" { StripNothing(s[1..]); }
  }

  lemma {:induction false} StripTrimLeft(s: string)
    ensures StripSpaces(TrimLeft(s)) == StripSpaces(s)
  {
    if s != "" && IsSpace(s[0]) { StripTrimLeft(s[1..]); }
  }

  lemma {:induction false} StripSnoc(s: string, c: char)
    requires IsSpace(c)
    ensures StripSpaces(s + [c]) == StripSpaces(s)
  {
    if s != "" {
      assert (s + [c])[1..] == s[1..] + [c];
      StripSnoc(s[1..], c);
    }
  }

  lemma {:induction false} StripTrimRight(s: string)
    ensures StripSpaces(TrimRight(s)) == StripSpaces(s)
  {
    if s != "" && IsSpace(s[|s| - 1]) {
      var t := s[..|s| - 1];
      StripTrimRight(t);
      StripSnoc(t, s[|s| - 1]);
      assert s == t + [s[|s| - 1]];
    }
  }

  /** Spaces anywhere in the text do not matter. */
  lemma StripTrim(s: string)
    ensures StripSpaces(Trim(s)) == StripSpaces(s)
  {
    StripTrimLeft(s);
    StripTrimRight(TrimLeft(s));
  }

  /**
    Take any expression tree, put in the parentheses it needs, spell its tokens in any way and
    put spaces anywhere: the text means a tree of the same value, the one printed.
   */
  lemma PrintedTreeMeans(tree: Node, ls: seq<Lexeme>, text: string)
    requires SpellsAll(ls, Tokens(Parenthesize(tree))) && StripSpaces(text) == Spelling(ls)
    ensures Meaning(text) == Some(Parenthesize(tree))
    ensures Value(Meaning(text).value) == Value(tree)
  {
    hide Lex;
    hide Spelling;
    hide StripSpaces;
    var n := Parenthesize(tree);
    ParenthesizeSound(tree);
    PrintedSeparated(n);
    LexSpelling(ls, Tokens(n));
    StripTrim(text);
    ParseTreeIff(Tokens(n), n);
  }

  /** Conversely a text with a meaning is a spelling of exactly one derivation. */
  lemma MeaningUnique(text: string, n: Node)
    requires Lex(StripSpaces(text)).Ok?
    ensures Meaning(text) == Some(n) <==> Derivable(n) && Tokens(n) == Lex(StripSpaces(text)).value
  {
    hide Lex;
    hide StripSpaces;
    StripTrim(text);
    ParseTreeIff(Lex(StripSpaces(text)).value, n);
  }
}
