/**
  Quantity expressions of the estimate text (web/app.js): their grammar, and the recursive-descent
  evaluator with its shared cursor.
 */
module QuantityGrammar {
  import opened Numbers
  import opened Wrappers

  datatype Token = Plus | Minus | Mul | Div | LParen | RParen | Number(value: real)

  datatype Error = EmptyExpression | InvalidCharacter | InvalidNumber | UnexpectedEnd | UnexpectedToken
                 | MissingParenthesis | TrailingInput | DivisionByZero | InvalidPrecision
  datatype Result<+T> = Ok(value: T) | Err(error: Error)

  // --- the grammar ----------------------------------------------------------

  datatype Op = Add | Sub | Times | Over

  /** Derivation trees. A group is a pair of parentheses. */
  datatype Node = Num(number: real) | Sign(negative: bool, arg: Node) | Group(inner: Node)
                | Bin(op: Op, left: Node, right: Node)

  function OpLevel(op: Op): nat {
    if op == Add || op == Sub then 0 else 1
  }

  /** 0 for sums, 1 for products, 2 for factors */
  function Level(n: Node): nat {
    if n.Bin? then OpLevel(n.op) else 2
  }

  /** Derivable without further parentheses: operators of one level associate to the left. */
  predicate Derivable(n: Node) {
    match n
    case Num(_) => true
    case Sign(_, a) => Derivable(a) && Level(a) == 2
    case Group(e) => Derivable(e)
    case Bin(op, l, r) => Derivable(l) && Derivable(r) && Level(l) >= OpLevel(op) && Level(r) > OpLevel(op)
  }

  function OpToken(op: Op): Token {
    match op
    case Add => Plus
    case Sub => Minus
    case Times => Mul
    case Over => Div
  }

  function SignToken(negative: bool): Token {
    if negative then Minus else Plus
  }

  /** The tokens a tree is printed as. */
  function Tokens(n: Node): (ts: seq<Token>)
    ensures |ts| >= 1
  {
    match n
    case Num(v) => [Number(v)]
    case Sign(s, a) => [SignToken(s)] + Tokens(a)
    case Group(e) => [LParen] + Tokens(e) + [RParen]
    case Bin(op, l, r) => Tokens(l) + [OpToken(op)] + Tokens(r)
  }

  function Compute(op: Op, x: real, y: real): Option<real> {
    match op
    case Add => Some(x + y)
    case Sub => Some(x - y)
    case Times => Some(Product(x, y))
    case Over => if y == 0.0 then None else Some(Quotient(x, y))
  }

  function Product(x: real, y: real): real {
    x * y
  }

  function Quotient(x: real, y: real): real
    requires y != 0.0
  {
    x / y
  }

  /** The arithmetic value; none when there is a division by zero. */
  function Value(n: Node): Option<real> {
    match n
    case Num(v) => Some(v)
    case Sign(s, a) => (match Value(a) case None => None case Some(v) => Some(if s then -v else v))
    case Group(e) => Value(e)
    case Bin(op, l, r) => (match (Value(l), Value(r)) case (Some(x), Some(y)) => Compute(op, x, y) case _ => None)
  }

  // --- trees printed with the parentheses they need --------------------------

  function AtLevel(n: Node, level: nat): Node {
    if Level(n) >= level then n else Group(n)
  }

  function Parenthesize(n: Node): Node {
    match n
    case Num(_) => n
    case Sign(s, a) => Sign(s, AtLevel(Parenthesize(a), 2))
    case Group(e) => Group(Parenthesize(e))
    case Bin(op, l, r) =>
      Bin(op, AtLevel(Parenthesize(l), OpLevel(op)), AtLevel(Parenthesize(r), OpLevel(op) + 1))
  }

  /** Any tree becomes derivable with the same value; a derivable one gets no parentheses at all. */
  lemma {:induction false} ParenthesizeSound(n: Node)
    ensures Derivable(Parenthesize(n)) && Value(Parenthesize(n)) == Value(n)
    ensures Level(Parenthesize(n)) == Level(n)
    ensures Derivable(n) ==> Parenthesize(n) == n
  {
    match n
    case Num(_) =>
    case Sign(_, a) => ParenthesizeSound(a);
    case Group(e) => ParenthesizeSound(e);
    case Bin(_, l, r) => ParenthesizeSound(l); ParenthesizeSound(r);
  }

  // --- recursive descent to trees -------------------------------------------

  datatype Parsed = Fail | Parsed(node: Node, next: nat)

  function TermOp(t: Token): Option<Op> {
    match t
    case Mul => Some(Times)
    case Div => Some(Over)
    case _ => None
  }

  function ExprOp(t: Token): Option<Op> {
    match t
    case Plus => Some(Add)
    case Minus => Some(Sub)
    case _ => None
  }

  function ParseF(ts: seq<Token>, pos: nat): (r: Parsed)
    ensures r.Parsed? ==> pos < r.next <= |ts|
    decreases |ts| - pos, 0
  {
    if pos >= |ts| then Fail
    else match ts[pos]
      case Plus => (match ParseF(ts, pos + 1) case Fail => Fail case Parsed(a, q) => Parsed(Sign(false, a), q))
      case Minus => (match ParseF(ts, pos + 1) case Fail => Fail case Parsed(a, q) => Parsed(Sign(true, a), q))
      case LParen =>
        (match ParseE(ts, pos + 1)
         case Fail => Fail
         case Parsed(e, q) => if q < |ts| && ts[q] == RParen then Parsed(Group(e), q + 1) else Fail)
      case Number(v) => Parsed(Num(v), pos + 1)
      case _ => Fail
  }

  function ParseT(ts: seq<Token>, pos: nat): (r: Parsed)
    ensures r.Parsed? ==> pos < r.next <= |ts|
    decreases |ts| - pos, 1
  {
    match ParseF(ts, pos) case Fail => Fail case Parsed(a, q) => TermTail(ts, q, a)
  }

  function TermTail(ts: seq<Token>, pos: nat, left: Node): (r: Parsed)
    requires pos <= |ts|
    ensures r.Parsed? ==> pos <= r.next <= |ts|
    decreases |ts| - pos, 0
  {
    if pos < |ts| && TermOp(ts[pos]).Some?
    then (match ParseF(ts, pos + 1)
          case Fail => Fail
          case Parsed(b, q) => TermTail(ts, q, Bin(TermOp(ts[pos]).value, left, b)))
    else Parsed(left, pos)
  }

  function ParseE(ts: seq<Token>, pos: nat): (r: Parsed)
    ensures r.Parsed? ==> pos < r.next <= |ts|
    decreases |ts| - pos, 2
  {
    match ParseT(ts, pos) case Fail => Fail case Parsed(a, q) => ExprTail(ts, q, a)
  }

  function ExprTail(ts: seq<Token>, pos: nat, left: Node): (r: Parsed)
    requires pos <= |ts|
    ensures r.Parsed? ==> pos <= r.next <= |ts|
    decreases |ts| - pos, 0
  {
    if pos < |ts| && ExprOp(ts[pos]).Some?
    then (match ParseT(ts, pos + 1)
          case Fail => Fail
          case Parsed(b, q) => ExprTail(ts, q, Bin(ExprOp(ts[pos]).value, left, b)))
    else Parsed(left, pos)
  }

  function ParseTree(ts: seq<Token>): Option<Node> {
    match ParseE(ts, 0)
    case Fail => None
    case Parsed(n, q) => if q == |ts| then Some(n) else None
  }

  /** The tokens of n stand in ts from pos. */
  predicate StandsAt(ts: seq<Token>, pos: nat, n: Node) {
    pos + |Tokens(n)| <= |ts| && ts[pos..pos + |Tokens(n)|] == Tokens(n)
  }

  lemma SliceOf(ts: seq<Token>, pos: nat, t: seq<Token>, a: nat, b: nat)
    requires pos + |t| <= |ts| && ts[pos..pos + |t|] == t && a <= b <= |t|
    ensures ts[pos + a..pos + b] == t[a..b]
  {
    forall i | a <= i < b ensures ts[pos + i] == t[i] {
      assert ts[pos + i] == ts[pos..pos + |t|][i];
    }
  }

  lemma SliceJoin(ts: seq<Token>, a: nat, b: nat, c: nat)
    requires a <= b < c <= |ts|
    ensures ts[a..b] + [ts[b]] + ts[b + 1..c] == ts[a..c]
  {
  }

  lemma SignAt(ts: seq<Token>, pos: nat, n: Node)
    requires n.Sign? && StandsAt(ts, pos, n)
    ensures ts[pos] == SignToken(n.negative) && StandsAt(ts, pos + 1, n.arg)
  {
  }

  lemma GroupAt(ts: seq<Token>, pos: nat, n: Node)
    requires n.Group? && StandsAt(ts, pos, n)
    ensures ts[pos] == LParen && StandsAt(ts, pos + 1, n.inner)
    ensures pos + |Tokens(n)| == pos + |Tokens(n.inner)| + 2 && ts[pos + 1 + |Tokens(n.inner)|] == RParen
  {
    var t, k := Tokens(n), |Tokens(n.inner)|;
    assert ts[pos] == ts[pos..pos + |t|][0] == t[0];
    assert ts[pos + 1 + k] == ts[pos..pos + |t|][1 + k] == t[1 + k];
    SliceOf(ts, pos, t, 1, 1 + k);
    assert t[1..1 + k] == Tokens(n.inner);
  }

  lemma BinTokens(n: Node)
    requires n.Bin?
    ensures var t, k := Tokens(n), |Tokens(n.left)|;
      && |t| == k + 1 + |Tokens(n.right)|
      && t[..k] == Tokens(n.left) && t[k] == OpToken(n.op) && t[k + 1..] == Tokens(n.right)
  {
  }

  lemma BinAt(ts: seq<Token>, pos: nat, n: Node)
    requires n.Bin? && StandsAt(ts, pos, n)
    ensures StandsAt(ts, pos, n.left) && ts[pos + |Tokens(n.left)|] == OpToken(n.op)
    ensures StandsAt(ts, pos + |Tokens(n.left)| + 1, n.right)
    ensures |Tokens(n)| == |Tokens(n.left)| + 1 + |Tokens(n.right)|
  {
    hide Tokens;
    BinTokens(n);
    var t, k := Tokens(n), |Tokens(n.left)|;
    assert ts[pos + k] == ts[pos..pos + |t|][k] == t[k];
    SliceOf(ts, pos, t, 0, k);
    SliceOf(ts, pos, t, k + 1, |t|);
  }

  lemma {:induction false} FactorComplete(ts: seq<Token>, pos: nat, n: Node)
    requires Derivable(n) && Level(n) == 2 && StandsAt(ts, pos, n)
    ensures ParseF(ts, pos) == Parsed(n, pos + |Tokens(n)|)
    decreases n, 0
  {
    match n
    case Num(_) =>
      assert ts[pos] == ts[pos..pos + 1][0];
    case Sign(_, a) =>
      SignAt(ts, pos, n);
      FactorComplete(ts, pos + 1, a);
    case Group(e) =>
      GroupAt(ts, pos, n);
      ExprComplete(ts, pos + 1, e);
  }

  lemma {:induction false} TermComplete(ts: seq<Token>, pos: nat, n: Node)
    requires Derivable(n) && Level(n) >= 1 && StandsAt(ts, pos, n)
    ensures ParseT(ts, pos) == TermTail(ts, pos + |Tokens(n)|, n)
    decreases n, 1
  {
    hide Tokens;
    hide StandsAt;
    if Level(n) == 2 {
      FactorComplete(ts, pos, n);
    } else {
      BinAt(ts, pos, n);
      TermComplete(ts, pos, n.left);
      FactorComplete(ts, pos + |Tokens(n.left)| + 1, n.right);
    }
  }

  lemma {:induction false} ExprComplete(ts: seq<Token>, pos: nat, n: Node)
    requires Derivable(n) && StandsAt(ts, pos, n)
    requires var q := pos + |Tokens(n)|; q < |ts| ==> TermOp(ts[q]).None?
    ensures ParseE(ts, pos) == ExprTail(ts, pos + |Tokens(n)|, n)
    decreases n, 2
  {
    hide Tokens;
    hide StandsAt;
    if Level(n) >= 1 {
      TermComplete(ts, pos, n);
    } else {
      BinAt(ts, pos, n);
      ExprComplete(ts, pos, n.left);
      TermComplete(ts, pos + |Tokens(n.left)| + 1, n.right);
    }
  }

  /** What a parse from start to the cursor has built so far. */
  ghost predicate Built(ts: seq<Token>, start: nat, p: Parsed, level: nat) {
    p.Parsed? ==>
      start <= p.next <= |ts| && Derivable(p.node) && Level(p.node) >= level && Tokens(p.node) == ts[start..p.next]
  }

  lemma {:induction false} FactorSound(ts: seq<Token>, pos: nat)
    ensures Built(ts, pos, ParseF(ts, pos), 2)
    decreases |ts| - pos, 0
  {
    if pos < |ts| && ParseF(ts, pos).Parsed? {
      match ts[pos]
      case Plus =>
        FactorSound(ts, pos + 1);
        SliceJoin(ts, pos, pos, ParseF(ts, pos).next);
      case Minus =>
        FactorSound(ts, pos + 1);
        SliceJoin(ts, pos, pos, ParseF(ts, pos).next);
      case LParen =>
        ExprSound(ts, pos + 1);
        var q := ParseE(ts, pos + 1).next;
        SliceJoin(ts, pos, pos, q);
        SliceJoin(ts, pos, q, q + 1);
        assert ts[q + 1..q + 1] == [];
      case _ =>
    }
  }

  lemma {:induction false} TermTailSound(ts: seq<Token>, start: nat, pos: nat, left: Node)
    requires Built(ts, start, Parsed(left, pos), 1) && pos <= |ts|
    ensures Built(ts, start, TermTail(ts, pos, left), 1)
    decreases |ts| - pos, 0
  {
    if pos < |ts| && TermOp(ts[pos]).Some? && ParseF(ts, pos + 1).Parsed? {
      FactorSound(ts, pos + 1);
      var p := ParseF(ts, pos + 1);
      var n := Bin(TermOp(ts[pos]).value, left, p.node);
      SliceJoin(ts, start, pos, p.next);
      TermTailSound(ts, start, p.next, n);
    }
  }

  lemma {:induction false} TermSound(ts: seq<Token>, pos: nat)
    ensures Built(ts, pos, ParseT(ts, pos), 1)
    decreases |ts| - pos, 1
  {
    FactorSound(ts, pos);
    if ParseF(ts, pos).Parsed? {
      TermTailSound(ts, pos, ParseF(ts, pos).next, ParseF(ts, pos).node);
    }
  }

  lemma {:induction false} ExprTailSound(ts: seq<Token>, start: nat, pos: nat, left: Node)
    requires Built(ts, start, Parsed(left, pos), 0) && pos <= |ts|
    ensures Built(ts, start, ExprTail(ts, pos, left), 0)
    decreases |ts| - pos, 0
  {
    if pos < |ts| && ExprOp(ts[pos]).Some? && ParseT(ts, pos + 1).Parsed? {
      TermSound(ts, pos + 1);
      var p := ParseT(ts, pos + 1);
      var n := Bin(ExprOp(ts[pos]).value, left, p.node);
      SliceJoin(ts, start, pos, p.next);
      ExprTailSound(ts, start, p.next, n);
    }
  }

  lemma {:induction false} ExprSound(ts: seq<Token>, pos: nat)
    ensures Built(ts, pos, ParseE(ts, pos), 0)
    decreases |ts| - pos, 2
  {
    TermSound(ts, pos);
    if ParseT(ts, pos).Parsed? {
      ExprTailSound(ts, pos, ParseT(ts, pos).next, ParseT(ts, pos).node);
    }
  }

  /** The descent accepts exactly the derivable token sequences, with their derivation. */
  lemma ParseTreeIff(ts: seq<Token>, n: Node)
    ensures ParseTree(ts) == Some(n) <==> Derivable(n) && Tokens(n) == ts
  {
    if Derivable(n) && Tokens(n) == ts {
      assert ts[0..|ts|] == ts;
      ExprComplete(ts, 0, n);
    }
    if ParseTree(ts) == Some(n) {
      ExprSound(ts, 0);
      assert ts[0..|ts|] == ts;
    }
  }

  /** The grammar is unambiguous. */
  lemma UniqueDerivation(n: Node, m: Node)
    requires Derivable(n) && Derivable(m) && Tokens(n) == Tokens(m)
    ensures n == m
  {
    ParseTreeIff(Tokens(n), n);
    ParseTreeIff(Tokens(m), m);
  }

  // --- the evaluator --------------------------------------------------------

  /** Evaluation that stopped at the cursor against the tree of the same tokens. */
  ghost predicate Agrees(r: Result<real>, cursor: nat, p: Parsed) {
    match r
    case Ok(v) => p.Parsed? && p.next == cursor && Value(p.node) == Some(v)
    case Err(e) => p.Fail? || (Value(p.node).None? && e == DivisionByZero)
  }

  lemma {:induction false} TermTailUndefined(ts: seq<Token>, pos: nat, left: Node)
    requires pos <= |ts| && Value(left).None?
    ensures TermTail(ts, pos, left).Parsed? ==> Value(TermTail(ts, pos, left).node).None?
    decreases |ts| - pos
  {
    if pos < |ts| && TermOp(ts[pos]).Some? && ParseF(ts, pos + 1).Parsed? {
      var p := ParseF(ts, pos + 1);
      TermTailUndefined(ts, p.next, Bin(TermOp(ts[pos]).value, left, p.node));
    }
  }

  lemma {:induction false} ExprTailUndefined(ts: seq<Token>, pos: nat, left: Node)
    requires pos <= |ts| && Value(left).None?
    ensures ExprTail(ts, pos, left).Parsed? ==> Value(ExprTail(ts, pos, left).node).None?
    decreases |ts| - pos
  {
    if pos < |ts| && ExprOp(ts[pos]).Some? && ParseT(ts, pos + 1).Parsed? {
      var p := ParseT(ts, pos + 1);
      ExprTailUndefined(ts, p.next, Bin(ExprOp(ts[pos]).value, left, p.node));
    }
  }

  lemma TermStart(ts: seq<Token>, pos: nat)
    ensures var p := ParseF(ts, pos);
      && (p.Fail? ==> ParseT(ts, pos).Fail?)
      && (p.Parsed? ==>
            && ParseT(ts, pos) == TermTail(ts, p.next, p.node)
            && (Value(p.node).None? && ParseT(ts, pos).Parsed? ==> Value(ParseT(ts, pos).node).None?))
  {
    var p := ParseF(ts, pos);
    if p.Parsed? && Value(p.node).None? {
      TermTailUndefined(ts, p.next, p.node);
    }
  }

  lemma ExprStart(ts: seq<Token>, pos: nat)
    ensures var p := ParseT(ts, pos);
      && (p.Fail? ==> ParseE(ts, pos).Fail?)
      && (p.Parsed? ==>
            && ParseE(ts, pos) == ExprTail(ts, p.next, p.node)
            && (Value(p.node).None? && ParseE(ts, pos).Parsed? ==> Value(ParseE(ts, pos).node).None?))
  {
    var p := ParseT(ts, pos);
    if p.Parsed? && Value(p.node).None? {
      ExprTailUndefined(ts, p.next, p.node);
    }
  }

  lemma TailsEnd(ts: seq<Token>, pos: nat, left: Node)
    requires pos <= |ts|
    ensures pos == |ts| || TermOp(ts[pos]).None? ==> TermTail(ts, pos, left) == Parsed(left, pos)
    ensures pos == |ts| || ExprOp(ts[pos]).None? ==> ExprTail(ts, pos, left) == Parsed(left, pos)
  {
  }

  /** One operator and its right operand: the tail goes on from there, or is undefined with it. */
  lemma TermStep(ts: seq<Token>, pos: nat, left: Node)
    requires pos < |ts| && TermOp(ts[pos]).Some?
    ensures var p := ParseF(ts, pos + 1);
      && (p.Fail? ==> TermTail(ts, pos, left).Fail?)
      && (p.Parsed? ==>
            var n := Bin(TermOp(ts[pos]).value, left, p.node);
            && TermTail(ts, pos, left) == TermTail(ts, p.next, n)
            && (Value(n).None? && TermTail(ts, pos, left).Parsed? ==> Value(TermTail(ts, pos, left).node).None?))
  {
    var p := ParseF(ts, pos + 1);
    if p.Parsed? {
      var n := Bin(TermOp(ts[pos]).value, left, p.node);
      if Value(n).None? {
        TermTailUndefined(ts, p.next, n);
      }
    }
  }

  lemma ExprStep(ts: seq<Token>, pos: nat, left: Node)
    requires pos < |ts| && ExprOp(ts[pos]).Some?
    ensures var p := ParseT(ts, pos + 1);
      && (p.Fail? ==> ExprTail(ts, pos, left).Fail?)
      && (p.Parsed? ==>
            var n := Bin(ExprOp(ts[pos]).value, left, p.node);
            && ExprTail(ts, pos, left) == ExprTail(ts, p.next, n)
            && (Value(n).None? && ExprTail(ts, pos, left).Parsed? ==> Value(ExprTail(ts, pos, left).node).None?))
  {
    var p := ParseT(ts, pos + 1);
    if p.Parsed? {
      var n := Bin(ExprOp(ts[pos]).value, left, p.node);
      if Value(n).None? {
        ExprTailUndefined(ts, p.next, n);
      }
    }
  }

  /** The three mutually recursive procedures over one shared cursor. */
  class Evaluator {
    const tokens: seq<Token>
    var position: nat

    constructor (tokens: seq<Token>)
      ensures this.tokens == tokens && position == 0
    {
      this.tokens := tokens;
      position := 0;
    }

    method ParseExpression() returns (r: Result<real>)
      requires position <= |tokens|
      modifies this
      ensures old(position) <= position <= |tokens|
      ensures Agrees(r, position, ParseE(tokens, old(position)))
      decreases |tokens| - position, 2
    {
      hide ParseE;
      hide ParseT;
      hide ParseF;
      hide ExprTail;
      hide TermTail;
      hide Tokens;
      ghost var whole := ParseE(tokens, position);
      ghost var first := ParseT(tokens, position);
      ExprStart(tokens, position);
      r := ParseTerm();
      if r.Err? {
        return;
      }
      var value := r.value;
      ghost var left := first.node;
      while position < |tokens|
        invariant old(position) < position <= |tokens|
        invariant whole == ExprTail(tokens, position, left) && Value(left) == Some(value)
        decreases |tokens| - position
      {
        var token := tokens[position];
        if !token.Plus? && !token.Minus? {
          break;
        }
        ExprStep(tokens, position, left);
        ghost var p := ParseT(tokens, position + 1);
        position := position + 1;
        r := ParseTerm();
        if r.Err? {
          return;
        }
        left := Bin(ExprOp(token).value, left, p.node);
        value := if token.Plus? then value + r.value else value - r.value;
      }
      TailsEnd(tokens, position, left);
      return Ok(value);
    }

    method ParseTerm() returns (r: Result<real>)
      requires position <= |tokens|
      modifies this
      ensures old(position) <= position <= |tokens|
      ensures Agrees(r, position, ParseT(tokens, old(position)))
      decreases |tokens| - position, 1
    {
      hide ParseE;
      hide ParseT;
      hide ParseF;
      hide ExprTail;
      hide TermTail;
      hide Tokens;
      ghost var whole := ParseT(tokens, position);
      ghost var first := ParseF(tokens, position);
      TermStart(tokens, position);
      r := ParseFactor();
      if r.Err? {
        return;
      }
      var value := r.value;
      ghost var left := first.node;
      while position < |tokens|
        invariant old(position) < position <= |tokens|
        invariant whole == TermTail(tokens, position, left) && Value(left) == Some(value)
        decreases |tokens| - position
      {
        var token := tokens[position];
        if !token.Mul? && !token.Div? {
          break;
        }
        TermStep(tokens, position, left);
        ghost var p := ParseF(tokens, position + 1);
        position := position + 1;
        r := ParseFactor();
        if r.Err? {
          return;
        }
        left := Bin(TermOp(token).value, left, p.node);
        if token.Mul? {
          value := Product(value, r.value);
        } else {
          if r.value == 0.0 {
            return Err(DivisionByZero);
          }
          value := Quotient(value, r.value);
        }
      }
      TailsEnd(tokens, position, left);
      return Ok(value);
    }

    method ParseFactor() returns (r: Result<real>)
      requires position <= |tokens|
      modifies this
      ensures old(position) <= position <= |tokens|
      ensures Agrees(r, position, ParseF(tokens, old(position)))
      decreases |tokens| - position, 0
    {
      if position >= |tokens| {
        return Err(UnexpectedEnd);
      }
      var token := tokens[position];
      match token {
        case Plus =>
          position := position + 1;
          r := ParseFactor();
        case Minus =>
          position := position + 1;
          r := ParseFactor();
          if r.Ok? {
            r := Ok(-r.value);
          }
        case LParen =>
          position := position + 1;
          r := ParseExpression();
          if r.Err? {
            return;
          }
          if position >= |tokens| || !tokens[position].RParen? {
            return Err(MissingParenthesis);
          }
          position := position + 1;
        case Number(v) =>
          position := position + 1;
          return Ok(v);
        case _ =>
          return Err(UnexpectedToken);
      }
    }
  }
}
