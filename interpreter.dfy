/** Evaluation of literal, grouping and unary expressions, and the truthiness rule. */
module Interpreting {
  import opened Wrappers
  import opened Tokens
  import opened Ast
  import Parsing

  /** What evaluation can raise: negating a value that is not a number fails its cast to
      double; the null tree has no `accept` to call; and the interpreter has no visitor for
      binary expressions. */
  datatype EvalError =
    | CastFailure(operator: Token, operand: Value)
    | NullReference
    | NoVisitor(expr: Expr)

  /** `isTruthy`: null and false are false, every other value is true. */
  function IsTruthy(v: Value): (b: bool)
    ensures !b <==> v == Null || v == Bool(false)
  {
    match v
    case Null => false
    case Bool(b) => b
    case _ => true
  }

  /** Every node of the tree is a literal, a grouping or a unary node: one with a visitor. */
  predicate Visitable(e: Expr)
  {
    match e
    case Literal(_) => true
    case Grouping(inner) => Visitable(inner)
    case Unary(_, right) => Visitable(right)
    case _ => false
  }

  /** A visitable tree without a unary minus: nothing in it has a cast that can fail. */
  predicate CastFree(e: Expr)
  {
    match e
    case Literal(_) => true
    case Grouping(inner) => CastFree(inner)
    case Unary(operator, right) => operator.kind != Minus && CastFree(right)
    case _ => false
  }

  /** `evaluate`, with the visitors for literals, groupings and unary nodes. The operand of a
      unary node is evaluated first, whatever the operator, so a binary node or a null tree
      anywhere in the tree makes the whole evaluation fail, and a tree without a minus never
      fails. `!` always gives a boolean and `-` a number. */
  function Evaluate(e: Expr): (r: Result<Value, EvalError>)
    ensures !Visitable(e) ==> r.Err?
    ensures CastFree(e) ==> r.Ok?
    ensures r.Ok? && e.Unary? && e.operator.kind == Bang ==> r.value.Bool?
    ensures r.Ok? && e.Unary? && e.operator.kind == Minus ==> r.value.Num?
  {
    match e
    case Literal(v) => Ok(v)
    case Grouping(inner) => Evaluate(inner)
    case Unary(operator, right) =>
      (match Evaluate(right)
       case Err(err) => Err(err)
       case Ok(v) =>
         if operator.kind == Bang then Ok(Bool(!IsTruthy(v)))
         else if operator.kind == Minus then
           if v.Num? then Ok(Num(-v.x)) else Err(CastFailure(operator, v))
         else Ok(Null))
    case NullExpr => Err(NullReference)
    case Binary(_, _, _) => Err(NoVisitor(e))
  }

  /** Zero and the empty string are true; only null and false are not. */
  lemma ZeroAndEmptyAreTruthy()
    ensures IsTruthy(Num(0.0)) && IsTruthy(Str("")) && IsTruthy(Bool(true))
    ensures !IsTruthy(Null) && !IsTruthy(Bool(false))
  {
  }

  /** A literal evaluates to the value it holds. */
  lemma LiteralEvaluatesToValue(v: Value)
    ensures Evaluate(Literal(v)) == Ok(v)
  {
  }

  /** `e` inside `n` pairs of parentheses. */
  function Parenthesised(e: Expr, n: nat): (g: Expr)
    ensures n > 0 ==> g.Grouping?
  {
    if n == 0 then e else Grouping(Parenthesised(e, n - 1))
  }

  /** Parentheses, however deeply nested, do not change the value. */
  lemma {:induction false} GroupingsAreTransparent(e: Expr, n: nat)
    ensures Evaluate(Parenthesised(e, n)) == Evaluate(e)
  {
    if n > 0 {
      GroupingsAreTransparent(e, n - 1);
    }
  }

  /** `!e` is a boolean: the negation of the truthiness of `e`. */
  lemma BangNegatesTruthiness(bang: Token, e: Expr)
    requires bang.kind == Bang && Evaluate(e).Ok?
    ensures Evaluate(Unary(bang, e)) == Ok(Bool(!IsTruthy(Evaluate(e).value)))
  {
  }

  /** `!!e` is the truthiness of `e`, as a boolean. */
  lemma DoubleBangIsTruthiness(bang1: Token, bang2: Token, e: Expr)
    requires bang1.kind == Bang && bang2.kind == Bang && Evaluate(e).Ok?
    ensures Evaluate(Unary(bang1, Unary(bang2, e))) == Ok(Bool(IsTruthy(Evaluate(e).value)))
  {
    BangNegatesTruthiness(bang2, e);
  }

  /** `-e` is the negation of `e`'s number. */
  lemma MinusNegates(minus: Token, e: Expr, x: real)
    requires minus.kind == Minus && Evaluate(e) == Ok(Num(x))
    ensures Evaluate(Unary(minus, e)) == Ok(Num(-x))
  {
  }

  /** `--e` is `e` for a number. */
  lemma DoubleMinusIsIdentity(minus1: Token, minus2: Token, e: Expr, x: real)
    requires minus1.kind == Minus && minus2.kind == Minus && Evaluate(e) == Ok(Num(x))
    ensures Evaluate(Unary(minus1, Unary(minus2, e))) == Ok(Num(x))
  {
  }

  /** `-e` on a value that is not a number fails the cast. */
  lemma MinusNeedsNumber(minus: Token, e: Expr)
    requires minus.kind == Minus && Evaluate(e).Ok? && !Evaluate(e).value.Num?
    ensures Evaluate(Unary(minus, e)) == Err(CastFailure(minus, Evaluate(e).value))
  {
  }

  /** A unary node with another operator evaluates its operand, then yields null. */
  lemma OtherOperatorYieldsNull(operator: Token, e: Expr)
    requires operator.kind != Bang && operator.kind != Minus
    ensures Evaluate(e).Ok? ==> Evaluate(Unary(operator, e)) == Ok(Null)
    ensures Evaluate(e).Err? ==> Evaluate(Unary(operator, e)) == Evaluate(e)
  {
  }

  /** From tokens to a value: `!!x` for a number or string `x` parses and evaluates to true. */
  lemma ParsedDoubleBangIsTrue(bang1: Token, bang2: Token, x: Token, eof: Token)
    requires bang1.kind == Bang && bang2.kind == Bang
    requires Parsing.LiteralToken(x) && eof.kind == Eof && x.literal != Null && x.literal != Bool(false)
    ensures var r := Parsing.ParseExpression([bang1, bang2, x, eof], 0);
            r.Parsed? && Evaluate(r.expr) == Ok(Bool(true))
  {
    Parsing.PrefixOperatorsNest(bang1, bang2, x, eof);
    DoubleBangIsTruthiness(bang1, bang2, Literal(x.literal));
  }
}
