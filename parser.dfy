/** The recursive-descent expression parser. The functions `ParseExpression` ... `ParsePrimary`
    describe what each parsing routine returns from a cursor position: the tree and the
    position after it, or the error `consume` raises. The class `Parser` is the parser
    object with its mutable cursor, proved to compute exactly those results. */
module Parsing {
  import opened Wrappers
  import opened Tokens
  import opened Ast

  /** The error `consume` raises: the offending token and the message. */
  datatype ParseError = ParseError(token: Token, message: string)

  const ExpectRightParen: string := "Expect ')' after expression."

  /** A parsing routine either returns a tree with the position it stopped at, or raises. */
  datatype ParseResult = Parsed(expr: Expr, next: nat) | Failed(error: ParseError)

  /** The token lists the parser is given: non-empty and ending with the end-of-input token. */
  predicate ValidTokens(ts: seq<Token>)
  {
    |ts| > 0 && ts[|ts| - 1].kind == Eof
  }

  /** No end-of-input token among `ts[p..q]`: the cursor never passed one on the way. */
  predicate NoEofBetween(ts: seq<Token>, p: nat, q: nat)
    requires p <= q <= |ts|
  {
    forall k :: p <= k < q ==> ts[k].kind != Eof
  }

  /** A successful parse from `p` stops at a later position inside the list, without
      having passed an end-of-input token. */
  predicate Within(ts: seq<Token>, p: nat, r: ParseResult)
    requires p <= |ts|
  {
    r.Parsed? ==> p <= r.next < |ts| && NoEofBetween(ts, p, r.next)
  }

  lemma NoEofJoin(ts: seq<Token>, p: nat, q: nat, r: nat)
    requires p <= q <= r <= |ts| && NoEofBetween(ts, p, q) && NoEofBetween(ts, q, r)
    ensures NoEofBetween(ts, p, r)
  {
  }

  /** The cursor reads the end-of-input token. */
  function AtEnd(ts: seq<Token>, p: nat): bool
    requires p < |ts|
  {
    ts[p].kind == Eof
  }

  /** What `check(type)` answers at position `p`. */
  function CheckAt(ts: seq<Token>, p: nat, kind: TokenType): bool
    requires p < |ts|
  {
    !AtEnd(ts, p) && ts[p].kind == kind
  }

  /** What `match(types...)` answers at position `p`: it only looks, it does not consume. */
  function MatchAt(ts: seq<Token>, p: nat, kinds: seq<TokenType>): bool
    requires p < |ts|
  {
    !AtEnd(ts, p) && ts[p].kind in kinds
  }

  /** The cursor after `advance`: one further, except at the end-of-input token. */
  function AdvanceAt(ts: seq<Token>, p: nat): (q: nat)
    requires ValidTokens(ts) && p < |ts|
    ensures q < |ts|
    ensures q == if AtEnd(ts, p) then p else p + 1
  {
    if AtEnd(ts, p) then p else p + 1
  }

  /** The four left-associative binary levels, from loosest to tightest. */
  datatype Level = EqualityLevel | ComparisonLevel | AdditionLevel | MultiplicationLevel

  function Rank(l: Level): nat
  {
    match l
    case EqualityLevel => 4
    case ComparisonLevel => 3
    case AdditionLevel => 2
    case MultiplicationLevel => 1
  }

  /** The operator categories each level's loop matches. The multiplication level matches
      MINUS and PLUS, as its loop is written, so STAR and SLASH are matched by none. */
  function Operators(l: Level): seq<TokenType>
  {
    match l
    case EqualityLevel => [BangEqual, EqualEqual]
    case ComparisonLevel => [Greater, GreaterEqual, Less, LessEqual]
    case AdditionLevel => [Minus, Plus]
    case MultiplicationLevel => [Minus, Plus]
  }

  /** The level that parses a level's operands, when it is a binary level. */
  function Below(l: Level): Level
    requires l != MultiplicationLevel
  {
    match l
    case EqualityLevel => ComparisonLevel
    case ComparisonLevel => AdditionLevel
    case AdditionLevel => MultiplicationLevel
  }

  const UnaryOperators: seq<TokenType> := [Bang, Minus]

  /** `expression`: the equality level. */
  function ParseExpression(ts: seq<Token>, p: nat): (r: ParseResult)
    requires ValidTokens(ts) && p < |ts|
    ensures Within(ts, p, r)
    decreases |ts| - p, 5, 0
  {
    ParseLevel(EqualityLevel, ts, p)
  }

  /** `equality`, `comparison`, `addition` and `multiplication`: an operand, then the loop. */
  function ParseLevel(l: Level, ts: seq<Token>, p: nat): (r: ParseResult)
    requires ValidTokens(ts) && p < |ts|
    ensures Within(ts, p, r)
    decreases |ts| - p, Rank(l), 2
  {
    match ParseOperand(l, ts, p)
    case Failed(err) => Failed(err)
    case Parsed(left, q) =>
      var r := ParseTail(l, ts, left, q);
      if r.Parsed? then NoEofJoin(ts, p, q, r.next); r else r
  }

  /** The operand of a level: the next binary level, or `unary` under the multiplication level. */
  function ParseOperand(l: Level, ts: seq<Token>, p: nat): (r: ParseResult)
    requires ValidTokens(ts) && p < |ts|
    ensures Within(ts, p, r)
    decreases |ts| - p, Rank(l), 1
  {
    if l == MultiplicationLevel then ParseUnary(ts, p) else ParseLevel(Below(l), ts, p)
  }

  /** The loop of a binary level, with the tree built so far in `left` and the cursor at `q`:
      while an operator of the level is matched, it is consumed, the next operand is
      parsed and the tree becomes `Binary(left, operator, right)`. */
  function ParseTail(l: Level, ts: seq<Token>, left: Expr, q: nat): (r: ParseResult)
    requires ValidTokens(ts) && q < |ts|
    ensures Within(ts, q, r)
    decreases |ts| - q, 0, 0
  {
    if MatchAt(ts, q, Operators(l)) then
      match ParseOperand(l, ts, q + 1)
      case Failed(err) => Failed(err)
      case Parsed(right, q') =>
        var r := ParseTail(l, ts, Binary(left, ts[q], right), q');
        if r.Parsed? then NoEofJoin(ts, q, q', r.next); r else r
    else
      Parsed(left, q)
  }

  /** `unary`: a matched `!` or `-` is consumed and applies to the unary expression after it. */
  function ParseUnary(ts: seq<Token>, p: nat): (r: ParseResult)
    requires ValidTokens(ts) && p < |ts|
    ensures Within(ts, p, r)
    decreases |ts| - p, 0, 1
  {
    if MatchAt(ts, p, UnaryOperators) then
      match ParseUnary(ts, p + 1)
      case Failed(err) => Failed(err)
      case Parsed(right, q) => Parsed(Unary(ts[p], right), q)
    else
      ParsePrimary(ts, p)
  }

  /** `primary`: the advanced-over token decides. Literal keywords, numbers and strings give
      literals, `(` a grouping closed by a consumed `)`, anything else the null tree. */
  function ParsePrimary(ts: seq<Token>, p: nat): (r: ParseResult)
    requires ValidTokens(ts) && p < |ts|
    ensures Within(ts, p, r)
    decreases |ts| - p, 0, 0
  {
    var next := ts[p];
    var q := AdvanceAt(ts, p);
    if next.kind == False then Parsed(Literal(Bool(false)), q)
    else if next.kind == True then Parsed(Literal(Bool(true)), q)
    else if next.kind == Nil then Parsed(Literal(Null), q)
    else if next.kind == Number || next.kind == String then Parsed(Literal(next.literal), q)
    else if next.kind == LeftParen then
      match ParseExpression(ts, q)
      case Failed(err) => Failed(err)
      case Parsed(e, q') =>
        if CheckAt(ts, q', RightParen) then ClosedGroupWithin(ts, p, q'); Parsed(Grouping(e), q' + 1)
        else Failed(ParseError(ts[q'], ExpectRightParen))
    else Parsed(NullExpr, q)
  }

  /** The keywords `false`, `true` and `nil` are consumed and give their literal values. */
  lemma KeywordPrimary(ts: seq<Token>, p: nat)
    requires ValidTokens(ts) && p < |ts|
    ensures ts[p].kind == False ==> ParsePrimary(ts, p) == Parsed(Literal(Bool(false)), p + 1)
    ensures ts[p].kind == True ==> ParsePrimary(ts, p) == Parsed(Literal(Bool(true)), p + 1)
    ensures ts[p].kind == Nil ==> ParsePrimary(ts, p) == Parsed(Literal(Null), p + 1)
  {
  }

  /** Any other token before the end is consumed, and `primary` gives the null tree. */
  lemma OtherTokenIsNull(ts: seq<Token>, p: nat)
    requires ValidTokens(ts) && p < |ts|
    requires ts[p].kind !in [False, True, Nil, Number, String, LeftParen, Eof]
    ensures ParsePrimary(ts, p) == Parsed(NullExpr, p + 1)
  {
  }

  /** A group opened at `p` and closed by the token at `q'` ends inside the list. */
  lemma ClosedGroupWithin(ts: seq<Token>, p: nat, q': nat)
    requires ValidTokens(ts) && p < q' < |ts| && ts[p].kind != Eof && ts[q'].kind != Eof
    requires NoEofBetween(ts, p + 1, q')
    ensures q' + 1 < |ts| && NoEofBetween(ts, p, q' + 1)
  {
  }

  // ---------------------------------------------------------------------------------------
  // Properties of the grammar as the routines implement it
  // ---------------------------------------------------------------------------------------

  /** The operators matched by a level's loop and by the loops of every tighter level. */
  function OperatorsUpTo(l: Level): (r: seq<TokenType>)
    ensures forall k :: k in Operators(l) ==> k in r
    decreases Rank(l)
  {
    if l == MultiplicationLevel then Operators(l) else Operators(l) + OperatorsUpTo(Below(l))
  }

  /** A loop stops only in front of a token it does not match. */
  lemma {:induction false} TailStopsAtNonOperator(l: Level, ts: seq<Token>, left: Expr, q: nat)
    requires ValidTokens(ts) && q < |ts|
    ensures ParseTail(l, ts, left, q).Parsed? ==>
              !MatchAt(ts, ParseTail(l, ts, left, q).next, Operators(l))
    decreases |ts| - q
  {
    if MatchAt(ts, q, Operators(l)) {
      match ParseOperand(l, ts, q + 1)
      case Failed(_) =>
      case Parsed(right, q') =>
        TailStopsAtNonOperator(l, ts, Binary(left, ts[q], right), q');
    }
  }

  /** A level stops in front of a token no level up to it matches: when `unary` parses up
      to such a token, or raises, the level returns what `unary` returned. */
  lemma {:induction false} LevelStops(l: Level, ts: seq<Token>, p: nat)
    requires ValidTokens(ts) && p < |ts|
    requires ParseUnary(ts, p).Parsed? ==> !MatchAt(ts, ParseUnary(ts, p).next, OperatorsUpTo(l))
    ensures ParseLevel(l, ts, p) == ParseUnary(ts, p)
    decreases Rank(l)
  {
    if l != MultiplicationLevel {
      LevelStops(Below(l), ts, p);
    }
  }

  /** The loop of the addition level never runs: the multiplication level below it matches
      the same operators and consumes every one of them first. */
  lemma AdditionLoopNeverIterates(ts: seq<Token>, p: nat)
    requires ValidTokens(ts) && p < |ts|
    ensures ParseLevel(AdditionLevel, ts, p) == ParseLevel(MultiplicationLevel, ts, p)
  {
    match ParseLevel(MultiplicationLevel, ts, p)
    case Failed(_) =>
    case Parsed(e, q) =>
      match ParseUnary(ts, p)
      case Failed(_) =>
      case Parsed(left, q0) =>
        TailStopsAtNonOperator(MultiplicationLevel, ts, left, q0);
  }

  /** `*` and `/` are matched by no level: an expression ends in front of them. */
  lemma StarAndSlashEndExpression(ts: seq<Token>, p: nat)
    requires ValidTokens(ts) && p < |ts|
    requires ParseUnary(ts, p).Parsed?
    requires ts[ParseUnary(ts, p).next].kind in [Star, Slash]
    ensures ParseExpression(ts, p) == ParseUnary(ts, p)
  {
    LevelStops(EqualityLevel, ts, p);
  }

  /** At the end-of-input token every routine returns the null tree and leaves the cursor. */
  lemma ExpressionAtEndIsNull(ts: seq<Token>, p: nat)
    requires ValidTokens(ts) && p < |ts| && ts[p].kind == Eof
    ensures ParsePrimary(ts, p) == Parsed(NullExpr, p) && ParseUnary(ts, p) == Parsed(NullExpr, p)
    ensures forall l :: ParseLevel(l, ts, p) == Parsed(NullExpr, p)
    ensures ParseExpression(ts, p) == Parsed(NullExpr, p)
  {
    assert !MatchAt(ts, p, UnaryOperators);
    UnaryWithoutPrefix(ts, p);
    assert ParsePrimary(ts, p) == Parsed(NullExpr, p);
    LevelStops(EqualityLevel, ts, p);
    LevelStops(ComparisonLevel, ts, p);
    LevelStops(AdditionLevel, ts, p);
    LevelStops(MultiplicationLevel, ts, p);
  }

  /** The tokens `primary` turns into a literal whose value the token carries. */
  predicate LiteralToken(t: Token)
  {
    t.kind == Number || t.kind == String
  }

  /** A number or string token is a whole unary expression, and a literal. */
  lemma LiteralUnary(ts: seq<Token>, p: nat)
    requires ValidTokens(ts) && p < |ts| && LiteralToken(ts[p])
    ensures ParseUnary(ts, p) == Parsed(Literal(ts[p].literal), p + 1)
  {
    LiteralNotPrefix(ts, p);
    LiteralPrimary(ts, p);
    UnaryWithoutPrefix(ts, p);
  }

  lemma LiteralNotPrefix(ts: seq<Token>, p: nat)
    requires ValidTokens(ts) && p < |ts| && LiteralToken(ts[p])
    ensures !MatchAt(ts, p, UnaryOperators)
  {
  }

  /** `primary` turns a number or string token into the literal it carries. */
  lemma LiteralPrimary(ts: seq<Token>, p: nat)
    requires ValidTokens(ts) && p < |ts| && LiteralToken(ts[p])
    ensures ParsePrimary(ts, p) == Parsed(Literal(ts[p].literal), p + 1)
  {
  }

  /** Without a prefix operator, `unary` is `primary`. */
  lemma UnaryWithoutPrefix(ts: seq<Token>, p: nat)
    requires ValidTokens(ts) && p < |ts| && !MatchAt(ts, p, UnaryOperators)
    ensures ParseUnary(ts, p) == ParsePrimary(ts, p)
  {
  }

  /** A number or string token followed by a token no level up to `l` matches is the
      whole of what the level parses. */
  lemma LiteralOperand(l: Level, ts: seq<Token>, p: nat)
    requires ValidTokens(ts) && p < |ts| && LiteralToken(ts[p])
    requires !MatchAt(ts, p + 1, OperatorsUpTo(l))
    ensures ParseLevel(l, ts, p) == Parsed(Literal(ts[p].literal), p + 1)
  {
    LiteralUnary(ts, p);
    LevelStops(l, ts, p);
  }

  /** Three operands joined by two equality or two comparison operators that no tighter level
      matches group to the left. */
  lemma {:induction false} GroupsLeft(l: Level, ts: seq<Token>, p: nat)
    requires (l == EqualityLevel || l == ComparisonLevel) && ValidTokens(ts) && p + 5 < |ts|
    requires LiteralToken(ts[p]) && LiteralToken(ts[p + 2]) && LiteralToken(ts[p + 4])
    requires ts[p + 1].kind in Operators(l) && ts[p + 3].kind in Operators(l)
    requires !MatchAt(ts, p + 1, OperatorsUpTo(Below(l))) && !MatchAt(ts, p + 3, OperatorsUpTo(Below(l)))
    requires !MatchAt(ts, p + 5, OperatorsUpTo(l))
    ensures ParseLevel(l, ts, p)
         == Parsed(Binary(Binary(Literal(ts[p].literal), ts[p + 1], Literal(ts[p + 2].literal)),
                          ts[p + 3], Literal(ts[p + 4].literal)), p + 5)
  {
    var a, b, c := Literal(ts[p].literal), Literal(ts[p + 2].literal), Literal(ts[p + 4].literal);
    var ab := Binary(a, ts[p + 1], b);
    var abc := Binary(ab, ts[p + 3], c);
    LiteralBelow(l, ts, p);
    LiteralBelow(l, ts, p + 2);
    assert !MatchAt(ts, p + 5, OperatorsUpTo(Below(l))) by {
      OperatorsUpToGrows(l);
    }
    LiteralBelow(l, ts, p + 4);
    OperatorMatches(l, ts, p + 1);
    OperatorMatches(l, ts, p + 3);
    LevelStart(l, ts, p, a, p + 1);
    TailStep(l, ts, a, p + 1, b, p + 3);
    TailStep(l, ts, ab, p + 3, c, p + 5);
    TailEnd(l, ts, abc, p + 5);
  }

  /** A literal followed by no operator of a tighter level is a whole operand of `l`. */
  lemma LiteralBelow(l: Level, ts: seq<Token>, q: nat)
    requires l != MultiplicationLevel && ValidTokens(ts) && q < |ts| && LiteralToken(ts[q])
    requires !MatchAt(ts, q + 1, OperatorsUpTo(Below(l)))
    ensures ParseOperand(l, ts, q) == Parsed(Literal(ts[q].literal), q + 1)
  {
    LiteralOperand(Below(l), ts, q);
  }

  /** A level's operator is matched wherever it stands. */
  lemma OperatorMatches(l: Level, ts: seq<Token>, q: nat)
    requires q < |ts| && ts[q].kind in Operators(l)
    ensures MatchAt(ts, q, Operators(l))
  {
  }

  /** A level's loop starts after its first operand. */
  lemma LevelStart(l: Level, ts: seq<Token>, p: nat, left: Expr, q: nat)
    requires ValidTokens(ts) && p < |ts| && ParseOperand(l, ts, p) == Parsed(left, q)
    ensures ParseLevel(l, ts, p) == ParseTail(l, ts, left, q)
  {
  }

  /** A level's loop ends in front of a token it does not match. */
  lemma TailEnd(l: Level, ts: seq<Token>, left: Expr, q: nat)
    requires ValidTokens(ts) && q < |ts| && !MatchAt(ts, q, Operators(l))
    ensures ParseTail(l, ts, left, q) == Parsed(left, q)
  {
  }

  /** One pass of a level's loop: the operator at `q` and the operand after it. */
  lemma TailStep(l: Level, ts: seq<Token>, left: Expr, q: nat, right: Expr, q': nat)
    requires ValidTokens(ts) && q + 1 < |ts| && MatchAt(ts, q, Operators(l))
    requires ParseOperand(l, ts, q + 1) == Parsed(right, q')
    ensures ParseTail(l, ts, left, q) == ParseTail(l, ts, Binary(left, ts[q], right), q')
  {
  }

  /** No tighter level's loop matches a level's own operators, except for the two levels
      that share MINUS and PLUS. */
  lemma LevelsDisjoint(l: Level)
    requires l == EqualityLevel || l == ComparisonLevel
    ensures forall k :: k in Operators(l) ==> k !in OperatorsUpTo(Below(l))
  {
  }

  lemma OperatorsUpToGrows(l: Level)
    requires l != MultiplicationLevel
    ensures forall k :: k in OperatorsUpTo(Below(l)) ==> k in OperatorsUpTo(l)
  {
  }

  /** `a == b != c` groups to the left: `(a == b) != c`. */
  lemma EqualityGroupsLeft(a: Token, op1: Token, b: Token, op2: Token, c: Token, eof: Token)
    requires LiteralToken(a) && LiteralToken(b) && LiteralToken(c) && eof.kind == Eof
    requires op1.kind in Operators(EqualityLevel) && op2.kind in Operators(EqualityLevel)
    ensures ParseExpression([a, op1, b, op2, c, eof], 0)
         == Parsed(Binary(Binary(Literal(a.literal), op1, Literal(b.literal)), op2, Literal(c.literal)), 5)
  {
    var ts := [a, op1, b, op2, c, eof];
    LevelsDisjoint(EqualityLevel);
    assert !MatchAt(ts, 5, OperatorsUpTo(EqualityLevel));
    GroupsLeft(EqualityLevel, ts, 0);
  }

  /** `a < b >= c` groups to the left: `(a < b) >= c`. */
  lemma ComparisonGroupsLeft(a: Token, op1: Token, b: Token, op2: Token, c: Token, eof: Token)
    requires LiteralToken(a) && LiteralToken(b) && LiteralToken(c) && eof.kind == Eof
    requires op1.kind in Operators(ComparisonLevel) && op2.kind in Operators(ComparisonLevel)
    ensures ParseExpression([a, op1, b, op2, c, eof], 0)
         == Parsed(Binary(Binary(Literal(a.literal), op1, Literal(b.literal)), op2, Literal(c.literal)), 5)
  {
    var ts := [a, op1, b, op2, c, eof];
    LevelsDisjoint(ComparisonLevel);
    assert !MatchAt(ts, 5, OperatorsUpTo(ComparisonLevel));
    GroupsLeft(ComparisonLevel, ts, 0);
    var e := Binary(Binary(Literal(a.literal), op1, Literal(b.literal)), op2, Literal(c.literal));
    assert ParseOperand(EqualityLevel, ts, 0) == Parsed(e, 5);
    assert ParseTail(EqualityLevel, ts, e, 5) == Parsed(e, 5);
  }

  /** `a - b + c` groups to the left, `(a - b) + c`, and is built by the multiplication level. */
  lemma MinusPlusGroupLeft(a: Token, op1: Token, b: Token, op2: Token, c: Token, eof: Token)
    requires LiteralToken(a) && LiteralToken(b) && LiteralToken(c) && eof.kind == Eof
    requires op1.kind in Operators(MultiplicationLevel) && op2.kind in Operators(MultiplicationLevel)
    ensures ParseExpression([a, op1, b, op2, c, eof], 0)
         == Parsed(Binary(Binary(Literal(a.literal), op1, Literal(b.literal)), op2, Literal(c.literal)), 5)
  {
    var ts := [a, op1, b, op2, c, eof];
    var ab := Binary(Literal(a.literal), op1, Literal(b.literal));
    var abc := Binary(ab, op2, Literal(c.literal));
    LiteralUnary(ts, 0);
    LiteralUnary(ts, 2);
    LiteralUnary(ts, 4);
    assert ParseTail(MultiplicationLevel, ts, abc, 5) == Parsed(abc, 5);
    assert ParseTail(MultiplicationLevel, ts, ab, 3) == Parsed(abc, 5);
    assert ParseTail(MultiplicationLevel, ts, Literal(a.literal), 1) == Parsed(abc, 5);
    assert ParseLevel(MultiplicationLevel, ts, 0) == Parsed(abc, 5);
    AdditionLoopNeverIterates(ts, 0);
    EndLifts(ComparisonLevel, ts, 0);
    EndLifts(EqualityLevel, ts, 0);
  }

  /** A level whose operand parses to the end of input returns that operand. */
  lemma EndLifts(l: Level, ts: seq<Token>, p: nat)
    requires l != MultiplicationLevel && ValidTokens(ts) && p < |ts|
    requires ParseLevel(Below(l), ts, p).Parsed? && AtEnd(ts, ParseLevel(Below(l), ts, p).next)
    ensures ParseLevel(l, ts, p) == ParseLevel(Below(l), ts, p)
  {
  }

  /** Prefix operators nest to the right: `!-x` is `!(-x)`. */
  lemma PrefixOperatorsNest(op1: Token, op2: Token, x: Token, eof: Token)
    requires op1.kind in UnaryOperators && op2.kind in UnaryOperators
    requires LiteralToken(x) && eof.kind == Eof
    ensures ParseExpression([op1, op2, x, eof], 0) == Parsed(Unary(op1, Unary(op2, Literal(x.literal))), 3)
  {
    var ts := [op1, op2, x, eof];
    LiteralUnary(ts, 2);
    assert ParseUnary(ts, 1) == Parsed(Unary(op2, Literal(x.literal)), 3);
    assert ParseUnary(ts, 0) == Parsed(Unary(op1, Unary(op2, Literal(x.literal))), 3);
    LevelStops(EqualityLevel, ts, 0);
  }

  /** A parenthesised expression: parsed by `expression`, then `)` is consumed, or the
      error names the token found instead. */
  lemma GroupingForms(ts: seq<Token>, p: nat)
    requires ValidTokens(ts) && p < |ts| && ts[p].kind == LeftParen
    ensures ParseExpression(ts, p + 1).Failed? ==> ParsePrimary(ts, p) == ParseExpression(ts, p + 1)
    ensures ParseExpression(ts, p + 1).Parsed? ==>
              var q := ParseExpression(ts, p + 1).next;
              ParsePrimary(ts, p)
                == if ts[q].kind == RightParen then Parsed(Grouping(ParseExpression(ts, p + 1).expr), q + 1)
                   else Failed(ParseError(ts[q], ExpectRightParen))
  {
  }

  /** `(x` without its `)` raises the error at the token found instead. */
  lemma UnclosedGroupingFails(open: Token, x: Token, eof: Token)
    requires open.kind == LeftParen && LiteralToken(x) && eof.kind == Eof
    ensures ParseExpression([open, x, eof], 0) == Failed(ParseError(eof, ExpectRightParen))
  {
    var ts := [open, x, eof];
    LiteralOperand(EqualityLevel, ts, 1);
    assert ParseExpression(ts, 1) == Parsed(Literal(x.literal), 2);
    GroupingForms(ts, 0);
    assert ParsePrimary(ts, 0) == Failed(ParseError(eof, ExpectRightParen));
    assert !MatchAt(ts, 0, UnaryOperators);
    UnaryWithoutPrefix(ts, 0);
    LevelStops(EqualityLevel, ts, 0);
  }

  /** `(x)` is the grouping of `x`, and the cursor ends after the `)`. */
  lemma GroupingOfLiteral(open: Token, x: Token, close: Token, eof: Token)
    requires open.kind == LeftParen && LiteralToken(x) && close.kind == RightParen && eof.kind == Eof
    ensures ParseExpression([open, x, close, eof], 0) == Parsed(Grouping(Literal(x.literal)), 3)
  {
    var ts := [open, x, close, eof];
    LiteralOperand(EqualityLevel, ts, 1);
    assert ParseExpression(ts, 1) == Parsed(Literal(x.literal), 2);
    GroupingForms(ts, 0);
    assert ParsePrimary(ts, 0) == Parsed(Grouping(Literal(x.literal)), 3);
    assert !MatchAt(ts, 0, UnaryOperators);
    UnaryWithoutPrefix(ts, 0);
    assert !MatchAt(ts, 3, OperatorsUpTo(EqualityLevel));
    LevelStops(EqualityLevel, ts, 0);
  }

  /** The method's result and final cursor are those the routine's description gives. */
  predicate Reports(pr: ParseResult, r: Result<Expr, ParseError>, cursor: nat)
  {
    match pr
    case Parsed(e, n) => r == Ok(e) && cursor == n
    case Failed(err) => r == Err(err)
  }

  // ---------------------------------------------------------------------------------------
  // The parser object
  // ---------------------------------------------------------------------------------------

  class Parser {
    const tokens: seq<Token>
    var current: nat

    constructor(tokens: seq<Token>)
      ensures this.tokens == tokens && current == 0
    {
      this.tokens := tokens;
      current := 0;
    }

    /** The token list ends with the end-of-input token and the cursor is inside it. */
    ghost predicate Valid()
      reads this
    {
      ValidTokens(tokens) && current < |tokens|
    }

    /** The current token: the end-of-input token exactly at the end, and always at the last
        position. */
    function Peek(): (t: Token)
      reads this
      requires Valid()
      ensures t in tokens && (t.kind == Eof <==> AtEnd(tokens, current))
      ensures current == |tokens| - 1 ==> t.kind == Eof
    {
      tokens[current]
    }

    function IsAtEnd(): (b: bool)
      reads this
      requires Valid()
      ensures b <==> AtEnd(tokens, current)
    {
      Peek().kind == Eof
    }

    /** False at the end of input, otherwise whether the current token has this category. */
    function Check(kind: TokenType): (b: bool)
      reads this
      requires Valid()
      ensures b <==> !AtEnd(tokens, current) && tokens[current].kind == kind
    {
      if IsAtEnd() then false else Peek().kind == kind
    }

    /** Whether the current token has one of the categories; nothing is consumed. */
    method Match(kinds: seq<TokenType>) returns (b: bool)
      requires Valid()
      ensures b <==> MatchAt(tokens, current, kinds)
    {
      for i := 0 to |kinds|
        invariant forall j :: 0 <= j < i ==> !Check(kinds[j])
      {
        if Check(kinds[i]) {
          return true;
        }
      }
      return false;
    }

    /** Returns the current token and moves past it, except at the end-of-input token. */
    method Advance() returns (t: Token)
      requires Valid()
      modifies this`current
      ensures Valid() && t == tokens[old(current)] && current == AdvanceAt(tokens, old(current))
    {
      if !IsAtEnd() {
        t := tokens[current];
        current := current + 1;
      } else {
        t := Peek();
      }
    }

    /** Consumes a token of the expected category, or raises the error at the current token. */
    method Consume(kind: TokenType, message: string) returns (r: Result<Token, ParseError>)
      requires Valid()
      modifies this`current
      ensures Valid()
      ensures CheckAt(tokens, old(current), kind) ==> r == Ok(tokens[old(current)]) && current == old(current) + 1
      ensures !CheckAt(tokens, old(current), kind) ==>
                r == Err(ParseError(tokens[old(current)], message)) && current == old(current)
    {
      if Check(kind) {
        var t := Advance();
        return Ok(t);
      }
      return Err(ParseError(Peek(), message));
    }

    method Expression() returns (r: Result<Expr, ParseError>)
      requires Valid()
      modifies this`current
      ensures Valid() && Reports(ParseExpression(tokens, old(current)), r, current)
      decreases |tokens| - current, 5, 0
    {
      r := Equality();
    }

    method Equality() returns (r: Result<Expr, ParseError>)
      requires Valid()
      modifies this`current
      ensures Valid() && Reports(ParseLevel(EqualityLevel, tokens, old(current)), r, current)
      decreases |tokens| - current, 4, 2
    {
      ghost var p := current;
      var root := Comparison();
      if root.Err? {
        return root;
      }
      var e := root.value;
      var more := Match(Operators(EqualityLevel));
      while more
        invariant Valid() && p <= current
        invariant more == MatchAt(tokens, current, Operators(EqualityLevel))
        invariant ParseTail(EqualityLevel, tokens, e, current) == ParseLevel(EqualityLevel, tokens, p)
        decreases |tokens| - current
      {
        var operator := Advance();
        var right := Comparison();
        if right.Err? {
          return right;
        }
        e := Binary(e, operator, right.value);
        more := Match(Operators(EqualityLevel));
      }
      return Ok(e);
    }

    method Comparison() returns (r: Result<Expr, ParseError>)
      requires Valid()
      modifies this`current
      ensures Valid() && Reports(ParseLevel(ComparisonLevel, tokens, old(current)), r, current)
      decreases |tokens| - current, 3, 2
    {
      ghost var p := current;
      var root := Addition();
      if root.Err? {
        return root;
      }
      var e := root.value;
      var more := Match(Operators(ComparisonLevel));
      while more
        invariant Valid() && p <= current
        invariant more == MatchAt(tokens, current, Operators(ComparisonLevel))
        invariant ParseTail(ComparisonLevel, tokens, e, current) == ParseLevel(ComparisonLevel, tokens, p)
        decreases |tokens| - current
      {
        var operator := Advance();
        var right := Addition();
        if right.Err? {
          return right;
        }
        e := Binary(e, operator, right.value);
        more := Match(Operators(ComparisonLevel));
      }
      return Ok(e);
    }

    method Addition() returns (r: Result<Expr, ParseError>)
      requires Valid()
      modifies this`current
      ensures Valid() && Reports(ParseLevel(AdditionLevel, tokens, old(current)), r, current)
      decreases |tokens| - current, 2, 2
    {
      ghost var p := current;
      var root := Multiplication();
      if root.Err? {
        return root;
      }
      var e := root.value;
      var more := Match(Operators(AdditionLevel));
      while more
        invariant Valid() && p <= current
        invariant more == MatchAt(tokens, current, Operators(AdditionLevel))
        invariant ParseTail(AdditionLevel, tokens, e, current) == ParseLevel(AdditionLevel, tokens, p)
        decreases |tokens| - current
      {
        var operator := Advance();
        var right := Multiplication();
        if right.Err? {
          return right;
        }
        e := Binary(e, operator, right.value);
        more := Match(Operators(AdditionLevel));
      }
      return Ok(e);
    }

    method Multiplication() returns (r: Result<Expr, ParseError>)
      requires Valid()
      modifies this`current
      ensures Valid() && Reports(ParseLevel(MultiplicationLevel, tokens, old(current)), r, current)
      decreases |tokens| - current, 1, 2
    {
      ghost var p := current;
      var root := Unary();
      if root.Err? {
        return root;
      }
      var e := root.value;
      var more := Match(Operators(MultiplicationLevel));
      while more
        invariant Valid() && p <= current
        invariant more == MatchAt(tokens, current, Operators(MultiplicationLevel))
        invariant ParseTail(MultiplicationLevel, tokens, e, current) == ParseLevel(MultiplicationLevel, tokens, p)
        decreases |tokens| - current
      {
        var operator := Advance();
        var right := Unary();
        if right.Err? {
          return right;
        }
        e := Binary(e, operator, right.value);
        more := Match(Operators(MultiplicationLevel));
      }
      return Ok(e);
    }

    method Unary() returns (r: Result<Expr, ParseError>)
      requires Valid()
      modifies this`current
      ensures Valid() && Reports(ParseUnary(tokens, old(current)), r, current)
      decreases |tokens| - current, 0, 1
    {
      var prefixed := Match(UnaryOperators);
      if prefixed {
        var operator := Advance();
        var right := Unary();
        if right.Err? {
          return right;
        }
        return Ok(Expr.Unary(operator, right.value));
      }
      r := Primary();
    }

    method Primary() returns (r: Result<Expr, ParseError>)
      requires Valid()
      modifies this`current
      ensures Valid() && Reports(ParsePrimary(tokens, old(current)), r, current)
      decreases |tokens| - current, 0, 0
    {
      var next := Advance();
      if next.kind == False {
        r := Ok(Literal(Bool(false)));
      } else if next.kind == True {
        r := Ok(Literal(Bool(true)));
      } else if next.kind == Nil {
        r := Ok(Literal(Null));
      } else if next.kind == Number || next.kind == String {
        r := Ok(Literal(next.literal));
      } else if next.kind == LeftParen {
        var inner := Expression();
        if inner.Err? {
          return inner;
        }
        var closing := Consume(RightParen, ExpectRightParen);
        if closing.Err? {
          return Err(closing.error);
        }
        r := Ok(Grouping(inner.value));
      } else {
        r := Ok(NullExpr);
      }
    }
  }
}
