/** The syntax tree node shapes generated from the node list in GenerateAst. */
module Ast {
  import opened Tokens

  /** Expression nodes. `NullExpr` is the null reference the parser's `primary` returns
      for a token that starts no expression. */
  datatype Expr =
    | Binary(left: Expr, operator: Token, right: Expr)
    | Grouping(expression: Expr)
    | Literal(value: Value)
    | Unary(operator: Token, right: Expr)
    | NullExpr

  /** Statement nodes. A `Var` without initializer holds `NullExpr`, and an `If` without
      else branch holds `Empty`, the null statement reference. */
  datatype Stmt =
    | Block(statements: seq<Stmt>)
    | Expression(expression: Expr)
    | If(condition: Expr, thenBranch: Stmt, elseBranch: Stmt)
    | Print(expression: Expr)
    | Var(name: Token, initializer: Expr)
    | While(condition: Expr, body: Stmt)
    | Empty
}
