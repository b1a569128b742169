/** The static resolver's scope bookkeeping: a stack of scopes, each mapping a declared name
    to whether its initializer has finished. The top of the stack is the last element; an
    empty stack is the global scope, where nothing is tracked. `ResolvedStmt` and
    `ResolvedStmts` describe what resolving does to the stack; the class `Resolver` is
    proved to do exactly that. */
module Resolving {
  import opened Tokens
  import opened Ast

  type Scope = map<string, bool>

  /** `declare` (false) or `define` (true) of `name` in the top scope; no effect globally. */
  function Mark(scopes: seq<Scope>, name: string, ready: bool): (r: seq<Scope>)
    ensures |r| == |scopes|
    ensures |scopes| == 0 ==> r == scopes
    ensures |scopes| > 0 ==> r[..|scopes| - 1] == scopes[..|scopes| - 1]
    ensures |scopes| > 0 ==> r[|scopes| - 1] == scopes[|scopes| - 1][name := ready]
  {
    if |scopes| == 0 then scopes else scopes[|scopes| - 1 := scopes[|scopes| - 1][name := ready]]
  }

  /** The stack after resolving one statement. A block resolves its statements in a new
      scope that is then discarded; a variable statement declares, resolves its
      initializer and defines. Resolving an expression never touches the stack, and no
      other statement has a visitor. Every statement leaves the stack as deep as it was. */
  function ResolvedStmt(scopes: seq<Scope>, stmt: Stmt): (r: seq<Scope>)
    ensures |r| == |scopes|
    decreases stmt, 1
  {
    match stmt
    case Block(statements) =>
      var inner := ResolvedStmts(scopes + [map[]], statements);
      inner[..|inner| - 1]
    case Var(name, _) => Mark(Mark(scopes, name.lexeme, false), name.lexeme, true)
    case _ => scopes
  }

  /** The stack after resolving the statements one after another, in list order; as deep
      as before. */
  function ResolvedStmts(scopes: seq<Scope>, statements: seq<Stmt>): (r: seq<Scope>)
    ensures |r| == |scopes|
    decreases statements, 0
  {
    if |statements| == 0 then scopes
    else ResolvedStmts(ResolvedStmt(scopes, statements[0]), statements[1..])
  }

  /** Resolving keeps the stack's depth and every scope below the top. */
  lemma {:induction false} StmtKeepsBelowTop(scopes: seq<Scope>, stmt: Stmt)
    ensures |ResolvedStmt(scopes, stmt)| == |scopes|
    ensures |scopes| > 0 ==> ResolvedStmt(scopes, stmt)[..|scopes| - 1] == scopes[..|scopes| - 1]
    decreases stmt, 1
  {
    match stmt
    case Block(statements) =>
      StmtsKeepBelowTop(scopes + [map[]], statements);
      var inner := ResolvedStmts(scopes + [map[]], statements);
      assert inner[..|inner| - 1] == (scopes + [map[]])[..|scopes|];
      assert (scopes + [map[]])[..|scopes|] == scopes;
    case Var(name, _) =>
    case _ =>
  }

  lemma {:induction false} StmtsKeepBelowTop(scopes: seq<Scope>, statements: seq<Stmt>)
    ensures |ResolvedStmts(scopes, statements)| == |scopes|
    ensures |scopes| > 0 ==> ResolvedStmts(scopes, statements)[..|scopes| - 1] == scopes[..|scopes| - 1]
    decreases statements, 0
  {
    if |statements| > 0 {
      StmtKeepsBelowTop(scopes, statements[0]);
      var next := ResolvedStmt(scopes, statements[0]);
      StmtsKeepBelowTop(next, statements[1..]);
      if |scopes| > 0 {
        assert ResolvedStmts(next, statements[1..])[..|scopes| - 1] == next[..|scopes| - 1];
      }
    }
  }

  /** A block leaves the stack exactly as it found it, so its depth is balanced. */
  lemma BlockRestoresScopes(scopes: seq<Scope>, statements: seq<Stmt>)
    ensures ResolvedStmt(scopes, Block(statements)) == scopes
  {
    StmtsKeepBelowTop(scopes + [map[]], statements);
    var inner := ResolvedStmts(scopes + [map[]], statements);
    assert inner[..|inner| - 1] == (scopes + [map[]])[..|scopes|];
    assert (scopes + [map[]])[..|scopes|] == scopes;
  }

  /** At global scope resolving changes nothing. */
  lemma {:induction false} GlobalStmtsUnchanged(statements: seq<Stmt>)
    ensures ResolvedStmts([], statements) == []
    decreases statements
  {
    if |statements| > 0 {
      StmtKeepsBelowTop([], statements[0]);
      GlobalStmtsUnchanged(statements[1..]);
    }
  }

  /** Inside a scope, a variable statement leaves its name defined in the top scope. */
  lemma VarDefinesInTop(scopes: seq<Scope>, name: Token, initializer: Expr)
    requires |scopes| > 0
    ensures var r := ResolvedStmt(scopes, Var(name, initializer));
            |r| == |scopes| && r[|r| - 1] == scopes[|scopes| - 1][name.lexeme := true] &&
            r[..|r| - 1] == scopes[..|scopes| - 1]
  {
  }

  class Resolver {
    /** Innermost scope last. */
    var scopes: seq<Scope>

    constructor()
      ensures scopes == []
    {
      scopes := [];
    }

    method BeginScope()
      modifies this
      ensures scopes == old(scopes) + [map[]]
    {
      scopes := scopes + [map[]];
    }

    method EndScope()
      requires |scopes| > 0
      modifies this
      ensures scopes == old(scopes)[..|old(scopes)| - 1]
    {
      scopes := scopes[..|scopes| - 1];
    }

    method Declare(name: Token)
      modifies this
      ensures scopes == Mark(old(scopes), name.lexeme, false)
    {
      if |scopes| == 0 {
        return;
      }
      scopes := scopes[|scopes| - 1 := scopes[|scopes| - 1][name.lexeme := false]];
    }

    method Define(name: Token)
      modifies this
      ensures scopes == Mark(old(scopes), name.lexeme, true)
    {
      if |scopes| == 0 {
        return;
      }
      scopes := scopes[|scopes| - 1 := scopes[|scopes| - 1][name.lexeme := true]];
    }

    /** Resolving an expression: the resolver has no expression visitors, so nothing changes. */
    method ResolveExpr(expr: Expr)
      ensures scopes == old(scopes)
    {
    }

    method ResolveStatements(statements: seq<Stmt>)
      modifies this
      ensures scopes == ResolvedStmts(old(scopes), statements)
      decreases statements, 2
    {
      for i := 0 to |statements|
        invariant ResolvedStmts(scopes, statements[i..]) == ResolvedStmts(old(scopes), statements)
      {
        assert statements[i..][1..] == statements[i + 1..];
        ResolveStmt(statements[i]);
      }
    }

    method ResolveStmt(stmt: Stmt)
      modifies this
      ensures scopes == ResolvedStmt(old(scopes), stmt)
      decreases stmt, 1
    {
      match stmt
      case Block(_) => VisitBlockStmt(stmt);
      case Var(_, _) =>
        var _ := VisitVarStmt(stmt);
      case _ =>
    }

    method VisitBlockStmt(stmt: Stmt)
      requires stmt.Block?
      modifies this
      ensures scopes == ResolvedStmt(old(scopes), stmt)
      ensures scopes == old(scopes)
      decreases stmt, 0
    {
      BeginScope();
      ResolveStatements(stmt.statements);
      StmtsKeepBelowTop(old(scopes) + [map[]], stmt.statements);
      EndScope();
      BlockRestoresScopes(old(scopes), stmt.statements);
    }

    /** Declares the name, resolves the initializer while the name is declared but not
        ready, then defines it. */
    method VisitVarStmt(stmt: Stmt) returns (ghost duringInitializer: seq<Scope>)
      requires stmt.Var?
      modifies this
      ensures scopes == ResolvedStmt(old(scopes), stmt)
      ensures duringInitializer == Mark(old(scopes), stmt.name.lexeme, false)
      decreases stmt, 0
    {
      Declare(stmt.name);
      duringInitializer := scopes;
      if stmt.initializer != NullExpr {
        ResolveExpr(stmt.initializer);
      }
      Define(stmt.name);
    }
  }
}
