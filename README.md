# luca: a verified model of the interpreter's front end and runtime core

luca is an unfinished tree-walking interpreter for a Lox-style scripting language, written
in Java. This project models its sequential core in Dafny and proves properties of that model:

- the scanner that turns source text into tokens;
- the recursive-descent expression parser;
- the run-time chain of variable frames;
- the resolver's stack of scopes;
- the evaluation of literal, grouping and unary expressions;
- the class and instance objects of the runtime;
- the generator that writes the Java source of the syntax-tree classes.

Each component is one module, in one file:

| file | module | models |
|---|---|---|
| `wrappers.dfy` | `Wrappers` | `Option`, `Result` (Java's `null` returns and exceptions) and a sequence fact |
| `tokens.dfy` | `Tokens` | token categories, dynamic values, tokens |
| `ast.dfy` | `Ast` | expression and statement node shapes |
| `scanner.dfy` | `Scanning` | `Scanner` |
| `parser.dfy` | `Parsing` | `Parser` |
| `environment.dfy` | `Environments` | `Environment` |
| `resolver.dfy` | `Resolving` | `Resolver` |
| `interpreter.dfy` | `Interpreting` | `Interpreter` |
| `runtime.dfy` | `Runtime` | `LucaClass`, `LucaInstance` |
| `generate_ast.dfy` | `AstGeneration` | `GenerateAst`'s line-producing logic |

The Java code changes state step by step, and the model keeps that shape:

- **Classes with loops.** The scanner, the parser, the environment, the resolver and the
  generator's writer are Dafny classes. Their fields are updated in place, and the Java
  loops are `while`/`for` loops with invariants.
- **Reference functions.** Each method is proved equal to a pure function of the old state:
  - `ScanStep`/`ScanFrom` for the scanner;
  - `ParseExpression` … `ParsePrimary` over a token list and a cursor for the parser;
  - `Frames()`, the chain of maps innermost first, for the environment;
  - `ResolvedStmt` for the resolver;
  - `AstOutput` for the generator.
- **Lemmas.** What the code promises is proved as lemmas about those functions.
- **Pure parts.** The interpreter is pure in the source and is a function here. The
  runtime objects are classes: `LucaClass` has a constant name, and `LucaInstance` a
  constant class. Their `toString`, `arity` and `call` are modelled as members of
  those classes.

Where the model departs from the source text:

- **Parser typos, modelled by their evident intent.** `equality` calls `comparision`;
  `addition` and `multiplication` use `rightExpr` where the local is `right`; `primary`
  assigns a `Grouping` to an `Expr.Literal` variable; `advance` at the end returns the
  category `EOF`, where the current (end-of-input) token is meant.
- **`consume` is not defined in `Parser.java`.** The model gives it its usual meaning: it
  consumes a token of the expected category or raises a parse error at the current token.
- **Resolver typos.** `define` keys the scope by the `Token` rather than its lexeme, so the
  model keys it by the lexeme, as `declare` does. The misspelled `vistVarStmt` and the
  `List<Statement>` parameter are read as the visitor of variable statements and a list of
  statements.
- **Parser multiplication level, kept as written.** Its loop matches `MINUS` and `PLUS`, not
  `STAR` and `SLASH`. So `*` and `/` are matched by no level:
  - an expression ends in front of them (`StarAndSlashEndExpression`);
  - the addition level's loop never runs (`AdditionLoopNeverIterates`).
- **No visitor for some nodes.** The interpreter has none for binary expressions, and the
  resolver has none for expressions or for statements other than blocks and variables.
  The model reports the first as an error and treats the others as leaving the scopes
  unchanged.

## Model

| member | source | states |
|---|---|---|
| Scanning.Scanner.constructor | src/main/java/com/craftinginterpreters/lox/Scanner.java:12-20 | a new scanner is at position 0, line 1, with no tokens and no diagnostics |
| Scanning.Scanner.ScanTokens | src/main/java/com/craftinginterpreters/lox/Scanner.java:22-30 | the loop ends at the end of the source with 0 ≤ start ≤ current ≤ length and line = 1 + newlines consumed; the tokens and diagnostics gained are exactly ScanFrom's, ending with the EOF token |
| Scanning.Scanner.ScanToken | src/main/java/com/craftinginterpreters/lox/Scanner.java:32-73 | one call does exactly what ScanStep describes: the new cursor and line, and at most one token or diagnostic appended |
| Scanning.Scanner.StringToken | src/main/java/com/craftinginterpreters/lox/Scanner.java:75-88 | a string runs to the next `"`, counting its newlines; if closed, one STRING token with the text between the quotes is added; if not, "Unterminated string." is reported and nothing is added |
| Scanning.Scanner.StringBody | src/main/java/com/craftinginterpreters/lox/Scanner.java:76-79 | the loop stops at the next double quote or the end, and line grows by the newlines passed |
| Scanning.Scanner.LineComment | src/main/java/com/craftinginterpreters/lox/Scanner.java:53-55 | the comment loop stops at the next newline, which it does not consume, or at the end |
| Scanning.Scanner.Match | src/main/java/com/craftinginterpreters/lox/Scanner.java:90-96 | true exactly when the current character is the expected one, which is then consumed; otherwise the cursor stays |
| Scanning.Scanner.Peek | src/main/java/com/craftinginterpreters/lox/Scanner.java:98-105 | the current character, or NUL at the end |
| Scanning.Scanner.IsAtEnd | src/main/java/com/craftinginterpreters/lox/Scanner.java:107-109 | false exactly while a character is left to read |
| Scanning.Scanner.Advance | src/main/java/com/craftinginterpreters/lox/Scanner.java:111-113 | returns the current character and moves one further |
| Scanning.Scanner.AddToken | src/main/java/com/craftinginterpreters/lox/Scanner.java:115-117 | appends one token with text source[start..current], no literal and the current line |
| Scanning.Scanner.AddTokenLiteral | src/main/java/com/craftinginterpreters/lox/Scanner.java:119-122 | appends one token with text source[start..current], the literal and the current line |
| Scanning.ScanStepFacts | src/main/java/com/craftinginterpreters/lox/Scanner.java:32-88 | every step consumes at least one character, so scanning terminates; it counts the newlines it consumes; it adds a token or a diagnostic but not both; a token is never EOF, its text is the consumed stretch and it carries the line reached |
| Scanning.ScanStep | src/main/java/com/craftinginterpreters/lox/Scanner.java:32-73 | one call of the switch always consumes at least one character, adds a token or a diagnostic but never both, and never adds an EOF token |
| Scanning.ScanString | src/main/java/com/craftinginterpreters/lox/Scanner.java:75-88 | the string case consumes at least the opening quote; a STRING token or a diagnostic, never both; unclosed strings consume the whole rest and report "Unterminated string." (line and literal in StringLiteral and UnterminatedStringReported) |
| Scanning.ScanFrom | src/main/java/com/craftinginterpreters/lox/Scanner.java:22-30 | the scan from a position ends with one EOF token with empty text, no literal and line + the newlines left in the source |
| Scanning.ScanFromStep | src/main/java/com/craftinginterpreters/lox/Scanner.java:23-26 | a scan is its first step's token and diagnostic followed by the scan from where that step stopped |
| Scanning.Scan | src/main/java/com/craftinginterpreters/lox/Scanner.java:14-30 | scanning a whole source from position 0 at line 1 yields at least one token |
| Scanning.ScanEndsWithEof | src/main/java/com/craftinginterpreters/lox/Scanner.java:28 | the result ends with exactly one EOF token (empty text, null literal, line 1 + all newlines) and no earlier token is EOF |
| Scanning.ScanFromEofOnlyAtEnd | src/main/java/com/craftinginterpreters/lox/Scanner.java:22-30 | no token before the last one of a scan is EOF |
| Scanning.ScanLinesNonDecreasing | src/main/java/com/craftinginterpreters/lox/Scanner.java:65-67 | token lines never fall below the starting line and never decrease along the list |
| Scanning.ScanTokensFromSource | src/main/java/com/craftinginterpreters/lox/Scanner.java:119-122 | every token before EOF has as text a non-empty stretch source[a..b], carries line 1 + the newlines in source[..b], and a string token's text is its literal in quotes |
| Scanning.ScanTokensAreSlices | src/main/java/com/craftinginterpreters/lox/Scanner.java:120-121 | the same for a whole scan |
| Scanning.SingleCharacterToken | src/main/java/com/craftinginterpreters/lox/Scanner.java:35-44 | each of the ten one-character symbols yields its token of one character, on the same line |
| Scanning.OperatorToken | src/main/java/com/craftinginterpreters/lox/Scanner.java:45-48 | `!`, `=`, `<`, `>` followed by `=` yield the two-character token, otherwise the one-character token |
| Scanning.OperatorMaximalMunch | src/main/java/com/craftinginterpreters/lox/Scanner.java:45-48 | the same spelled out: BANG_EQUAL/BANG, EQUAL_EQUAL/EQUAL, LESS_EQUAL/LESS, GREATER_EQUAL/GREATER, consuming 2 or 1 characters |
| Scanning.SlashStep | src/main/java/com/craftinginterpreters/lox/Scanner.java:49-60 | `//` skips to the end of the line without a token; a lone `/` is SLASH |
| Scanning.LineCommentSkipped | src/main/java/com/craftinginterpreters/lox/Scanner.java:50-56 | a comment adds nothing, keeps the line, and stops at the first newline, which it leaves unread, or at the end |
| Scanning.LoneSlash | src/main/java/com/craftinginterpreters/lox/Scanner.java:57-59 | a `/` not followed by `/` is the token SLASH with text "/" |
| Scanning.WhitespaceSkipped | src/main/java/com/craftinginterpreters/lox/Scanner.java:61-64 | space, `\r` and `\t` are consumed, add nothing and keep the line |
| Scanning.NewlineCounted | src/main/java/com/craftinginterpreters/lox/Scanner.java:65-67 | a newline adds nothing and increments the line |
| Scanning.StringLiteral | src/main/java/com/craftinginterpreters/lox/Scanner.java:75-88 | a closed string is one STRING token spanning both quotes whose literal is the text between them, at the line reached after its newlines |
| Scanning.UnterminatedStringReported | src/main/java/com/craftinginterpreters/lox/Scanner.java:81-84 | an unclosed string consumes the rest, adds no token and reports "Unterminated string." at the line reached |
| Scanning.UnexpectedCharacterReported | src/main/java/com/craftinginterpreters/lox/Scanner.java:69-71 | any other character, letters and digits included, is consumed and reported as "Unexpected character." |
| Scanning.TakenAdvances | src/main/java/com/craftinginterpreters/lox/Scanner.java:22-26 | after one scanToken the cursor has moved forward within the source and the line is the old line + newlines consumed |
| Scanning.LineEnd | src/main/java/com/craftinginterpreters/lox/Scanner.java:53-55 | the comment stops at a newline or at the end |
| Scanning.LineEndIsFirst | src/main/java/com/craftinginterpreters/lox/Scanner.java:53-55 | no newline lies before where the comment stops |
| Scanning.QuoteEnd | src/main/java/com/craftinginterpreters/lox/Scanner.java:76-79 | the string loop stops at a double quote or at the end |
| Scanning.InsideString | src/main/java/com/craftinginterpreters/lox/Scanner.java:76-79 | one pass of the string loop: the closing quote is still ahead and the line count grows exactly for a newline |
| Scanning.NewlinesSplit | src/main/java/com/craftinginterpreters/lox/Scanner.java:16 | newline counts add up over adjacent stretches |
| Parsing.ParseExpression | src/main/java/luca/Parser.java:17-19 | expression is the equality level; a parse stops inside the list and never passes EOF |
| Parsing.ParseLevel | src/main/java/luca/Parser.java:21-67 | the four binary levels: an operand, then the loop; the cursor never passes EOF, and termination is on the tokens left |
| Parsing.ParseOperand | src/main/java/luca/Parser.java:22-62 | a level's operands are parsed by the next level, or by unary below multiplication |
| Parsing.ParseTail | src/main/java/luca/Parser.java:24-28 | the loop: each matched operator and the operand after it extend the tree to the left; the cursor never passes EOF |
| Parsing.ParseUnary | src/main/java/luca/Parser.java:69-78 | `!` or `-` then a unary, otherwise primary; within the list |
| Parsing.ParsePrimary | src/main/java/luca/Parser.java:80-102 | stays within the list and never passes EOF; each case is stated by LiteralPrimary, KeywordPrimary, GroupingForms, OtherTokenIsNull and ExpressionAtEndIsNull |
| Parsing.AdvanceAt | src/main/java/luca/Parser.java:119-126 | the cursor moves one further except at EOF, so it never passes EOF |
| Parsing.TailStopsAtNonOperator | src/main/java/luca/Parser.java:24-30 | a loop stops only in front of a token it does not match |
| Parsing.LevelStops | src/main/java/luca/Parser.java:21-67 | when unary stops in front of a token no level up to l matches, level l returns unary's result |
| Parsing.AdditionLoopNeverIterates | src/main/java/luca/Parser.java:45-67 | the addition level equals the multiplication level: the latter consumes every MINUS and PLUS first |
| Parsing.StarAndSlashEndExpression | src/main/java/luca/Parser.java:57-67 | STAR and SLASH are matched by no level: an expression ends in front of them |
| Parsing.ExpressionAtEndIsNull | src/main/java/luca/Parser.java:80-102 | at EOF primary, unary, each of the four levels and expression all yield the null tree and leave the cursor |
| Parsing.LiteralUnary | src/main/java/luca/Parser.java:69-94 | a number or string token is a whole unary expression: the literal it carries |
| Parsing.LiteralPrimary | src/main/java/luca/Parser.java:92-94 | primary turns a NUMBER or STRING token into Literal(token.literal) and consumes it |
| Parsing.KeywordPrimary | src/main/java/luca/Parser.java:83-91 | `false`, `true` and `nil` are consumed and give Literal(false), Literal(true) and Literal(null) |
| Parsing.OtherTokenIsNull | src/main/java/luca/Parser.java:100-101 | any token other than the keywords, a literal, `(` or EOF is consumed and primary gives the null tree |
| Parsing.LiteralOperand | src/main/java/luca/Parser.java:21-67 | a literal followed by a token no level up to l matches is all that level l parses |
| Parsing.GroupsLeft | src/main/java/luca/Parser.java:21-43 | three operands joined by two operators of the equality or the comparison level group to the left: Binary(Binary(a, op1, b), op2, c) |
| Parsing.EqualityGroupsLeft | src/main/java/luca/Parser.java:21-31 | `a == b != c` parses to ((a == b) != c), ending at EOF |
| Parsing.ComparisonGroupsLeft | src/main/java/luca/Parser.java:33-43 | `a < b >= c` parses to ((a < b) >= c), ending at EOF |
| Parsing.MinusPlusGroupLeft | src/main/java/luca/Parser.java:57-67 | `a - b + c` parses to ((a - b) + c), built by the multiplication level |
| Parsing.EndLifts | src/main/java/luca/Parser.java:21-55 | a level whose operand parses up to EOF returns that operand |
| Parsing.PrefixOperatorsNest | src/main/java/luca/Parser.java:69-78 | `!!x`, `!-x`, `-!x`, `--x` nest to the right: Unary(op1, Unary(op2, x)) |
| Parsing.GroupingForms | src/main/java/luca/Parser.java:95-99 | `(` then the expression, then a consumed `)` gives Grouping(e); otherwise the error names the token found; an error inside propagates |
| Parsing.UnclosedGroupingFails | src/main/java/luca/Parser.java:95-98 | `(x` followed by EOF raises "Expect ')' after expression." at the EOF token |
| Parsing.GroupingOfLiteral | src/main/java/luca/Parser.java:95-101 | `(x)` parses to Grouping(Literal(x)) with the `)` consumed |
| Parsing.LevelsDisjoint | src/main/java/luca/Parser.java:24-48 | the equality and comparison operators are matched by no tighter level |
| Parsing.Parser.constructor | src/main/java/luca/Parser.java:12-15 | a parser over the list, at position 0 |
| Parsing.Parser.IsAtEnd | src/main/java/luca/Parser.java:128-130 | true exactly at the EOF token |
| Parsing.Parser.Peek | src/main/java/luca/Parser.java:132-134 | the current token of the list; it is EOF exactly at the end, and always at the last position |
| Parsing.Parser.Check | src/main/java/luca/Parser.java:114-117 | false at EOF, otherwise whether the current token has the category; nothing moves |
| Parsing.Parser.Match | src/main/java/luca/Parser.java:104-112 | whether the current token is of one of the categories and not EOF; the cursor does not move |
| Parsing.Parser.Advance | src/main/java/luca/Parser.java:119-126 | returns the current token and moves one further except at EOF |
| Parsing.Parser.Consume | src/main/java/luca/Parser.java:97 | consumes a token of the expected category, or raises the error at the current token without moving |
| Parsing.Parser.Expression | src/main/java/luca/Parser.java:17-19 | result and final cursor are ParseExpression's |
| Parsing.Parser.Equality | src/main/java/luca/Parser.java:21-31 | the loop's result and final cursor are ParseLevel's for equality |
| Parsing.Parser.Comparison | src/main/java/luca/Parser.java:33-43 | the loop's result and final cursor are ParseLevel's for comparison |
| Parsing.Parser.Addition | src/main/java/luca/Parser.java:45-55 | the loop's result and final cursor are ParseLevel's for addition |
| Parsing.Parser.Multiplication | src/main/java/luca/Parser.java:57-67 | the loop, matching MINUS and PLUS as written: the result and final cursor are ParseLevel's for multiplication |
| Parsing.Parser.Unary | src/main/java/luca/Parser.java:69-78 | result and final cursor are ParseUnary's |
| Parsing.Parser.Primary | src/main/java/luca/Parser.java:80-102 | result and final cursor are ParsePrimary's |
| Environments.Undefined | src/main/java/luca/Environment.java:41 | the undefined-variable error names the token |
| Environments.Innermost | src/main/java/luca/Environment.java:36-42 | the innermost frame binding the name, with no binding frame before it; none exactly when no frame binds it |
| Environments.InnermostUnique | src/main/java/luca/Environment.java:36-54 | a binding frame with no binding frame before it is the innermost |
| Environments.DefinedNameIsInnermost | src/main/java/luca/Environment.java:19-21 | a name just defined in the current frame is found there, shadowing outer frames |
| Environments.AssignedNameIsFound | src/main/java/luca/Environment.java:44-54 | after assign, the innermost binding of the name is the same frame |
| Environments.Environment.constructor | src/main/java/luca/Environment.java:11-13 | a new empty frame inside the given one: its chain is an empty map followed by the enclosing chain |
| Environments.Environment.Global | src/main/java/luca/Environment.java:15-17 | the root frame: no enclosing frame and no bindings |
| Environments.Environment.Define | src/main/java/luca/Environment.java:19-21 | maps the name to the value in the current frame, replacing an old binding; enclosing frames are unchanged |
| Environments.Environment.Get | src/main/java/luca/Environment.java:36-42 | the value in the innermost frame binding the name, or "Undefined variable 'n'." when none does |
| Environments.Environment.Assign | src/main/java/luca/Environment.java:44-54 | updates only the innermost frame binding the name and adds no binding; with none, raises the undefined-variable error and changes nothing |
| Environments.Environment.AncestorAt | src/main/java/luca/Environment.java:27-34 | the frame d links out lies on the chain, d frames nearer the root |
| Environments.Environment.AncestorStep | src/main/java/luca/Environment.java:29-31 | ancestor(d+1) is ancestor(d).enclosing for d below the depth |
| Environments.Environment.Ancestor | src/main/java/luca/Environment.java:27-34 | the loop follows `distance` enclosing links: ancestor(0) is this frame |
| Environments.Environment.GetAt | src/main/java/luca/Environment.java:23-25 | reads only frame `distance`; null when the name is absent there |
| Environments.Environment.AssignAt | src/main/java/luca/Environment.java:56-58 | binds the name in frame `distance` only, adding it if absent; every other frame is unchanged |
| Environments.Environment.FramesUnfold | src/main/java/luca/Environment.java:8-13 | a frame's chain is its map followed by its enclosing frame's chain |
| Resolving.Mark | src/main/java/luca/Resolver.java:58-66 | declare/define change only the top scope's entry for the name, and nothing at global scope |
| Resolving.ResolvedStmt | src/main/java/luca/Resolver.java:19-34 | the stack after one statement is exactly as deep as before: a block pops the scope it pushed |
| Resolving.ResolvedStmts | src/main/java/luca/Resolver.java:36-40 | resolving a list, statement by statement in order, keeps the stack's depth |
| Resolving.StmtKeepsBelowTop | src/main/java/luca/Resolver.java:19-34 | resolving a statement keeps the stack's depth and every scope below the top |
| Resolving.StmtsKeepBelowTop | src/main/java/luca/Resolver.java:36-40 | the same for a list of statements |
| Resolving.BlockRestoresScopes | src/main/java/luca/Resolver.java:19-24 | a block leaves the stack exactly as it found it |
| Resolving.GlobalStmtsUnchanged | src/main/java/luca/Resolver.java:58-66 | at global scope, resolving leaves the empty stack empty |
| Resolving.VarDefinesInTop | src/main/java/luca/Resolver.java:27-34 | inside a scope, a variable statement leaves its name defined (true) in the top scope and the scopes below untouched |
| Resolving.Resolver.constructor | src/main/java/luca/Resolver.java:12-16 | a new resolver has an empty stack |
| Resolving.Resolver.BeginScope | src/main/java/luca/Resolver.java:50-52 | pushes one empty scope |
| Resolving.Resolver.EndScope | src/main/java/luca/Resolver.java:54-56 | pops the top scope |
| Resolving.Resolver.Declare | src/main/java/luca/Resolver.java:58-61 | top[name] = false; nothing at global scope |
| Resolving.Resolver.Define | src/main/java/luca/Resolver.java:63-66 | top[name] = true; nothing at global scope |
| Resolving.Resolver.ResolveStatements | src/main/java/luca/Resolver.java:36-40 | the loop resolves the statements once each, in list order |
| Resolving.Resolver.ResolveStmt | src/main/java/luca/Resolver.java:42-44 | dispatch to the block or variable visitor |
| Resolving.Resolver.ResolveExpr | src/main/java/luca/Resolver.java:46-48 | resolving an expression leaves the scope stack unchanged, since no expression node has a resolver visitor |
| Resolving.Resolver.VisitBlockStmt | src/main/java/luca/Resolver.java:19-24 | push, resolve the statements, pop: the stack is as on entry |
| Resolving.Resolver.VisitVarStmt | src/main/java/luca/Resolver.java:27-34 | while the initializer is resolved the name is declared (false); afterwards it is defined (true) |
| Interpreting.IsTruthy | src/main/java/luca/Interpreter.java:24-28 | false exactly for null and false |
| Interpreting.Evaluate | src/main/java/luca/Interpreter.java:6-33 | a tree with a binary node or a null tree anywhere fails, because every operand is evaluated first; a tree of literals, groupings and unary nodes without `-` never fails; `!` gives a boolean; the value of `-` is stated by MinusNegates |
| Interpreting.ZeroAndEmptyAreTruthy | src/main/java/luca/Interpreter.java:24-28 | 0, "" and true are truthy; null and false are not |
| Interpreting.LiteralEvaluatesToValue | src/main/java/luca/Interpreter.java:6-8 | a literal evaluates to its stored value |
| Interpreting.GroupingsAreTransparent | src/main/java/luca/Interpreter.java:31-33 | any number of nested groupings evaluate to the inner expression's value |
| Interpreting.BangNegatesTruthiness | src/main/java/luca/Interpreter.java:11-16 | `!e` is the boolean !isTruthy(eval(e)) |
| Interpreting.DoubleBangIsTruthiness | src/main/java/luca/Interpreter.java:11-16 | `!!e` is the boolean isTruthy(eval(e)) |
| Interpreting.DoubleMinusIsIdentity | src/main/java/luca/Interpreter.java:17-18 | `--e` is e for a number |
| Interpreting.MinusNegates | src/main/java/luca/Interpreter.java:17-18 | `-e` evaluates to Num(-x) when e evaluates to Num(x) |
| Interpreting.MinusNeedsNumber | src/main/java/luca/Interpreter.java:17-18 | `-e` on a value that is not a number fails the cast |
| Interpreting.OtherOperatorYieldsNull | src/main/java/luca/Interpreter.java:11-22 | another operator evaluates its operand, then yields null; an error in the operand propagates |
| Interpreting.ParsedDoubleBangIsTrue | src/main/java/luca/Interpreter.java:11-16 | the tokens `! ! x`, for a number or string x, parse and evaluate to true |
| Interpreting.Parenthesised | src/main/java/luca/Interpreter.java:31-33 | e wrapped in n groupings is a grouping when n > 0 |
| Runtime.LucaClass.constructor | src/main/java/luca/LucaClass.java:10-12 | the class has the given name, which never changes |
| Runtime.LucaClass.Call | src/main/java/luca/LucaClass.java:15-18 | returns a freshly allocated instance of this class, whatever the arguments |
| Runtime.LucaClass.Arity | src/main/java/luca/LucaClass.java:21-23 | always 0 |
| Runtime.LucaClass.ToString | src/main/java/luca/LucaClass.java:26-28 | the name given at construction |
| Runtime.LucaInstance.constructor | src/main/java/luca/LucaInstance.java:10-12 | stores exactly the class passed in |
| Runtime.LucaInstance.ToString | src/main/java/luca/LucaInstance.java:15-17 | the class's name followed by " instance" |
| Runtime.SameClassSameText | src/main/java/luca/LucaInstance.java:15-17 | two instances of one class print alike |
| Runtime.InstanceTextExtendsClassText | src/main/java/luca/LucaInstance.java:15-17 | an instance's text is its class's toString followed by " instance", so the class text is its prefix |
| Runtime.CallTwice | src/main/java/luca/LucaClass.java:15-18 | two calls, with different arguments, give two distinct instances of the class that print alike |
| AstGeneration.IndexOf | src/main/java/luca/utils/GenerateAst.java:54 | `indexOf(':')`: a position in the text, or -1 |
| AstGeneration.IndexOfFindsFirst | src/main/java/luca/utils/GenerateAst.java:54 | the first occurrence, and -1 exactly when there is none |
| AstGeneration.IndexFromFindsFirst | src/main/java/luca/utils/GenerateAst.java:71 | the search from a position finds the first occurrence there or later |
| AstGeneration.Trim | src/main/java/luca/utils/GenerateAst.java:55-56 | `trim` gives no longer a text |
| AstGeneration.TrimStripsBlanks | src/main/java/luca/utils/GenerateAst.java:55-56 | what `trim` keeps is one stretch of the text: blanks only before and after it, and a non-blank at each end when non-empty |
| AstGeneration.TrimIdempotent | src/main/java/luca/utils/GenerateAst.java:55-56 | trimming twice is trimming once |
| AstGeneration.SkippedAreBlank | src/main/java/luca/utils/GenerateAst.java:55 | trim's leading skip passes only blanks |
| AstGeneration.SkippedBackAreBlank | src/main/java/luca/utils/GenerateAst.java:55 | trim's trailing skip passes only blanks |
| AstGeneration.Find | src/main/java/luca/utils/GenerateAst.java:83 | an occurrence of the separator lies inside the text |
| AstGeneration.FindIsFirst | src/main/java/luca/utils/GenerateAst.java:83 | the separator search finds the first occurrence, or reports none when there is none |
| AstGeneration.PiecesFrom | src/main/java/luca/utils/GenerateAst.java:83 | splitting gives at least one piece |
| AstGeneration.PiecesJoin | src/main/java/luca/utils/GenerateAst.java:83 | splitting loses nothing: the pieces joined with the separator give the text back |
| AstGeneration.JoinPieces | src/main/java/luca/utils/GenerateAst.java:83 | splitting pieces joined by the separator, none holding its first character, gives those pieces |
| AstGeneration.PiecesHaveNoSeparator | src/main/java/luca/utils/GenerateAst.java:83 | no piece contains the separator |
| AstGeneration.KeptCountDropsEmpty | src/main/java/luca/utils/GenerateAst.java:83 | `split` drops only trailing empty pieces, and the last piece kept is not empty |
| AstGeneration.JavaSplit | src/main/java/luca/utils/GenerateAst.java:83-85 | no piece of `split` holds the separator, and when the separator occurs the last piece kept is not empty |
| AstGeneration.SplitOfJoin | src/main/java/luca/utils/GenerateAst.java:83-85 | `split` of a list joined by the separator gives the list back (the inverse of joining) |
| AstGeneration.LowerCase | src/main/java/luca/utils/GenerateAst.java:73 | `toLowerCase` keeps the length |
| AstGeneration.LowerCaseMapsLetters | src/main/java/luca/utils/GenerateAst.java:73 | each capital letter becomes its small letter; every other character stays |
| AstGeneration.DescriptionSplitsAtFirstColon | src/main/java/luca/utils/GenerateAst.java:54-56 | the class name is the trimmed text before the first `:` and the field list the trimmed text after it; without `:` both fail |
| AstGeneration.ClassName | src/main/java/luca/utils/GenerateAst.java:54-55 | a class name exists exactly when the description holds `:`; otherwise the missing-`:` error |
| AstGeneration.FieldList | src/main/java/luca/utils/GenerateAst.java:54-56 | a field list exists exactly when the description holds `:`; otherwise the missing-`:` error |
| AstGeneration.FieldNameOfTypedField | src/main/java/luca/utils/GenerateAst.java:85 | a field "Type name" yields name, its second word |
| AstGeneration.FieldWithoutSpaceFails | src/main/java/luca/utils/GenerateAst.java:85 | a field without a space has no second word: the error |
| AstGeneration.FieldName | src/main/java/luca/utils/GenerateAst.java:85 | the name of a field is a single word without a space; a field without a second word gives that field's error |
| AstGeneration.MapAllOfEach | src/main/java/luca/utils/GenerateAst.java:70-74 | a loop over the list succeeds exactly when each element does, with one result per element, in order |
| AstGeneration.MapAllFailAt | src/main/java/luca/utils/GenerateAst.java:84-87 | after a successful prefix, the first failing element's error is the loop's |
| AstGeneration.MapAllFirstError | src/main/java/luca/utils/GenerateAst.java:53-58 | a failing loop fails at the first element that fails |
| AstGeneration.MapAllStep | src/main/java/luca/utils/GenerateAst.java:84-87 | one more successful element extends the results by its own |
| AstGeneration.MapAll | src/main/java/luca/utils/GenerateAst.java:70-74 | a loop over a list that stops at the first failing element; on success one result per element (order and first error in MapAllOfEach and MapAllFirstError) |
| AstGeneration.ClassNames | src/main/java/luca/utils/GenerateAst.java:70-74 | the visitor's class names exist exactly when every description holds `:`, one per description |
| AstGeneration.FieldNames | src/main/java/luca/utils/GenerateAst.java:83-87 | on success one name per field, each a single word without a space |
| AstGeneration.VisitLines | src/main/java/luca/utils/GenerateAst.java:70-74 | one visit line per type name, in order |
| AstGeneration.VisitorLines | src/main/java/luca/utils/GenerateAst.java:67-77 | the interface line, one line per type name and the closing brace (each line in VisitorHasOneLinePerType) |
| AstGeneration.AssignLines | src/main/java/luca/utils/GenerateAst.java:84-87 | one `this.name = name;` line per field name, in order |
| AstGeneration.FinalLines | src/main/java/luca/utils/GenerateAst.java:99-101 | one `final field;` line per field, in order |
| AstGeneration.ParseNamesEachField | src/main/java/luca/utils/GenerateAst.java:53-58 | a description is written exactly when it has `:` and every field has a name; then the class name, field list, fields, and the second word of each field, in order |
| AstGeneration.ParseErrorCases | src/main/java/luca/utils/GenerateAst.java:54-56 | a description that cannot be written reports its missing `:` or its first field without a name |
| AstGeneration.ParseDescription | src/main/java/luca/utils/GenerateAst.java:53-58 | a description without `:` fails with that error; a parsed one has one name per field, each a single word |
| AstGeneration.VisitorHasOneLinePerType | src/main/java/luca/utils/GenerateAst.java:67-77 | the visitor block is the interface line, one `R visit<Type><Base>(<Type> <base>);` per type in list order, and `}` |
| AstGeneration.TypeBlockLayout | src/main/java/luca/utils/GenerateAst.java:79-104 | a nested class: header and constructor lines, one assignment per field name, the accept line calling visit<Class><Base>(this), one `final` line per field, the closing brace |
| AstGeneration.TypeBlock | src/main/java/luca/utils/GenerateAst.java:79-104 | a nested class has ten fixed lines plus one per field name and one per field, opens with the class header and ends with its brace |
| AstGeneration.TypeBlocks | src/main/java/luca/utils/GenerateAst.java:53-58 | at least ten lines per parsed description, ending with the last class's closing brace (order in TypeBlocksSnoc) |
| AstGeneration.ConstructorAssignsFieldNames | src/main/java/luca/utils/GenerateAst.java:83-87 | the constructor assigns the second word of each field, in field order |
| AstGeneration.OutputFraming | src/main/java/luca/utils/GenerateAst.java:45-63 | the output starts with `package luca;`, has the base class line fifth, and ends with the closing `}` |
| AstGeneration.MissingColonFails | src/main/java/luca/utils/GenerateAst.java:70-73 | the first description without `:` makes the whole generation fail with that description |
| AstGeneration.OutputHasEveryClass | src/main/java/luca/utils/GenerateAst.java:41-65 | generation succeeds exactly when every description has `:` and can be written; one nested class per description, in order |
| AstGeneration.AstOutput | src/main/java/luca/utils/GenerateAst.java:41-65 | the file is produced exactly when every description can be written |
| AstGeneration.FirstUnwritableFails | src/main/java/luca/utils/GenerateAst.java:53-58 | with every `:` present, generation fails with the error of the first description that cannot be written |
| AstGeneration.TypeBlocksSnoc | src/main/java/luca/utils/GenerateAst.java:53-58 | one more description appends its nested class after the earlier ones |
| AstGeneration.AstWriter.constructor | src/main/java/luca/utils/GenerateAst.java:43 | a new writer has written nothing |
| AstGeneration.AstWriter.Println | src/main/java/luca/utils/GenerateAst.java:45 | appends one line |
| AstGeneration.AstWriter.DefineAst | src/main/java/luca/utils/GenerateAst.java:41-65 | writes exactly the lines of AstOutput, or fails with its error |
| AstGeneration.AstWriter.DefinePreamble | src/main/java/luca/utils/GenerateAst.java:45-49 | writes the package line, a blank, the import, a blank and the base class line |
| AstGeneration.AstWriter.DefinePostamble | src/main/java/luca/utils/GenerateAst.java:60-63 | writes a blank, the abstract accept method and the closing brace |
| AstGeneration.AstWriter.DefineVisitor | src/main/java/luca/utils/GenerateAst.java:67-77 | the loop writes the visitor interface for the class names, or fails at the first description without `:` |
| AstGeneration.AstWriter.DefineTypes | src/main/java/luca/utils/GenerateAst.java:53-58 | the loop writes each description's nested class in order, or fails with the first error |
| AstGeneration.AstWriter.DefineDescription | src/main/java/luca/utils/GenerateAst.java:54-57 | splits one description at its first `:` and writes its nested class |
| AstGeneration.AstWriter.DefineType | src/main/java/luca/utils/GenerateAst.java:79-104 | writes the nested class of a class name and field list, or fails at the first field without a name |
| AstGeneration.AstWriter.DefineAccept | src/main/java/luca/utils/GenerateAst.java:89-98 | writes the constructor's closing brace, the accept method calling visit<Class><Base>(this), and a blank line |
| AstGeneration.AstWriter.DefineFields | src/main/java/luca/utils/GenerateAst.java:84-87 | the loop writes one assignment per field, or fails at the first field without a name |
| AstGeneration.AstWriter.DeclareFields | src/main/java/luca/utils/GenerateAst.java:99-101 | the loop writes one `final <field>;` line per field, in order |

## Left out

- The driver `Luca.java`: reading files, the prompt loop, printing and exit codes are I/O. A
  scanner error is modelled only as a (line, message) pair appended to `diagnostics`.
- `LucaFunction.java` is not part of this model. Its `call` builds an environment, drops it
  and returns null.
- `GenerateAst.main`'s argument check, `System.exit`, the output path and the `PrintWriter`
  are left out. They are file I/O, and the writer is a `seq<string>` of printed lines.
- `AstGeneration.AstWriter.DefineAst`, `AstGeneration.AstWriter.DefineVisitor`,
  `AstGeneration.AstWriter.DefineTypes`, `AstGeneration.AstWriter.DefineDescription`,
  `AstGeneration.AstWriter.DefineType` and `AstGeneration.AstWriter.DefineFields`: when a
  description cannot be written, the Java code has already printed part of the file before
  the exception. These methods promise only the error in that case, not the lines printed
  before it.
- `AstGeneration.JavaSplit`: `String.split` takes a regular expression. The model splits on
  the literal separator. This is the same for the two separators used, `", "` and `" "`; it
  also drops trailing empty pieces, as Java does.
- `AstGeneration.LowerCase`: `toLowerCase` is modelled on ASCII letters only. There is no
  Unicode case mapping.
- `AstGeneration.Trim`: removes the characters up to and including the space, as `trim`
  does.
- `Scanning.ScanStep` and `Scanning.Scanner.ScanToken`: the source is a sequence of
  Unicode code points, where Java reads UTF-16 code units. A character outside the Basic
  Multilingual Plane, such as U+1F600, is one "Unexpected character." here and two in Java,
  one per surrogate half. A lone surrogate, which a Java `String` can hold, cannot be
  represented at all.
- Numbers are `real`. The only arithmetic is the negation in `visitUnaryExpr`, and IEEE
  doubles are not modelled.
- Scanning numbers, identifiers and keywords; statement parsing; error recovery; the
  resolver's distance table; and the interpreter's other visitors are not implemented by
  the code modelled here, so nothing is invented for them. The `Expr` type holds only the
  nodes this code builds or evaluates.
- `Resolving.Resolver.constructor`: the `interpreter` argument is omitted, because the
  code shown never uses it.
- `Resolving.Resolver.ResolveExpr`: the resolver has no expression visitors, so resolving an
  expression changes nothing.
- `Interpreting.Evaluate`: a binary expression has no visitor in `Interpreter.java`; it
  evaluates to the error `NoVisitor`. The null tree that `primary` can return evaluates to
  `NullReference`, where the Java code would fail calling `accept` on null.
- `Environments.Environment.Ancestor`, `Environments.Environment.GetAt` and
  `Environments.Environment.AssignAt` require the distance to be at most the chain's
  depth. A larger distance makes the Java loop in `ancestor` dereference null.
- `Resolving.Resolver.EndScope` requires a non-empty stack. `Stack.pop` on an empty stack
  throws; a balanced resolver never does that.
- `Parsing.Parser.Advance`: at the end it returns the current end-of-input token, where the
  Java code's `return EOF` names the category.
- Exceptions in the parser, such as the error from `consume`, are `Failed` results. The
  cursor they leave behind is not specified.
