/** The lexer: one left-to-right pass over the source text that produces tokens and
    (line, message) diagnostics. `ScanStep` and `ScanFrom` describe what the scanner
    produces; the class `Scanner` is the imperative scanner proved to produce exactly that. */
module Scanning {
  import opened Wrappers
  import opened Tokens

  /** A lexical error as reported to the driver's error sink. */
  datatype Diagnostic = Diagnostic(line: int, message: string)

  const UnexpectedCharacter: string := "Unexpected character."
  const UnterminatedString: string := "Unterminated string."

  /** Number of newline characters in `s[i..j]`. */
  function Newlines(s: string, i: nat, j: nat): nat
    requires i <= j <= |s|
    decreases j - i
  {
    if i == j then 0 else Newlines(s, i, j - 1) + if s[j - 1] == '\n' then 1 else 0
  }

  lemma {:induction false} NewlinesSplit(s: string, i: nat, j: nat, k: nat)
    requires i <= j <= k <= |s|
    ensures Newlines(s, i, k) == Newlines(s, i, j) + Newlines(s, j, k)
    decreases k - j
  {
    if j < k {
      NewlinesSplit(s, i, j, k - 1);
    }
  }

  lemma NewlinesOne(s: string, i: nat)
    requires i < |s|
    ensures Newlines(s, i, i + 1) == if s[i] == '\n' then 1 else 0
  {
  }

  lemma {:induction false} NewlinesNone(s: string, i: nat, j: nat)
    requires i <= j <= |s|
    requires forall k :: i <= k < j ==> s[k] != '\n'
    ensures Newlines(s, i, j) == 0
    decreases j - i
  {
    if i < j {
      NewlinesNone(s, i, j - 1);
    }
  }

  /** The position of the first newline at or after `i`, or the end of `src`. */
  function LineEnd(src: string, i: nat): (j: nat)
    requires i <= |src|
    ensures i <= j <= |src|
    ensures j == |src| || src[j] == '\n'
    decreases |src| - i
  {
    if i == |src| || src[i] == '\n' then i else LineEnd(src, i + 1)
  }

  lemma {:induction false} LineEndIsFirst(src: string, i: nat)
    requires i <= |src|
    ensures forall k :: i <= k < LineEnd(src, i) ==> src[k] != '\n'
    decreases |src| - i
  {
    if i < |src| && src[i] != '\n' {
      LineEndIsFirst(src, i + 1);
    }
  }

  /** The position of the first double quote at or after `i`, or the end of `src`. */
  function QuoteEnd(src: string, i: nat): (j: nat)
    requires i <= |src|
    ensures i <= j <= |src|
    ensures j == |src| || src[j] == '"'
    decreases |src| - i
  {
    if i == |src| || src[i] == '"' then i else QuoteEnd(src, i + 1)
  }

  /** What one call of `scanToken` does from lexeme start `start` at line `line`:
      where the cursor ends, the new line count, and the token or diagnostic it adds. */
  datatype Step = Step(next: nat, line: int, token: Option<Token>, diagnostic: Option<Diagnostic>)

  /** A token whose text is `src[start..end]`, as `addToken` builds it. */
  function Emit(src: string, start: nat, end: nat, line: int, kind: TokenType, literal: Value): Step
    requires start <= end <= |src|
  {
    Step(end, line, Some(Token(kind, src[start..end], literal, line)), None)
  }

  /** A string token's text is its literal between two double quotes. */
  predicate QuotedLiteral(t: Token)
  {
    t.kind == String ==>
      2 <= |t.lexeme| && t.lexeme[0] == '"' && t.lexeme[|t.lexeme| - 1] == '"' &&
      t.literal == Str(t.lexeme[1..|t.lexeme| - 1])
  }

  /** What every call of `scanToken` guarantees: it consumes at least one character,
      counts the newlines it consumes, and adds at most one of a token or a diagnostic;
      a token's text is exactly the consumed stretch and it carries the line reached. */
  predicate StepFacts(src: string, start: nat, line: int, r: Step)
    requires start < |src|
  {
    && start < r.next <= |src|
    && r.line == line + Newlines(src, start, r.next)
    && (r.token.Some? ==>
          && r.token.value.lexeme == src[start..r.next]
          && r.token.value.line == r.line
          && r.token.value.kind != Eof
          && QuotedLiteral(r.token.value))
    && (r.token.None? || r.diagnostic.None?)
    && (r.diagnostic.Some? ==> r.diagnostic.value.line == r.line)
  }

  /** The token categories of the characters that always make a one-character token. */
  function SingleKind(c: char): Option<TokenType>
  {
    match c
    case '(' => Some(LeftParen)
    case ')' => Some(RightParen)
    case '{' => Some(LeftBrace)
    case '}' => Some(RightBrace)
    case ',' => Some(Comma)
    case '.' => Some(Dot)
    case '-' => Some(Minus)
    case '+' => Some(Plus)
    case ';' => Some(Semicolon)
    case '*' => Some(Star)
    case _ => None
  }

  /** For `!`, `=`, `<` and `>`: the category alone and the category followed by `=`. */
  function EqualsKinds(c: char): Option<(TokenType, TokenType)>
  {
    match c
    case '!' => Some((Bang, BangEqual))
    case '=' => Some((Equal, EqualEqual))
    case '<' => Some((Less, LessEqual))
    case '>' => Some((Greater, GreaterEqual))
    case _ => None
  }

  /** The switch of `scanToken`: one lexeme from `start` at line `line`. It always consumes
      something, adds a token or a diagnostic but never both, and never adds an end-of-input
      token; `ScanStepFacts` states the rest. */
  function ScanStep(src: string, start: nat, line: int): (r: Step)
    requires start < |src|
    ensures start < r.next <= |src|
    ensures r.token.None? || r.diagnostic.None?
    ensures r.token.Some? ==> r.token.value.kind != Eof
  {
    var c := src[start];
    if SingleKind(c).Some? then
      Emit(src, start, start + 1, line, SingleKind(c).value, Null)
    else if EqualsKinds(c).Some? then
      if start + 1 < |src| && src[start + 1] == '=' then
        Emit(src, start, start + 2, line, EqualsKinds(c).value.1, Null)
      else
        Emit(src, start, start + 1, line, EqualsKinds(c).value.0, Null)
    else if c == '/' then
      if start + 1 < |src| && src[start + 1] == '/' then
        Step(LineEnd(src, start + 2), line, None, None)
      else
        Emit(src, start, start + 1, line, Slash, Null)
    else if c == ' ' || c == '\r' || c == '\t' then
      Step(start + 1, line, None, None)
    else if c == '\n' then
      Step(start + 1, line + 1, None, None)
    else if c == '"' then
      ScanString(src, start, line)
    else
      Step(start + 1, line, None, Some(Diagnostic(line, UnexpectedCharacter)))
  }

  /** The string case: from the opening quote at `start` to the next double quote. */
  function ScanString(src: string, start: nat, line: int): (r: Step)
    requires start < |src| && src[start] == '"'
    ensures start < r.next <= |src|
    ensures r.token.Some? <==> r.diagnostic.None?
    ensures r.token.Some? ==> r.token.value.kind == String
    ensures r.diagnostic.Some? ==> r.next == |src| && r.diagnostic.value.message == UnterminatedString
  {
    var close := QuoteEnd(src, start + 1);
    var line' := line + Newlines(src, start + 1, close);
    if close == |src| then
      Step(close, line', None, Some(Diagnostic(line', UnterminatedString)))
    else
      Emit(src, start, close + 1, line', String, Str(src[start + 1..close]))
  }

  /** Every step consumes at least one character, counts the newlines it consumes, and
      adds at most one of a token or a diagnostic; a token's text is the consumed stretch. */
  lemma ScanStepFacts(src: string, start: nat, line: int)
    requires start < |src|
    ensures StepFacts(src, start, line, ScanStep(src, start, line))
  {
    var c := src[start];
    NewlinesOne(src, start);
    if SingleKind(c).Some? || c == ' ' || c == '\r' || c == '\t' || c == '\n' {
    } else if EqualsKinds(c).Some? {
      if start + 1 < |src| && src[start + 1] == '=' {
        NewlinesOne(src, start + 1);
        NewlinesSplit(src, start, start + 1, start + 2);
      }
    } else if c == '/' {
      if start + 1 < |src| && src[start + 1] == '/' {
        CommentFacts(src, start);
      }
    } else if c == '"' {
      StringFacts(src, start, line);
    }
  }

  lemma CommentFacts(src: string, start: nat)
    requires start + 1 < |src| && src[start] == '/' && src[start + 1] == '/'
    ensures Newlines(src, start, LineEnd(src, start + 2)) == 0
  {
    LineEndIsFirst(src, start + 2);
    NewlinesNone(src, start, LineEnd(src, start + 2));
  }

  lemma SliceOfSlice<T>(s: seq<T>, a: nat, b: nat, c: nat, d: nat)
    requires a <= b <= |s| && c <= d <= b - a
    ensures s[a..b][c..d] == s[a + c..a + d]
  {
    forall k | 0 <= k < d - c
      ensures s[a..b][c..d][k] == s[a + c..a + d][k]
    {
      assert s[a..b][c + k] == s[a + c + k];
    }
  }

  lemma StringFacts(src: string, start: nat, line: int)
    requires start < |src| && src[start] == '"'
    ensures StepFacts(src, start, line, ScanString(src, start, line))
  {
    var close := QuoteEnd(src, start + 1);
    NewlinesOne(src, start);
    NewlinesSplit(src, start, start + 1, close);
    if close < |src| {
      ClosedStringFacts(src, start, line, close);
    } else {
      var s := ScanString(src, start, line);
      assert s.next == |src| && s.line == line + Newlines(src, start, s.next);
    }
  }

  /** A string closed at `close`: its token spans both quotes and counts the newlines inside. */
  lemma ClosedStringFacts(src: string, start: nat, line: int, close: nat)
    requires start < |src| && src[start] == '"' && close == QuoteEnd(src, start + 1) < |src|
    requires Newlines(src, start, close) == Newlines(src, start + 1, close)
    ensures StepFacts(src, start, line, ScanString(src, start, line))
  {
    NewlinesOne(src, close);
    NewlinesSplit(src, start, close, close + 1);
    QuotedToken(src, start, close, line + Newlines(src, start + 1, close));
  }

  /** The token of a string from `start` to `close`, both quotes, carries the text between. */
  lemma QuotedToken(src: string, start: nat, close: nat, line: int)
    requires start < close < |src| && src[start] == '"' && src[close] == '"'
    ensures QuotedLiteral(Token(String, src[start..close + 1], Str(src[start + 1..close]), line))
  {
    SliceOfSlice(src, start, close + 1, 1, close - start);
  }

  /** The tokens and diagnostics of a whole scan. */
  datatype Scanned = Scanned(tokens: seq<Token>, diagnostics: seq<Diagnostic>)

  /** Scanning the rest of `src` from `pos` at line `line`: one step at a time, then the
      final end-of-input token carrying the line count reached. */
  function ScanFrom(src: string, pos: nat, line: int): (r: Scanned)
    requires pos <= |src|
    ensures |r.tokens| >= 1
    ensures r.tokens[|r.tokens| - 1] == Token(Eof, "", Null, line + Newlines(src, pos, |src|))
    decreases |src| - pos
  {
    if pos == |src| then
      Scanned([Token(Eof, "", Null, line)], [])
    else
      var s := ScanStep(src, pos, line);
      ScanStepFacts(src, pos, line);
      var rest := ScanFrom(src, s.next, s.line);
      NewlinesSplit(src, pos, s.next, |src|);
      Scanned(OptionToSeq(s.token) + rest.tokens, OptionToSeq(s.diagnostic) + rest.diagnostics)
  }

  lemma ScanFromStep(src: string, pos: nat, line: int)
    requires pos < |src|
    ensures var s := ScanStep(src, pos, line);
      ScanFrom(src, pos, line) == Scanned(OptionToSeq(s.token) + ScanFrom(src, s.next, s.line).tokens,
                                          OptionToSeq(s.diagnostic) + ScanFrom(src, s.next, s.line).diagnostics)
  {
  }

  /** One more character inside a string: the closing quote is still ahead, and the
      newline count grows by one exactly for a newline. */
  lemma InsideString(src: string, from: nat, i: nat)
    requires from <= i < |src| && src[i] != '"'
    ensures QuoteEnd(src, i + 1) == QuoteEnd(src, i)
    ensures Newlines(src, from, i + 1) == Newlines(src, from, i) + if src[i] == '\n' then 1 else 0
  {
    NewlinesOne(src, i);
    NewlinesSplit(src, from, i, i + 1);
  }

  /** The result of `scanTokens` on a fresh scanner. */
  function Scan(src: string): (r: Scanned)
    ensures |r.tokens| >= 1
  {
    ScanFrom(src, 0, 1)
  }

  // ---------------------------------------------------------------------------
  // Properties of one step
  // ---------------------------------------------------------------------------

  /** The ten single-character tokens. */
  lemma SingleCharacterToken(src: string, i: nat, line: int)
    requires i < |src| && SingleKind(src[i]).Some?
    ensures ScanStep(src, i, line) == Step(i + 1, line, Some(Token(SingleKind(src[i]).value, src[i..i + 1], Null, line)), None)
  {
  }

  /** `!`, `=`, `<` and `>` take a following `=` into a two-character token. */
  lemma OperatorToken(src: string, i: nat, line: int)
    requires i < |src| && EqualsKinds(src[i]).Some?
    ensures ScanStep(src, i, line) ==
      if i + 1 < |src| && src[i + 1] == '='
      then Step(i + 2, line, Some(Token(EqualsKinds(src[i]).value.1, src[i..i + 2], Null, line)), None)
      else Step(i + 1, line, Some(Token(EqualsKinds(src[i]).value.0, src[i..i + 1], Null, line)), None)
  {
  }

  /** A `/` followed by `/` skips to the end of the line; a lone `/` is the SLASH token. */
  lemma SlashStep(src: string, i: nat, line: int)
    requires i < |src| && src[i] == '/'
    ensures ScanStep(src, i, line) ==
      if i + 1 < |src| && src[i + 1] == '/'
      then Step(LineEnd(src, i + 2), line, None, None)
      else Step(i + 1, line, Some(Token(Slash, src[i..i + 1], Null, line)), None)
  {
  }

  lemma OperatorMaximalMunch(src: string, i: nat, line: int)
    requires i < |src| && src[i] in {'!', '=', '<', '>'}
    ensures var s := ScanStep(src, i, line);
      var eq := i + 1 < |src| && src[i + 1] == '=';
      && s.token.Some? && s.diagnostic.None? && s.line == line
      && s.next == (if eq then i + 2 else i + 1)
      && (src[i] == '!' ==> s.token.value.kind == if eq then BangEqual else Bang)
      && (src[i] == '=' ==> s.token.value.kind == if eq then EqualEqual else Equal)
      && (src[i] == '<' ==> s.token.value.kind == if eq then LessEqual else Less)
      && (src[i] == '>' ==> s.token.value.kind == if eq then GreaterEqual else Greater)
  {
  }

  lemma LineCommentSkipped(src: string, i: nat, line: int)
    requires i + 1 < |src| && src[i] == '/' && src[i + 1] == '/'
    ensures var s := ScanStep(src, i, line);
      && s.token.None? && s.diagnostic.None? && s.line == line
      && (s.next == |src| || src[s.next] == '\n')
      && forall k :: i <= k < s.next ==> src[k] != '\n'
  {
    LineEndIsFirst(src, i + 2);
  }

  lemma LoneSlash(src: string, i: nat, line: int)
    requires i < |src| && src[i] == '/' && !(i + 1 < |src| && src[i + 1] == '/')
    ensures ScanStep(src, i, line) == Step(i + 1, line, Some(Token(Slash, "/", Null, line)), None)
  {
    assert src[i..i + 1] == "/";
  }

  lemma WhitespaceSkipped(src: string, i: nat, line: int)
    requires i < |src| && src[i] in {' ', '\r', '\t'}
    ensures ScanStep(src, i, line) == Step(i + 1, line, None, None)
  {
  }

  lemma NewlineCounted(src: string, i: nat, line: int)
    requires i < |src| && src[i] == '\n'
    ensures ScanStep(src, i, line) == Step(i + 1, line + 1, None, None)
  {
  }

  /** A string runs to the next double quote, `close`; newlines inside it are counted,
      the token's text includes both quotes and its literal is the text between them. */
  lemma StringLiteral(src: string, i: nat, line: int, close: nat)
    requires i < |src| && src[i] == '"'
    requires close == QuoteEnd(src, i + 1) < |src|
    ensures ScanStep(src, i, line) ==
      Step(close + 1, line + Newlines(src, i + 1, close),
           Some(Token(String, src[i..close + 1], Str(src[i + 1..close]), line + Newlines(src, i + 1, close))),
           None)
  {
  }

  /** Without a closing quote the rest of the input is consumed, no token is added and
      "Unterminated string." is reported at the line reached. */
  lemma UnterminatedStringReported(src: string, i: nat, line: int)
    requires i < |src| && src[i] == '"'
    requires QuoteEnd(src, i + 1) == |src|
    ensures ScanStep(src, i, line) ==
      Step(|src|, line + Newlines(src, i + 1, |src|), None,
           Some(Diagnostic(line + Newlines(src, i + 1, |src|), UnterminatedString)))
  {
    var close := QuoteEnd(src, i + 1);
    assert ScanStep(src, i, line) == ScanString(src, i, line);
    assert src[i + 1..close] == src[i + 1..];
  }

  /** Letters, digits and every other character outside the switch are reported and skipped. */
  lemma UnexpectedCharacterReported(src: string, i: nat, line: int)
    requires i < |src|
    requires src[i] !in {'(', ')', '{', '}', ',', '.', '-', '+', ';', '*',
                         '!', '=', '<', '>', '/', ' ', '\r', '\t', '\n', '"'}
    ensures ScanStep(src, i, line) == Step(i + 1, line, None, Some(Diagnostic(line, UnexpectedCharacter)))
  {
  }

  // ---------------------------------------------------------------------------
  // Properties of a whole scan
  // ---------------------------------------------------------------------------

  /** Only the last token of a scan is an end-of-input token. */
  predicate EofOnlyAtEnd(t: seq<Token>)
  {
    forall k :: 0 <= k < |t| - 1 ==> t[k].kind != Eof
  }

  lemma {:induction false} ScanFromEofOnlyAtEnd(src: string, pos: nat, line: int)
    requires pos <= |src|
    ensures EofOnlyAtEnd(ScanFrom(src, pos, line).tokens)
    decreases |src| - pos
  {
    if pos < |src| {
      var s := ScanStep(src, pos, line);
      ScanStepFacts(src, pos, line);
      ScanFromEofOnlyAtEnd(src, s.next, s.line);
    }
  }

  /** The scan ends with exactly one end-of-input token: empty text, no literal, and the
      line number 1 + the number of newlines in the source. */
  lemma ScanEndsWithEof(src: string)
    ensures |Scan(src).tokens| >= 1
    ensures Scan(src).tokens[|Scan(src).tokens| - 1] == Token(Eof, "", Null, 1 + Newlines(src, 0, |src|))
    ensures EofOnlyAtEnd(Scan(src).tokens)
  {
    ScanFromEofOnlyAtEnd(src, 0, 1);
  }

  /** No token's line is below `line`, and lines never decrease along the list. */
  predicate LinesNonDecreasingFrom(t: seq<Token>, line: int)
  {
    && (forall k :: 0 <= k < |t| ==> line <= t[k].line)
    && (forall j, k :: 0 <= j <= k < |t| ==> t[j].line <= t[k].line)
  }

  lemma {:induction false} ScanLinesNonDecreasing(src: string, pos: nat, line: int)
    requires pos <= |src|
    ensures LinesNonDecreasingFrom(ScanFrom(src, pos, line).tokens, line)
    decreases |src| - pos
  {
    if pos < |src| {
      var s := ScanStep(src, pos, line);
      ScanStepFacts(src, pos, line);
      ScanLinesNonDecreasing(src, s.next, s.line);
    }
  }

  /** Every token before the end-of-input token is the text of a non-empty stretch
      `src[a..b]` of the source, carries line 1 + the newlines in `src[..b]`, and a string
      token is its literal between two quotes. */
  predicate LexedFrom(src: string, t: Token)
  {
    exists a: nat, b: nat {:trigger src[a..b]} ::
      a < b <= |src| && t.lexeme == src[a..b] && t.line == 1 + Newlines(src, 0, b) && QuotedLiteral(t)
  }

  predicate AllLexedFrom(src: string, t: seq<Token>)
  {
    forall k :: 0 <= k < |t| - 1 ==> LexedFrom(src, t[k])
  }

  lemma {:induction false} ScanTokensFromSource(src: string, pos: nat, line: int)
    requires pos <= |src| && line == 1 + Newlines(src, 0, pos)
    ensures AllLexedFrom(src, ScanFrom(src, pos, line).tokens)
    decreases |src| - pos
  {
    if pos < |src| {
      var s := ScanStep(src, pos, line);
      ScanStepFacts(src, pos, line);
      NewlinesSplit(src, 0, pos, s.next);
      ScanTokensFromSource(src, s.next, s.line);
      if s.token.Some? {
        assert src[pos..s.next] == s.token.value.lexeme;
        assert LexedFrom(src, s.token.value);
      }
    }
  }

  lemma ScanTokensAreSlices(src: string)
    ensures AllLexedFrom(src, Scan(src).tokens)
  {
    ScanTokensFromSource(src, 0, 1);
  }

  // ---------------------------------------------------------------------------
  // One step as the scanner object takes it
  // ---------------------------------------------------------------------------

  /** The cursor, line and lists after a call of `scanToken` are those of the step
      `ScanStep` describes: `tokens0` and `diagnostics0` gain its token and diagnostic. */
  predicate Taken(src: string, start: nat, line: int, next: nat, line': int,
                  tokens0: seq<Token>, tokens: seq<Token>,
                  diagnostics0: seq<Diagnostic>, diagnostics: seq<Diagnostic>)
    requires start < |src|
  {
    var s := ScanStep(src, start, line);
    && next == s.next && line' == s.line
    && tokens == tokens0 + OptionToSeq(s.token)
    && diagnostics == diagnostics0 + OptionToSeq(s.diagnostic)
  }

  lemma TakenAdvances(src: string, start: nat, line: int, next: nat, line': int,
                      tokens0: seq<Token>, tokens: seq<Token>,
                      diagnostics0: seq<Diagnostic>, diagnostics: seq<Diagnostic>)
    requires start < |src| && Taken(src, start, line, next, line', tokens0, tokens, diagnostics0, diagnostics)
    ensures start < next <= |src| && line' == line + Newlines(src, start, next)
  {
    ScanStepFacts(src, start, line);
  }

  lemma SingleTaken(src: string, start: nat, line: int, tokens0: seq<Token>, tokens: seq<Token>, diagnostics: seq<Diagnostic>)
    requires start < |src| && SingleKind(src[start]).Some?
    requires tokens == tokens0 + [Token(SingleKind(src[start]).value, src[start..start + 1], Null, line)]
    ensures Taken(src, start, line, start + 1, line, tokens0, tokens, diagnostics, diagnostics)
  {
    SingleCharacterToken(src, start, line);
  }

  lemma OperatorTaken(src: string, start: nat, line: int, next: nat,
                      tokens0: seq<Token>, tokens: seq<Token>, diagnostics: seq<Diagnostic>)
    requires start < |src| && EqualsKinds(src[start]).Some?
    requires next == if start + 1 < |src| && src[start + 1] == '=' then start + 2 else start + 1
    requires tokens == tokens0 + [Token(if next == start + 2 then EqualsKinds(src[start]).value.1
                                        else EqualsKinds(src[start]).value.0, src[start..next], Null, line)]
    ensures Taken(src, start, line, next, line, tokens0, tokens, diagnostics, diagnostics)
  {
    OperatorToken(src, start, line);
  }

  lemma CommentTaken(src: string, start: nat, line: int, tokens: seq<Token>, diagnostics: seq<Diagnostic>)
    requires start + 1 < |src| && src[start] == '/' && src[start + 1] == '/'
    ensures Taken(src, start, line, LineEnd(src, start + 2), line, tokens, tokens, diagnostics, diagnostics)
  {
    SlashStep(src, start, line);
    assert tokens + [] == tokens && diagnostics + [] == diagnostics;
  }

  lemma SlashTaken(src: string, start: nat, line: int, tokens0: seq<Token>, tokens: seq<Token>, diagnostics: seq<Diagnostic>)
    requires start < |src| && src[start] == '/' && !(start + 1 < |src| && src[start + 1] == '/')
    requires tokens == tokens0 + [Token(Slash, src[start..start + 1], Null, line)]
    ensures Taken(src, start, line, start + 1, line, tokens0, tokens, diagnostics, diagnostics)
  {
    SlashStep(src, start, line);
  }

  lemma BlankTaken(src: string, start: nat, line: int, tokens: seq<Token>, diagnostics: seq<Diagnostic>)
    requires start < |src| && src[start] in {' ', '\r', '\t', '\n'}
    ensures Taken(src, start, line, start + 1, if src[start] == '\n' then line + 1 else line,
                  tokens, tokens, diagnostics, diagnostics)
  {
    assert tokens + [] == tokens && diagnostics + [] == diagnostics;
  }

  lemma StringTaken(src: string, start: nat, line: int, next: nat, line': int,
                    tokens0: seq<Token>, tokens: seq<Token>,
                    diagnostics0: seq<Diagnostic>, diagnostics: seq<Diagnostic>)
    requires start < |src| && src[start] == '"'
    requires line' == line + Newlines(src, start + 1, QuoteEnd(src, start + 1))
    requires QuoteEnd(src, start + 1) < |src| ==>
      && next == QuoteEnd(src, start + 1) + 1
      && tokens == tokens0 + [Token(String, src[start..next], Str(src[start + 1..next - 1]), line')]
      && diagnostics == diagnostics0
    requires QuoteEnd(src, start + 1) == |src| ==>
      && next == |src|
      && tokens == tokens0
      && diagnostics == diagnostics0 + [Diagnostic(line', UnterminatedString)]
    ensures Taken(src, start, line, next, line', tokens0, tokens, diagnostics0, diagnostics)
  {
    var close := QuoteEnd(src, start + 1);
    var s := ScanString(src, start, line);
    assert ScanStep(src, start, line) == s;
    if close < |src| {
      assert next - 1 == close;
      assert s.next == next && s.line == line' && s.diagnostic == None;
      assert s.token.value.lexeme == src[start..next];
      assert s.token.value.literal == Str(src[start + 1..next - 1]);
      assert diagnostics == diagnostics0 + [];
    } else {
      assert s.next == next && s.line == line' && s.token == None;
      assert tokens == tokens0 + [];
    }
  }

  lemma UnexpectedTaken(src: string, start: nat, line: int, tokens: seq<Token>,
                        diagnostics0: seq<Diagnostic>, diagnostics: seq<Diagnostic>)
    requires start < |src| && SingleKind(src[start]).None? && EqualsKinds(src[start]).None?
    requires src[start] !in {'/', ' ', '\r', '\t', '\n', '"'}
    requires diagnostics == diagnostics0 + [Diagnostic(line, UnexpectedCharacter)]
    ensures Taken(src, start, line, start + 1, line, tokens, tokens, diagnostics0, diagnostics)
  {
    UnexpectedCharacterReported(src, start, line);
    assert tokens + [] == tokens;
  }

  // ---------------------------------------------------------------------------
  // The scanner object
  // ---------------------------------------------------------------------------

  class Scanner {
    const source: string
    var tokens: seq<Token>
    var diagnostics: seq<Diagnostic>
    /** Start of the lexeme being scanned. */
    var start: nat
    /** The first unconsumed character. */
    var current: nat
    var line: int

    /** The cursors stay inside the source and `line` is 1 plus the newlines consumed. */
    ghost predicate Valid()
      reads this
    {
      start <= current <= |source| && line == 1 + Newlines(source, 0, current)
    }

    constructor(source: string)
      ensures this.source == source && tokens == [] && diagnostics == []
      ensures start == 0 && current == 0 && line == 1 && Valid()
    {
      this.source := source;
      tokens := [];
      diagnostics := [];
      start := 0;
      current := 0;
      line := 1;
    }

    method ScanTokens() returns (result: seq<Token>)
      requires Valid()
      modifies this
      ensures Valid() && current == |source| && result == tokens
      ensures tokens == old(tokens) + ScanFrom(source, old(current), old(line)).tokens
      ensures diagnostics == old(diagnostics) + ScanFrom(source, old(current), old(line)).diagnostics
    {
      ghost var all := ScanFrom(source, current, line);
      while !IsAtEnd()
        invariant Valid()
        invariant tokens + ScanFrom(source, current, line).tokens == old(tokens) + all.tokens
        invariant diagnostics + ScanFrom(source, current, line).diagnostics == old(diagnostics) + all.diagnostics
        decreases |source| - current
      {
        start := current;
        ghost var t0, d0, c0, l0 := tokens, diagnostics, current, line;
        ScanFromStep(source, c0, l0);
        ScanToken();
        TakenAdvances(source, c0, l0, current, line, t0, tokens, d0, diagnostics);
        NewlinesSplit(source, 0, c0, current);
        ghost var s := ScanStep(source, c0, l0);
        AppendAssoc(t0, OptionToSeq(s.token), ScanFrom(source, current, line).tokens);
        AppendAssoc(d0, OptionToSeq(s.diagnostic), ScanFrom(source, current, line).diagnostics);
      }
      tokens := tokens + [Token(Eof, "", Null, line)];
      result := tokens;
    }

    /** One lexeme from `start`: exactly the step `ScanStep` describes. */
    method ScanToken()
      requires start == current < |source|
      modifies this`current, this`line, this`tokens, this`diagnostics
      ensures Taken(source, start, old(line), current, line, old(tokens), tokens, old(diagnostics), diagnostics)
    {
      ghost var line0, tokens0, diagnostics0 := line, tokens, diagnostics;
      var c := Advance();
      // the switch over the character, with its cases grouped as `SingleKind` and `EqualsKinds` tabulate them
      if SingleKind(c).Some? {
        AddToken(SingleKind(c).value);
        SingleTaken(source, start, line0, tokens0, tokens, diagnostics);
      } else if EqualsKinds(c).Some? {
        var m := Match('=');
        AddToken(if m then EqualsKinds(c).value.1 else EqualsKinds(c).value.0);
        OperatorTaken(source, start, line0, current, tokens0, tokens, diagnostics);
      } else if c == '/' {
        var m := Match('/');
        if m {
          LineComment();
          CommentTaken(source, start, line0, tokens, diagnostics);
        } else {
          AddToken(Slash);
          SlashTaken(source, start, line0, tokens0, tokens, diagnostics);
        }
      } else if c == ' ' || c == '\r' || c == '\t' {
        BlankTaken(source, start, line0, tokens, diagnostics);
      } else if c == '\n' {
        line := line + 1;
        BlankTaken(source, start, line0, tokens, diagnostics);
      } else if c == '"' {
        StringToken();
        StringTaken(source, start, line0, current, line, tokens0, tokens, diagnostics0, diagnostics);
      } else {
        diagnostics := diagnostics + [Diagnostic(line, UnexpectedCharacter)];
        UnexpectedTaken(source, start, line0, tokens, diagnostics0, diagnostics);
      }
    }

    /** The rest of a string literal, after its opening quote has been consumed: up to and
        including the next double quote, which adds the STRING token, or to the end of the
        input, which reports "Unterminated string.". Newlines inside advance the line. */
    method StringToken()
      requires start < |source| && current == start + 1 && source[start] == '"'
      modifies this`current, this`line, this`tokens, this`diagnostics
      ensures line == old(line) + Newlines(source, start + 1, QuoteEnd(source, start + 1))
      ensures QuoteEnd(source, start + 1) < |source| ==>
        && current == QuoteEnd(source, start + 1) + 1
        && tokens == old(tokens) + [Token(String, source[start..current], Str(source[start + 1..current - 1]), line)]
        && diagnostics == old(diagnostics)
      ensures QuoteEnd(source, start + 1) == |source| ==>
        && current == |source|
        && tokens == old(tokens)
        && diagnostics == old(diagnostics) + [Diagnostic(line, UnterminatedString)]
    {
      StringBody();
      if IsAtEnd() {
        diagnostics := diagnostics + [Diagnostic(line, UnterminatedString)];
        return;
      }

      var _ := Advance();
      AddTokenLiteral(String, Str(source[start + 1..current - 1]));
    }

    /** The characters of a string up to its closing double quote or the end of the input,
        which are left unread; each newline among them advances the line. */
    method StringBody()
      requires current <= |source|
      modifies this`current, this`line
      ensures current == QuoteEnd(source, old(current))
      ensures line == old(line) + Newlines(source, old(current), current)
    {
      while Peek() != '"' && !IsAtEnd()
        invariant old(current) <= current <= |source|
        invariant QuoteEnd(source, current) == QuoteEnd(source, old(current))
        invariant line == old(line) + Newlines(source, old(current), current)
        decreases |source| - current
      {
        InsideString(source, old(current), current);
        if Peek() == '\n' {
          line := line + 1;
        }
        var _ := Advance();
      }
    }

    /** The rest of a line comment: up to the next newline, which is left unread. */
    method LineComment()
      requires current <= |source|
      modifies this`current
      ensures current == LineEnd(source, old(current))
    {
      while Peek() != '\n' && !IsAtEnd()
        invariant old(current) <= current <= |source|
        invariant LineEnd(source, current) == LineEnd(source, old(current))
        decreases |source| - current
      {
        var _ := Advance();
      }
    }

    /** Consumes the current character if it is `expected`. */
    method Match(expected: char) returns (matched: bool)
      modifies this`current
      ensures matched <==> old(current) < |source| && source[old(current)] == expected
      ensures current == if matched then old(current) + 1 else old(current)
    {
      if IsAtEnd() {
        return false;
      }
      if source[current] != expected {
        return false;
      }
      current := current + 1;
      return true;
    }

    /** The current character, or NUL at the end of the input. */
    function Peek(): (c: char)
      reads this
      ensures current < |source| ==> c == source[current]
      ensures current >= |source| ==> c == '\0'
    {
      if IsAtEnd() then '\0' else source[current]
    }

    /** Whether no character is left to read. */
    predicate IsAtEnd(): (b: bool)
      reads this
      ensures !b <==> current < |source|
    {
      current >= |source|
    }

    method Advance() returns (c: char)
      requires current < |source|
      modifies this`current
      ensures c == source[old(current)] && current == old(current) + 1
    {
      c := source[current];
      current := current + 1;
    }

    method AddToken(kind: TokenType)
      requires start <= current <= |source|
      modifies this`tokens
      ensures tokens == old(tokens) + [Token(kind, source[start..current], Null, line)]
    {
      AddTokenLiteral(kind, Null);
    }

    method AddTokenLiteral(kind: TokenType, literal: Value)
      requires start <= current <= |source|
      modifies this`tokens
      ensures tokens == old(tokens) + [Token(kind, source[start..current], literal, line)]
    {
      var text := source[start..current];
      tokens := tokens + [Token(kind, text, literal, line)];
    }
  }
}
