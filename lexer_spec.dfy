/** The lexer of src/lexer.rs as functions on an explicit state. `LexerImpl.Lexer`
    is proved to follow these functions step by step, and `LexerProofs` proves what
    they promise. */
module LexerSpec {
  import opened LexerTypes

  /** The fields of the source's `Lexer` struct, except `current_char`, which is
      passed along explicitly here. `pending` is `proposed_token_type`, `buf` is
      `partial_token`. */
  datatype LexState = LexState(
    tokens: seq<Token>,
    buf: string,
    pending: Option<TokenType>,
    startLine: nat,
    endLine: nat,
    startIndex: nat,
    endIndex: nat,
    file: string,
    contents: string)

  function Start(s: LexState): Pos { Pos(s.startLine, s.startIndex) }

  function End(s: LexState): Pos { Pos(s.endLine, s.endIndex) }

  /** Everything read so far: the finished tokens' values and then the partial lexeme. */
  function Text(s: LexState): string { Flatten(s.tokens) + s.buf }

  /** The state of a new lexer for `file`: no tokens, nothing pending, both ends of the
      span at line 1, index 0. The source text is not known yet. */
  function Initial(file: string): LexState {
    LexState([], [], None, 1, 1, 0, 0, file, [])
  }

  /** The characters that end a numeric literal, in the order the source lists them. */
  const LiteralTerminators := "+-*/!\"%^&(){}[].,|:; \n"

  /** `c` is one of `LiteralTerminators`. */
  predicate IsLiteralTerminator(c: char) {
    c == '+' || c == '-' || c == '*' || c == '/' || c == '!' || c == '"' || c == '%' || c == '^'
    || c == '&' || c == '(' || c == ')' || c == '{' || c == '}' || c == '[' || c == ']' || c == '.'
    || c == ',' || c == '|' || c == ':' || c == ';' || c == ' ' || c == '\n'
  }

  /** `is_literal_terminator` holds exactly of the characters of its string. */
  lemma LiteralTerminatorsListed(c: char)
    ensures IsLiteralTerminator(c) <==> c in LiteralTerminators
  {
  }

  predicate IsDigit(c: char) { '0' <= c <= '9' }

  predicate IsLowerHexDigit(c: char) { IsDigit(c) || 'a' <= c <= 'f' }

  predicate IsUpperHexLetter(c: char) { 'A' <= c <= 'F' }

  predicate IsAsciiLetter(c: char) { 'a' <= c <= 'z' || 'A' <= c <= 'Z' }

  /** What the source demands of the state before it reads a character: a pending kind
      that can still grow (a bracket, newline, end of file or any operator except a
      lone `/` makes `consume_char` panic), and a non-empty lexeme whenever a numeric
      literal is pending (its last character is unwrapped). */
  predicate Resumable(s: LexState) {
    match s.pending
    case None => true
    case Some(t) =>
      match t
      case BinLiteral => s.buf != []
      case HexLiteral => s.buf != []
      case DecimalLiteral(_) => s.buf != []
      case StringLiteral(_) => true
      case LineComment => true
      case Operator(op) => op == Divide
      case Equals => true
      case Identifier => true
      case Whitespace => true
      case _ => false
  }

  /** `push_char`: append `c` to the lexeme and move the end of the span past it. */
  function PushChar(s: LexState, c: char): LexState {
    var e := Next(End(s), c);
    s.(buf := s.buf + [c], endLine := e.line, endIndex := e.index)
  }

  /** `push_token`: finish the pending token over the current span, then start the next
      span where this one ends. */
  function PushToken(s: LexState): LexState
    requires s.pending.Some?
  {
    var t := Token(s.pending.value, s.buf, s.startLine, s.endLine, s.startIndex, s.endIndex);
    s.(tokens := s.tokens + [t], buf := [], pending := None,
       startLine := s.endLine, startIndex := s.endIndex)
  }

  /** `construct_error`: an error of kind `e` over the current lexeme and span. */
  function ConstructError(s: LexState, e: LexErrorType): LexError {
    LexError(e, s.buf, s.startLine, s.endLine, s.startIndex, s.endIndex, s.file, s.contents)
  }

  /** `construct_error_w_char`: as `ConstructError`, with the offending character added
      to the lexeme but not to the span. */
  function ConstructErrorWithChar(s: LexState, c: char, e: LexErrorType): LexError {
    ConstructError(s.(buf := s.buf + [c]), e)
  }

  /** Reading a character never changes the file name or the source text, and an error
      reports both. */
  predicate KeepsSource(s: LexState, r: Result<LexState, LexError>) {
    match r
    case Ok(s') => s'.file == s.file && s'.contents == s.contents
    case Err(e) => e.file == s.file && e.fileContents == s.contents
  }

  /** Start a token of kind `t` with `c`. */
  function Begin(s: LexState, c: char, t: TokenType): LexState {
    PushChar(s, c).(pending := Some(t))
  }

  /** Emit the one-character token `c` of kind `t`. */
  function Emit(s: LexState, c: char, t: TokenType): LexState {
    PushToken(Begin(s, c, t))
  }

  /** What the idle arm of `consume_char` does with a character: start a token that may
      grow, emit a one-character token at once, or fail. */
  datatype IdleAction = StartToken(kind: TokenType) | SingleToken(kind: TokenType) | Reject(error: LexErrorType)

  /** The `match current_char` of the idle arm. */
  function Classify(c: char): IdleAction {
    if IsDigit(c) then StartToken(DecimalLiteral(false))
    else if c == '"' then StartToken(StringLiteral(false))
    else if c == '\'' then Reject(WrongQuotes)
    else if c == '+' then SingleToken(Operator(Plus))
    else if c == '-' then SingleToken(Operator(Minus))
    else if c == '*' then SingleToken(Operator(Multiply))
    else if c == '/' then StartToken(Operator(Divide))
    else if c == '(' then SingleToken(LeftParen)
    else if c == ')' then SingleToken(RightParen)
    else if c == '{' then SingleToken(LeftBrace)
    else if c == '}' then SingleToken(RightBrace)
    else if IsAsciiLetter(c) then StartToken(Identifier)
    else if c == ' ' then StartToken(Whitespace)
    else if c == '\n' then SingleToken(Newline)
    else if c == '=' then StartToken(Equals)
    else Reject(UnexpectedCharacter)
  }

  /** The idle arm of `consume_char` (nothing pending). It never reads the character
      again. */
  function ConsumeIdle(s: LexState, c: char): (r: Result<LexState, LexError>)
    ensures r.Ok? ==> Resumable(r.value)
    ensures KeepsSource(s, r)
  {
    match Classify(c)
    case StartToken(t) => Ok(Begin(s, c, t))
    case SingleToken(t) => Ok(Emit(s, c, t))
    case Reject(e) => Err(ConstructErrorWithChar(s, c, e))
  }

  /** Finish the pending token and read `c` again; nothing is pending any more, so this
      second reading is the idle arm. */
  function Redispatch(s: LexState, c: char): (r: Result<LexState, LexError>)
    requires s.pending.Some?
    ensures r.Ok? ==> Resumable(r.value)
    ensures KeepsSource(s, r)
  {
    ConsumeIdle(PushToken(s), c)
  }

  /** The `BinLiteral` arm. The lexeme starts with `0b`, so its last character is `b`
      exactly when no bit has been read. */
  function ConsumeBin(s: LexState, c: char): (r: Result<LexState, LexError>)
    requires s.pending == Some(BinLiteral) && s.buf != []
    ensures r.Ok? ==> Resumable(r.value)
    ensures KeepsSource(s, r)
  {
    if c == '0' || c == '1' then Ok(PushChar(s, c))
    else if IsLiteralTerminator(c) then
      if s.buf[|s.buf| - 1] == 'b' then Err(ConstructErrorWithChar(s, c, EmptyBinLiteral))
      else Redispatch(s, c)
    else Err(ConstructErrorWithChar(s, c, MalformedBinLiteral))
  }

  /** The `HexLiteral` arm. Unlike every other error raised while reading a character,
      an empty hexadecimal literal is reported without the offending character. */
  function ConsumeHex(s: LexState, c: char): (r: Result<LexState, LexError>)
    requires s.pending == Some(HexLiteral) && s.buf != []
    ensures r.Ok? ==> Resumable(r.value)
    ensures KeepsSource(s, r)
  {
    if IsLowerHexDigit(c) then Ok(PushChar(s, c))
    else if IsUpperHexLetter(c) then Err(ConstructErrorWithChar(s, c, WrongHexCase))
    else if IsLiteralTerminator(c) then
      if s.buf[|s.buf| - 1] == 'x' then Err(ConstructError(s, EmptyHexLiteral))
      else Redispatch(s, c)
    else Err(ConstructErrorWithChar(s, c, MalformedHexLiteral))
  }

  /** The `DecimalLiteral` arm, which also turns a lone `0` into the start of a binary or
      hexadecimal literal. */
  function ConsumeDecimal(s: LexState, c: char, hasDecimalPoint: bool): (r: Result<LexState, LexError>)
    requires s.pending == Some(DecimalLiteral(hasDecimalPoint)) && s.buf != []
    ensures r.Ok? ==> Resumable(r.value)
    ensures KeepsSource(s, r)
  {
    if s.buf == "0" && c == 'b' then Ok(Begin(s, c, BinLiteral))
    else if s.buf == "0" && c == 'x' then Ok(Begin(s, c, HexLiteral))
    else if IsDigit(c) then Ok(PushChar(s, c))
    else if c == '.' then
      if hasDecimalPoint then Err(ConstructErrorWithChar(s, c, MultipleDecimalPoints))
      else Ok(Begin(s, c, DecimalLiteral(true)))
    else if IsLiteralTerminator(c) then
      if s.buf[|s.buf| - 1] == '.' then Err(ConstructErrorWithChar(s, c, TrailingDPoint))
      else Redispatch(s, c)
    else Err(ConstructErrorWithChar(s, c, MalformedDecLiteral))
  }

  /** The `StringLiteral` arm: an unescaped `"` closes the literal; every other character
      is part of it. */
  function ConsumeString(s: LexState, c: char, escaped: bool): LexState
    requires s.pending == Some(StringLiteral(escaped))
  {
    if c == '"' && !escaped then PushToken(PushChar(s, c)) else PushChar(s, c)
  }

  /** The `LineComment` arm: a comment runs up to, not including, the newline. */
  function ConsumeComment(s: LexState, c: char): (r: Result<LexState, LexError>)
    requires s.pending == Some(LineComment)
    ensures r.Ok? ==> Resumable(r.value)
    ensures KeepsSource(s, r)
  {
    if c == '\n' then Redispatch(s, c) else Ok(PushChar(s, c))
  }

  /** The `Operator` arm, reached only with a lone `/` pending: a second `/` starts a
      comment, anything else makes the `/` a division operator. */
  function ConsumeDivide(s: LexState, c: char): (r: Result<LexState, LexError>)
    requires s.pending == Some(Operator(Divide))
    ensures r.Ok? ==> Resumable(r.value)
    ensures KeepsSource(s, r)
  {
    if c == '/' then Ok(Begin(s, c, LineComment)) else Redispatch(s, c)
  }

  /** The `Whitespace` arm: a run of spaces. */
  function ConsumeWhitespace(s: LexState, c: char): (r: Result<LexState, LexError>)
    requires s.pending == Some(Whitespace)
    ensures r.Ok? ==> Resumable(r.value)
    ensures KeepsSource(s, r)
  {
    if c == ' ' then Ok(PushChar(s, c)) else Redispatch(s, c)
  }

  /** The `Identifier` arm: an identifier goes on with any alphabetic character. */
  function ConsumeIdentifier(alphabetic: char -> bool, s: LexState, c: char): (r: Result<LexState, LexError>)
    requires s.pending == Some(Identifier)
    ensures r.Ok? ==> Resumable(r.value)
    ensures KeepsSource(s, r)
  {
    if alphabetic(c) then Ok(PushChar(s, c)) else Redispatch(s, c)
  }

  /** The `Equals` arm: a second `=` makes the equality operator, anything else leaves
      a lone `=`. */
  function ConsumeEquals(s: LexState, c: char): (r: Result<LexState, LexError>)
    requires s.pending == Some(Equals)
    ensures r.Ok? ==> Resumable(r.value)
    ensures KeepsSource(s, r)
  {
    if c == '=' then Ok(Emit(s, c, Operator(Equality))) else Redispatch(s, c)
  }

  /** `consume_char`: read one character in the current state. The source finishes a
      token and then calls itself once on the same character; that call always lands in
      the idle arm, which is `Redispatch` here. A pending bracket, newline, end of file
      or operator other than `/` would make the source panic; `Resumable` rules them out
      and `Consume` keeps it. */
  function Consume(alphabetic: char -> bool, s: LexState, c: char): (r: Result<LexState, LexError>)
    requires Resumable(s)
    ensures r.Ok? ==> Resumable(r.value)
    ensures KeepsSource(s, r)
  {
    match s.pending
    case None => ConsumeIdle(s, c)
    case Some(BinLiteral) => ConsumeBin(s, c)
    case Some(HexLiteral) => ConsumeHex(s, c)
    case Some(DecimalLiteral(hasDecimalPoint)) => ConsumeDecimal(s, c, hasDecimalPoint)
    case Some(StringLiteral(escaped)) => Ok(ConsumeString(s, c, escaped))
    case Some(LineComment) => ConsumeComment(s, c)
    case Some(Operator(_)) => ConsumeDivide(s, c)
    case Some(Whitespace) => ConsumeWhitespace(s, c)
    case Some(Identifier) => ConsumeIdentifier(alphabetic, s, c)
    case Some(Equals) => ConsumeEquals(s, c)
  }

  /** The `for` loop of `lex`: read `input` character by character, stopping at the
      first error. */
  function Run(alphabetic: char -> bool, s: LexState, input: string): (r: Result<LexState, LexError>)
    requires Resumable(s)
    ensures r.Ok? ==> Resumable(r.value)
    ensures KeepsSource(s, r)
    decreases |input|
  {
    if input == [] then Ok(s)
    else
      match Consume(alphabetic, s, input[0])
      case Err(e) => Err(e)
      case Ok(s') => Run(alphabetic, s', input[1..])
  }

  /** The end of `lex`: a pending string literal is unterminated, any other pending token
      lacks the trailing newline, and otherwise a zero-width `EndOfFile` token closes the
      sequence. */
  function Finish(s: LexState): (r: Result<seq<Token>, LexError>)
    ensures r.Err? <==> s.pending.Some?
    ensures r.Err? ==> r.error.errorType == (if s.pending.value.StringLiteral? then UnexpectedEOFString else MissingTrailingNewLine)
    ensures r.Err? ==> r.error.partialToken == s.buf && r.error.file == s.file && r.error.fileContents == s.contents
    ensures r.Ok? ==> |r.value| == |s.tokens| + 1 && r.value[..|s.tokens|] == s.tokens
    ensures r.Ok? ==> r.value[|s.tokens|] == Token(EndOfFile, s.buf, s.startLine, s.endLine, s.startIndex, s.endIndex)
  {
    match s.pending
    case Some(StringLiteral(_)) => Err(ConstructError(s, UnexpectedEOFString))
    case None => Ok(PushToken(s.(pending := Some(EndOfFile))).tokens)
    case Some(_) => Err(ConstructError(s, MissingTrailingNewLine))
  }

  /** The state `lex` starts its loop in: a new lexer that has recorded the source. */
  function Start0(file: string, source: string): LexState {
    Initial(file).(contents := source)
  }

  /** `Lexer::new(file).lex(source)`. */
  function Lex(alphabetic: char -> bool, file: string, source: string): (r: Result<seq<Token>, LexError>)
    ensures r.Err? ==> r.error.file == file && r.error.fileContents == source
  {
    match Run(alphabetic, Start0(file, source), source)
    case Err(e) => Err(e)
    case Ok(s) => Finish(s)
  }
}
