/** Values produced and consumed by the AnCode lexer (src/lexer.rs): token kinds,
    operators, the error taxonomy, finished tokens, errors and source positions. */
module LexerTypes {

  datatype Option<T> = None | Some(value: T)

  datatype Result<T, E> = Ok(value: T) | Err(error: E)

  /** Arithmetic and comparison operators. The source calls the last one `Equals`
      (displayed as "Equality operator"); it is renamed here because Dafny patterns
      cannot tell it apart from the token kind `Equals`. */
  datatype Operator = Plus | Minus | Multiply | Divide | Equality

  /** Token kinds. While a token is being assembled the kind doubles as the state of
      the tokenizer: `DecimalLiteral` records whether a decimal point was seen, and
      `StringLiteral` whether the next character is escaped. */
  datatype TokenType =
    | BinLiteral
    | HexLiteral
    | DecimalLiteral(hasDecimalPoint: bool)
    | StringLiteral(nextCharEscaped: bool)
    | Operator(op: Operator)
    | LineComment
    | LeftParen
    | RightParen
    | LeftBrace
    | RightBrace
    | Equals
    | Identifier
    | Whitespace
    | Newline
    | EndOfFile

  /** The twelve ways lexing can fail. */
  datatype LexErrorType =
    | WrongQuotes
    | MalformedBinLiteral
    | WrongHexCase
    | MalformedHexLiteral
    | MalformedDecLiteral
    | MultipleDecimalPoints
    | UnexpectedCharacter
    | TrailingDPoint
    | EmptyBinLiteral
    | EmptyHexLiteral
    | UnexpectedEOFString
    | MissingTrailingNewLine

  /** A finished token: its kind, its lexeme and the span it covers.
      Lines count from 1, indices (columns) from 0. */
  datatype Token = Token(
    tokenType: TokenType,
    value: string,
    startLine: nat,
    endLine: nat,
    startIndex: nat,
    endIndex: nat)

  /** The first error met; lexing stops there. `partialToken` is the lexeme gathered so
      far (sometimes with the offending character added), and the error keeps the file
      name and the whole source so that it can be rendered. */
  datatype LexError = LexError(
    errorType: LexErrorType,
    partialToken: string,
    startLine: nat,
    endLine: nat,
    startIndex: nat,
    endIndex: nat,
    file: string,
    fileContents: string)

  /** A position in the source: a 1-based line and a 0-based index within it. */
  datatype Pos = Pos(line: nat, index: nat)

  const Origin := Pos(1, 0)

  function StartOf(t: Token): Pos { Pos(t.startLine, t.startIndex) }

  function EndOf(t: Token): Pos { Pos(t.endLine, t.endIndex) }

  /** Where the position moves to after one character: a newline starts the next line
      at index 0, anything else moves one index to the right. */
  function Next(p: Pos, c: char): Pos {
    if c == '\n' then Pos(p.line + 1, 0) else Pos(p.line, p.index + 1)
  }

  /** The position reached from `p` after reading `text`. */
  function Advance(p: Pos, text: string): Pos
    decreases |text|
  {
    if text == [] then p else Advance(Next(p, text[0]), text[1..])
  }

  /** Reading two pieces of text one after the other moves the position as reading
      their concatenation does. */
  lemma {:induction false} AdvanceAppend(p: Pos, a: string, b: string)
    ensures Advance(p, a + b) == Advance(Advance(p, a), b)
    decreases |a|
  {
    if a == [] {
      assert a + b == b;
    } else {
      assert (a + b)[0] == a[0];
      assert (a + b)[1..] == a[1..] + b;
      AdvanceAppend(Next(p, a[0]), a[1..], b);
    }
  }

  /** The line count only grows, and it grows by the number of newlines read. */
  lemma {:induction false} AdvanceLine(p: Pos, text: string)
    ensures Advance(p, text).line == p.line + multiset(text)['\n']
    decreases |text|
  {
    if text != [] {
      assert text == [text[0]] + text[1..];
      AdvanceLine(Next(p, text[0]), text[1..]);
    }
  }

  /** The text of a sequence of tokens, their values laid end to end. */
  function Flatten(tokens: seq<Token>): string
  {
    if tokens == [] then [] else Flatten(tokens[..|tokens| - 1]) + tokens[|tokens| - 1].value
  }

  lemma FlattenSnoc(tokens: seq<Token>, t: Token)
    ensures Flatten(tokens + [t]) == Flatten(tokens) + t.value
  {
    assert (tokens + [t])[..|tokens|] == tokens;
  }
}
