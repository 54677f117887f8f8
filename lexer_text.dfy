/** The lexer never loses or invents text: reading a character adds exactly that
    character to what has been read, and finished tokens are never dropped or changed.
    This holds in every state the source can reach, without the invariant. */
module LexerText {
  import opened LexerTypes
  import opened LexerSpec

  /** `s'` is `s` after reading `c`: the text read so far grew by exactly `c`, and the
      finished tokens of `s` are still there, in order. */
  ghost predicate Extends(s: LexState, s': LexState, c: char) {
    Text(s') == Text(s) + [c] && s.tokens <= s'.tokens
  }

  lemma PushCharText(s: LexState, c: char)
    ensures Text(PushChar(s, c)) == Text(s) + [c]
  {
    assert Flatten(s.tokens) + (s.buf + [c]) == Flatten(s.tokens) + s.buf + [c];
  }

  /** `push_token` moves the lexeme into a token without changing the text. */
  lemma PushTokenText(s: LexState)
    requires s.pending.Some?
    ensures Text(PushToken(s)) == Text(s) && s.tokens <= PushToken(s).tokens
  {
    FlattenSnoc(s.tokens, PushToken(s).tokens[|s.tokens|]);
    assert PushToken(s).tokens == s.tokens + [PushToken(s).tokens[|s.tokens|]];
  }

  lemma IdleExtends(s: LexState, c: char)
    ensures ConsumeIdle(s, c).Ok? ==> Extends(s, ConsumeIdle(s, c).value, c)
  {
    PushCharText(s, c);
    match Classify(c)
    case StartToken(t) =>
    case SingleToken(t) => PushTokenText(Begin(s, c, t));
    case Reject(_) =>
  }

  lemma RedispatchExtends(s: LexState, c: char)
    requires s.pending.Some?
    ensures Redispatch(s, c).Ok? ==> Extends(s, Redispatch(s, c).value, c)
  {
    PushTokenText(s);
    IdleExtends(PushToken(s), c);
  }

  lemma PushCharExtends(s: LexState, c: char)
    ensures Extends(s, PushChar(s, c), c)
  {
    PushCharText(s, c);
  }

  lemma BeginExtends(s: LexState, c: char, t: TokenType)
    ensures Extends(s, Begin(s, c, t), c)
  {
    PushCharText(s, c);
  }

  /** Each arm that can finish a token and read the character again. */
  lemma BinExtends(s: LexState, c: char)
    requires s.pending == Some(BinLiteral) && s.buf != []
    ensures ConsumeBin(s, c).Ok? ==> Extends(s, ConsumeBin(s, c).value, c)
  {
    PushCharExtends(s, c);
    BeginExtends(s, c, BinLiteral);
    RedispatchExtends(s, c);
  }
  lemma HexExtends(s: LexState, c: char)
    requires s.pending == Some(HexLiteral) && s.buf != []
    ensures ConsumeHex(s, c).Ok? ==> Extends(s, ConsumeHex(s, c).value, c)
  {
    PushCharExtends(s, c);
    RedispatchExtends(s, c);
  }
  lemma DecimalExtends(s: LexState, c: char, hasPoint: bool)
    requires s.pending == Some(DecimalLiteral(hasPoint)) && s.buf != []
    ensures ConsumeDecimal(s, c, hasPoint).Ok? ==> Extends(s, ConsumeDecimal(s, c, hasPoint).value, c)
  {
    PushCharExtends(s, c);
    BeginExtends(s, c, BinLiteral);
    BeginExtends(s, c, HexLiteral);
    BeginExtends(s, c, DecimalLiteral(true));
    RedispatchExtends(s, c);
  }
  lemma CommentExtends(s: LexState, c: char)
    requires s.pending == Some(LineComment)
    ensures ConsumeComment(s, c).Ok? ==> Extends(s, ConsumeComment(s, c).value, c)
  {
    PushCharExtends(s, c);
    RedispatchExtends(s, c);
  }
  lemma DivideExtends(s: LexState, c: char)
    requires s.pending == Some(Operator(Divide))
    ensures ConsumeDivide(s, c).Ok? ==> Extends(s, ConsumeDivide(s, c).value, c)
  {
    PushCharExtends(s, c);
    BeginExtends(s, c, LineComment);
    RedispatchExtends(s, c);
  }
  lemma WhitespaceExtends(s: LexState, c: char)
    requires s.pending == Some(Whitespace)
    ensures ConsumeWhitespace(s, c).Ok? ==> Extends(s, ConsumeWhitespace(s, c).value, c)
  {
    PushCharExtends(s, c);
    RedispatchExtends(s, c);
  }
  lemma IdentifierExtends(alphabetic: char -> bool, s: LexState, c: char)
    requires s.pending == Some(Identifier)
    ensures ConsumeIdentifier(alphabetic, s, c).Ok? ==> Extends(s, ConsumeIdentifier(alphabetic, s, c).value, c)
  {
    PushCharExtends(s, c);
    RedispatchExtends(s, c);
  }
  lemma EqualsExtends(s: LexState, c: char)
    requires s.pending == Some(Equals)
    ensures ConsumeEquals(s, c).Ok? ==> Extends(s, ConsumeEquals(s, c).value, c)
  {
    PushCharText(s, c);
    PushTokenText(Begin(s, c, Operator(Equality)));
    RedispatchExtends(s, c);
  }

  /** `consume_char` adds exactly the character it reads to the text and keeps every
      finished token. */
  lemma ConsumeExtends(alphabetic: char -> bool, s: LexState, c: char)
    requires Resumable(s)
    ensures Consume(alphabetic, s, c).Ok? ==> Extends(s, Consume(alphabetic, s, c).value, c)
  {
    match s.pending
    case None => IdleExtends(s, c);
    case Some(BinLiteral) => BinExtends(s, c);
    case Some(HexLiteral) => HexExtends(s, c);
    case Some(DecimalLiteral(hasPoint)) => DecimalExtends(s, c, hasPoint);
    case Some(StringLiteral(_)) =>
      PushCharText(s, c);
      PushTokenText(PushChar(s, c));
    case Some(LineComment) => CommentExtends(s, c);
    case Some(Operator(_)) => DivideExtends(s, c);
    case Some(Whitespace) => WhitespaceExtends(s, c);
    case Some(Identifier) => IdentifierExtends(alphabetic, s, c);
    case Some(Equals) => EqualsExtends(s, c);
  }

  /** The loop of `lex` adds exactly the characters it reads to the text, and never drops
      or changes a finished token. */
  lemma {:induction false} RunText(alphabetic: char -> bool, s: LexState, input: string)
    requires Resumable(s)
    ensures Run(alphabetic, s, input).Ok? ==>
      && Text(Run(alphabetic, s, input).value) == Text(s) + input
      && s.tokens <= Run(alphabetic, s, input).value.tokens
    decreases |input|
  {
    if input == [] {
      assert Text(s) + input == Text(s);
    } else {
      ConsumeExtends(alphabetic, s, input[0]);
      match Consume(alphabetic, s, input[0])
      case Err(_) =>
      case Ok(s') =>
        RunText(alphabetic, s', input[1..]);
        assert Text(s) + input == Text(s) + [input[0]] + input[1..] by {
          assert input == [input[0]] + input[1..];
        }
    }
  }
}
