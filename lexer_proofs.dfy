/** `consume_char` keeps the invariant of `LexerInvariants`, arm by arm. */
module LexerProofs {
  import opened LexerTypes
  import opened LexerSpec
  import opened LexerInvariants

  /** The idle arm keeps the invariant. */
  lemma IdleStep(alphabetic: char -> bool, s: LexState, c: char, s': LexState)
    requires Tracked(alphabetic, s) && s.pending.None? && s.buf == []
    requires ConsumeIdle(s, c) == Ok(s')
    ensures WellFormed(alphabetic, s')
  {
    assert s.buf + [c] == [c];
    ClassifyShape(alphabetic, c);
    match Classify(c)
    case StartToken(t) => BeginWellFormed(alphabetic, s, c, t);
    case SingleToken(t) => EmitWellFormed(alphabetic, s, c, t);
  }

  /** Finishing a complete lexeme and reading the character again from the idle state
      keeps the invariant. */
  lemma RedispatchStep(alphabetic: char -> bool, s: LexState, c: char, s': LexState)
    requires Tracked(alphabetic, s) && s.pending.Some? && s.pending.value != EndOfFile
    requires Lexeme(alphabetic, s.pending.value, s.buf)
    requires Redispatch(s, c) == Ok(s')
    ensures WellFormed(alphabetic, s')
  {
    PushTokenTracked(alphabetic, s);
    IdleStep(alphabetic, PushToken(s), c, s');
  }

  /** What a successful step of the `BinLiteral` arm can be. */
  lemma BinOutcomes(s: LexState, c: char)
    requires s.pending == Some(BinLiteral) && s.buf != []
    ensures ConsumeBin(s, c).Ok? ==>
      (IsBit(c) && ConsumeBin(s, c).value == PushChar(s, c)) ||
      (!IsBit(c) && s.buf[|s.buf| - 1] != 'b' && Redispatch(s, c) == ConsumeBin(s, c))
  {
  }

  lemma BinDigitStep(alphabetic: char -> bool, s: LexState, c: char)
    requires WellFormed(alphabetic, s) && s.pending == Some(BinLiteral) && IsBit(c)
    ensures WellFormed(alphabetic, PushChar(s, c))
  {
    BinExtend(alphabetic, s.buf, c);
    PushCharWellFormed(alphabetic, s, c);
  }

  lemma BinComplete(alphabetic: char -> bool, s: LexState)
    requires PartialLexeme(alphabetic, Some(BinLiteral), s.buf) && s.buf[|s.buf| - 1] != 'b'
    ensures Lexeme(alphabetic, BinLiteral, s.buf)
  {
  }

  /** A bit grows a binary literal; a terminator after at least one bit finishes it. */
  lemma BinStep(alphabetic: char -> bool, s: LexState, c: char, s': LexState)
    requires WellFormed(alphabetic, s) && s.pending == Some(BinLiteral)
    requires ConsumeBin(s, c) == Ok(s')
    ensures WellFormed(alphabetic, s')
  {
    BinOutcomes(s, c);
    if IsBit(c) {
      BinDigitStep(alphabetic, s, c);
    } else {
      BinComplete(alphabetic, s);
      RedispatchStep(alphabetic, s, c, s');
    }
  }

  /** What a successful step of the `HexLiteral` arm can be. */
  lemma HexOutcomes(s: LexState, c: char)
    requires s.pending == Some(HexLiteral) && s.buf != []
    ensures ConsumeHex(s, c).Ok? ==>
      (IsLowerHexDigit(c) && ConsumeHex(s, c).value == PushChar(s, c)) ||
      (!IsLowerHexDigit(c) && s.buf[|s.buf| - 1] != 'x' && Redispatch(s, c) == ConsumeHex(s, c))
  {
  }

  lemma HexDigitStep(alphabetic: char -> bool, s: LexState, c: char)
    requires WellFormed(alphabetic, s) && s.pending == Some(HexLiteral) && IsLowerHexDigit(c)
    ensures WellFormed(alphabetic, PushChar(s, c))
  {
    HexExtend(alphabetic, s.buf, c);
    PushCharWellFormed(alphabetic, s, c);
  }

  lemma HexComplete(alphabetic: char -> bool, s: LexState)
    requires PartialLexeme(alphabetic, Some(HexLiteral), s.buf) && s.buf[|s.buf| - 1] != 'x'
    ensures Lexeme(alphabetic, HexLiteral, s.buf)
  {
  }

  /** A lower-case hexadecimal digit grows a hexadecimal literal; a terminator after at
      least one digit finishes it. */
  lemma HexStep(alphabetic: char -> bool, s: LexState, c: char, s': LexState)
    requires WellFormed(alphabetic, s) && s.pending == Some(HexLiteral)
    requires ConsumeHex(s, c) == Ok(s')
    ensures WellFormed(alphabetic, s')
  {
    HexOutcomes(s, c);
    if IsLowerHexDigit(c) {
      HexDigitStep(alphabetic, s, c);
    } else {
      HexComplete(alphabetic, s);
      RedispatchStep(alphabetic, s, c, s');
    }
  }

  /** What a successful step of the `DecimalLiteral` arm can be. */
  lemma DecimalOutcomes(s: LexState, c: char, hasPoint: bool)
    requires s.pending == Some(DecimalLiteral(hasPoint)) && s.buf != []
    ensures ConsumeDecimal(s, c, hasPoint).Ok? ==>
      (s.buf == "0" && c == 'b' && ConsumeDecimal(s, c, hasPoint).value == Begin(s, c, BinLiteral)) ||
      (s.buf == "0" && c == 'x' && ConsumeDecimal(s, c, hasPoint).value == Begin(s, c, HexLiteral)) ||
      (IsDigit(c) && ConsumeDecimal(s, c, hasPoint).value == PushChar(s, c)) ||
      (!hasPoint && c == '.' && ConsumeDecimal(s, c, hasPoint).value == Begin(s, c, DecimalLiteral(true))) ||
      (!IsDigit(c) && c != '.' && s.buf[|s.buf| - 1] != '.' && Redispatch(s, c) == ConsumeDecimal(s, c, hasPoint))
  {
  }

  /** "0b" and "0x" switch the kind; a first decimal point is recorded in the kind. */
  lemma DecimalBeginStep(alphabetic: char -> bool, s: LexState, c: char, hasPoint: bool, t: TokenType)
    requires WellFormed(alphabetic, s) && s.pending == Some(DecimalLiteral(hasPoint))
    requires (s.buf == "0" && c == 'b' && t == BinLiteral) || (s.buf == "0" && c == 'x' && t == HexLiteral)
      || (!hasPoint && c == '.' && t == DecimalLiteral(true))
    ensures WellFormed(alphabetic, Begin(s, c, t))
  {
    if t.DecimalLiteral? {
      DecimalExtend(s.buf, c, hasPoint, true);
    }
    BeginWellFormed(alphabetic, s, c, t);
  }

  lemma DecimalDigitStep(alphabetic: char -> bool, s: LexState, c: char, hasPoint: bool)
    requires WellFormed(alphabetic, s) && s.pending == Some(DecimalLiteral(hasPoint)) && IsDigit(c)
    ensures WellFormed(alphabetic, PushChar(s, c))
  {
    DecimalExtend(s.buf, c, hasPoint, hasPoint);
    PushCharWellFormed(alphabetic, s, c);
  }

  lemma DecimalComplete(alphabetic: char -> bool, s: LexState, hasPoint: bool)
    requires PartialLexeme(alphabetic, Some(DecimalLiteral(hasPoint)), s.buf) && s.buf[|s.buf| - 1] != '.'
    ensures Lexeme(alphabetic, DecimalLiteral(hasPoint), s.buf)
  {
  }

  lemma DecimalStep(alphabetic: char -> bool, s: LexState, c: char, hasPoint: bool, s': LexState)
    requires WellFormed(alphabetic, s) && s.pending == Some(DecimalLiteral(hasPoint))
    requires ConsumeDecimal(s, c, hasPoint) == Ok(s')
    ensures WellFormed(alphabetic, s')
  {
    DecimalOutcomes(s, c, hasPoint);
    if s.buf == "0" && c == 'b' {
      DecimalBeginStep(alphabetic, s, c, hasPoint, BinLiteral);
    } else if s.buf == "0" && c == 'x' {
      DecimalBeginStep(alphabetic, s, c, hasPoint, HexLiteral);
    } else if IsDigit(c) {
      DecimalDigitStep(alphabetic, s, c, hasPoint);
    } else if c == '.' {
      DecimalBeginStep(alphabetic, s, c, hasPoint, DecimalLiteral(true));
    } else {
      DecimalComplete(alphabetic, s, hasPoint);
      RedispatchStep(alphabetic, s, c, s');
    }
  }

  lemma StringStep(alphabetic: char -> bool, s: LexState, c: char, escaped: bool)
    requires WellFormed(alphabetic, s) && s.pending == Some(StringLiteral(escaped))
    ensures WellFormed(alphabetic, ConsumeString(s, c, escaped))
  {
    if c == '"' {
      EmitWellFormed(alphabetic, s, c, StringLiteral(escaped));
    } else {
      PushCharWellFormed(alphabetic, s, c);
    }
  }

  /** The partial lexeme of a kind that needs no closing character is already complete. */
  lemma OpenComplete(alphabetic: char -> bool, s: LexState)
    requires s.pending.Some? && s.pending.value in {LineComment, Operator(Divide), Whitespace, Identifier, Equals}
    requires PartialLexeme(alphabetic, s.pending, s.buf)
    ensures Lexeme(alphabetic, s.pending.value, s.buf)
  {
  }

  lemma CommentStep(alphabetic: char -> bool, s: LexState, c: char, s': LexState)
    requires WellFormed(alphabetic, s) && s.pending == Some(LineComment)
    requires ConsumeComment(s, c) == Ok(s')
    ensures WellFormed(alphabetic, s')
  {
    if c == '\n' {
      OpenComplete(alphabetic, s);
      RedispatchStep(alphabetic, s, c, s');
    } else {
      PushCharWellFormed(alphabetic, s, c);
    }
  }

  /** A second `/` starts a line comment. */
  lemma CommentBeginStep(alphabetic: char -> bool, s: LexState, c: char)
    requires Tracked(alphabetic, s) && s.buf == "/" && c == '/'
    ensures WellFormed(alphabetic, Begin(s, c, LineComment))
  {
    assert s.buf + [c] == "//";
    CommentOpener(alphabetic);
    BeginWellFormed(alphabetic, s, c, LineComment);
  }

  lemma CommentOpener(alphabetic: char -> bool)
    ensures PartialLexeme(alphabetic, Some(LineComment), "//")
  {
  }

  lemma DivideStep(alphabetic: char -> bool, s: LexState, c: char, s': LexState)
    requires WellFormed(alphabetic, s) && s.pending == Some(Operator(Divide))
    requires ConsumeDivide(s, c) == Ok(s')
    ensures WellFormed(alphabetic, s')
  {
    if c == '/' {
      CommentBeginStep(alphabetic, s, c);
    } else {
      OpenComplete(alphabetic, s);
      RedispatchStep(alphabetic, s, c, s');
    }
  }

  lemma WhitespaceStep(alphabetic: char -> bool, s: LexState, c: char, s': LexState)
    requires WellFormed(alphabetic, s) && s.pending == Some(Whitespace)
    requires ConsumeWhitespace(s, c) == Ok(s')
    ensures WellFormed(alphabetic, s')
  {
    if c == ' ' {
      PushCharWellFormed(alphabetic, s, c);
    } else {
      OpenComplete(alphabetic, s);
      RedispatchStep(alphabetic, s, c, s');
    }
  }

  lemma IdentifierStep(alphabetic: char -> bool, s: LexState, c: char, s': LexState)
    requires WellFormed(alphabetic, s) && s.pending == Some(Identifier)
    requires ConsumeIdentifier(alphabetic, s, c) == Ok(s')
    ensures WellFormed(alphabetic, s')
  {
    if alphabetic(c) {
      PushCharWellFormed(alphabetic, s, c);
    } else {
      OpenComplete(alphabetic, s);
      RedispatchStep(alphabetic, s, c, s');
    }
  }

  /** A second `=` makes the equality operator. */
  lemma EqualityStep(alphabetic: char -> bool, s: LexState, c: char)
    requires Tracked(alphabetic, s) && s.buf == "=" && c == '='
    ensures WellFormed(alphabetic, Emit(s, c, Operator(Equality)))
  {
    assert s.buf + [c] == "==";
    EqualityLexeme(alphabetic);
    EmitWellFormed(alphabetic, s, c, Operator(Equality));
  }

  lemma EqualityLexeme(alphabetic: char -> bool)
    ensures Lexeme(alphabetic, Operator(Equality), "==")
  {
  }

  lemma EqualsStep(alphabetic: char -> bool, s: LexState, c: char, s': LexState)
    requires WellFormed(alphabetic, s) && s.pending == Some(Equals)
    requires ConsumeEquals(s, c) == Ok(s')
    ensures WellFormed(alphabetic, s')
  {
    if c == '=' {
      EqualityStep(alphabetic, s, c);
    } else {
      OpenComplete(alphabetic, s);
      RedispatchStep(alphabetic, s, c, s');
    }
  }

  /** `consume_char` keeps the invariant: the pending kind stays one that can grow, the
      partial lexeme stays a prefix of a lexeme of that kind, every finished token is a
      lexeme of its kind, and the spans stay contiguous and exact. */
  lemma ConsumeStep(alphabetic: char -> bool, s: LexState, c: char)
    requires WellFormed(alphabetic, s)
    ensures Consume(alphabetic, s, c).Ok? ==>
      WellFormed(alphabetic, Consume(alphabetic, s, c).value)
  {
    var r := Consume(alphabetic, s, c);
    if r.Ok? {
      match s.pending
      case None => IdleStep(alphabetic, s, c, r.value);
      case Some(BinLiteral) => BinStep(alphabetic, s, c, r.value);
      case Some(HexLiteral) => HexStep(alphabetic, s, c, r.value);
      case Some(DecimalLiteral(hasPoint)) => DecimalStep(alphabetic, s, c, hasPoint, r.value);
      case Some(StringLiteral(escaped)) => StringStep(alphabetic, s, c, escaped);
      case Some(LineComment) => CommentStep(alphabetic, s, c, r.value);
      case Some(Operator(_)) => DivideStep(alphabetic, s, c, r.value);
      case Some(Whitespace) => WhitespaceStep(alphabetic, s, c, r.value);
      case Some(Identifier) => IdentifierStep(alphabetic, s, c, r.value);
      case Some(Equals) => EqualsStep(alphabetic, s, c, r.value);
    }
  }
}
