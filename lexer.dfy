/** The `Lexer` struct of src/lexer.rs and its methods, updating its fields in place.
    Each method is proved to do to the lexer's state what a function of `LexerSpec` does:
    the constructor gives `Initial`, `ConsumeChar` follows `Consume`, `EndOfInput`
    follows `Finish`, `EndDecimal` follows `ConsumeDecimal`, `Lex` follows `Run` and then
    `Finish`, and every other method follows the function of the same name. So everything
    proved about those functions holds of the class. */
module LexerImpl {
  import opened LexerTypes
  import opened LexerSpec

  class Lexer {
    var fullTokens: seq<Token>
    var partialToken: string
    var currentChar: Option<char>
    var proposedTokenType: Option<TokenType>
    var startLine: nat
    var endLine: nat
    var startIndex: nat
    var endIndex: nat
    var file: string
    var fileContents: Option<string>
    /** `char::is_alphabetic`, which decides whether a character continues an identifier. */
    const alphabetic: char -> bool

    /** The fields as a `LexState`; a source not recorded yet reads as the empty text. */
    function State(): LexState
      reads this
    {
      LexState(fullTokens, partialToken, proposedTokenType, startLine, endLine, startIndex, endIndex,
               file, if fileContents.Some? then fileContents.value else [])
    }

    /** `Lexer::new`. */
    constructor (currentFile: string, alphabetic: char -> bool)
      ensures State() == Initial(currentFile)
      ensures currentChar == None && fileContents == None && this.alphabetic == alphabetic
    {
      fullTokens := [];
      partialToken := [];
      currentChar := None;
      proposedTokenType := None;
      startLine := 1;
      endLine := 1;
      startIndex := 0;
      endIndex := 0;
      file := currentFile;
      fileContents := None;
      this.alphabetic := alphabetic;
    }

    /** `push_token`. */
    method PushToken()
      requires proposedTokenType.Some?
      modifies this
      ensures State() == LexerSpec.PushToken(old(State()))
      ensures currentChar == old(currentChar) && fileContents == old(fileContents)
    {
      fullTokens := fullTokens + [Token(proposedTokenType.value, partialToken, startLine, endLine, startIndex, endIndex)];
      partialToken := [];
      startLine := endLine;
      startIndex := endIndex;
      proposedTokenType := None;
    }

    /** `push_char`. */
    method PushChar(c: char)
      modifies this
      ensures State() == LexerSpec.PushChar(old(State()), c)
      ensures currentChar == old(currentChar) && fileContents == old(fileContents)
    {
      partialToken := partialToken + [c];
      if c == '\n' {
        endLine := endLine + 1;
        endIndex := 0;
      } else {
        endIndex := endIndex + 1;
      }
    }

    /** `construct_error`; the source unwraps the recorded source text. */
    method ConstructError(e: LexErrorType) returns (err: LexError)
      requires fileContents.Some?
      ensures err == LexerSpec.ConstructError(State(), e)
    {
      err := LexError(e, partialToken, startLine, endLine, startIndex, endIndex, file, fileContents.value);
    }

    /** `construct_error_w_char`: the current character, or the default `'\0'` when there is
        none, joins the lexeme, and the error is built from that lexeme. */
    method ConstructErrorWithChar(e: LexErrorType) returns (err: LexError)
      requires fileContents.Some?
      modifies this
      ensures var c := if old(currentChar).Some? then old(currentChar).value else '\0';
        && err == LexerSpec.ConstructErrorWithChar(old(State()), c, e)
        && State() == old(State()).(buf := old(partialToken) + [c])
      ensures currentChar == old(currentChar) && fileContents == old(fileContents)
    {
      var c := if currentChar.Some? then currentChar.value else '\0';
      partialToken := partialToken + [c];
      err := ConstructError(e);
    }

    /** A step ended as `spec` says: the same error, or success with the state `spec` holds. */
    predicate Follows(r: Result<(), LexError>, spec: Result<LexState, LexError>)
      reads this
    {
      && (r.Ok? <==> spec.Ok?)
      && (r.Ok? ==> State() == spec.value)
      && (r.Err? ==> r.error == spec.error)
    }

    /** `consume_char`: record the character, then take the arm of the pending kind. */
    method ConsumeChar(c: char) returns (r: Result<(), LexError>)
      requires fileContents.Some? && Resumable(State())
      modifies this
      ensures Follows(r, Consume(alphabetic, old(State()), c))
      ensures fileContents == old(fileContents) && currentChar == Some(c)
      decreases if proposedTokenType.Some? then 1 else 0, 3
    {
      currentChar := Some(c);
      match proposedTokenType {
        case None => r := ConsumeIdle(c);
        case Some(BinLiteral) => r := ConsumeBin(c);
        case Some(HexLiteral) => r := ConsumeHex(c);
        case Some(DecimalLiteral(hasDecimalPoint)) => r := ConsumeDecimal(c, hasDecimalPoint);
        case Some(StringLiteral(escaped)) => ConsumeString(c, escaped); r := Ok(());
        case Some(LineComment) => r := ConsumeComment(c);
        case Some(Operator(_)) => r := ConsumeDivide(c);
        case Some(Whitespace) => r := ConsumeWhitespace(c);
        case Some(Identifier) => r := ConsumeIdentifier(c);
        case Some(Equals) => r := ConsumeEquals(c);
      }
    }

    /** The idle arm of `consume_char`. */
    method ConsumeIdle(c: char) returns (r: Result<(), LexError>)
      requires fileContents.Some? && proposedTokenType.None? && currentChar == Some(c)
      modifies this
      ensures Follows(r, LexerSpec.ConsumeIdle(old(State()), c))
      ensures fileContents == old(fileContents) && currentChar == old(currentChar)
    {
      if '0' <= c <= '9' {
        PushChar(c);
        proposedTokenType := Some(DecimalLiteral(false));
        r := Ok(());
      } else if c == '"' {
        PushChar(c);
        proposedTokenType := Some(StringLiteral(false));
        r := Ok(());
      } else if c == '\'' {
        var err := ConstructErrorWithChar(WrongQuotes);
        r := Err(err);
      } else if c == '+' || c == '-' || c == '*' || c == '(' || c == ')' || c == '{' || c == '}' || c == '\n' {
        PushChar(c);
        proposedTokenType := Some(
          if c == '+' then Operator(Plus)
          else if c == '-' then Operator(Minus)
          else if c == '*' then Operator(Multiply)
          else if c == '(' then LeftParen
          else if c == ')' then RightParen
          else if c == '{' then LeftBrace
          else if c == '}' then RightBrace
          else Newline);
        PushToken();
        r := Ok(());
      } else if c == '/' {
        PushChar(c);
        proposedTokenType := Some(Operator(Divide));
        r := Ok(());
      } else if 'a' <= c <= 'z' || 'A' <= c <= 'Z' {
        PushChar(c);
        proposedTokenType := Some(Identifier);
        r := Ok(());
      } else if c == ' ' {
        PushChar(c);
        proposedTokenType := Some(Whitespace);
        r := Ok(());
      } else if c == '=' {
        PushChar(c);
        proposedTokenType := Some(Equals);
        r := Ok(());
      } else {
        var err := ConstructErrorWithChar(UnexpectedCharacter);
        r := Err(err);
      }
    }

    /** Finish the pending token and read `c` again: the source's recursive call. */
    method Redispatch(c: char) returns (r: Result<(), LexError>)
      requires fileContents.Some? && proposedTokenType.Some?
      modifies this
      ensures Follows(r, LexerSpec.Redispatch(old(State()), c))
      ensures fileContents == old(fileContents) && currentChar == Some(c)
      decreases 1, 0
    {
      PushToken();
      r := ConsumeChar(c);
    }

    /** The `BinLiteral` arm. */
    method ConsumeBin(c: char) returns (r: Result<(), LexError>)
      requires fileContents.Some? && currentChar == Some(c)
      requires proposedTokenType == Some(BinLiteral) && partialToken != []
      modifies this
      ensures Follows(r, LexerSpec.ConsumeBin(old(State()), c))
      ensures fileContents == old(fileContents) && currentChar == old(currentChar)
      decreases 1, 2
    {
      if c == '0' || c == '1' {
        PushChar(c);
        r := Ok(());
      } else if IsLiteralTerminator(c) {
        if partialToken[|partialToken| - 1] == 'b' {
          var err := ConstructErrorWithChar(EmptyBinLiteral);
          r := Err(err);
        } else {
          r := Redispatch(c);
        }
      } else {
        var err := ConstructErrorWithChar(MalformedBinLiteral);
        r := Err(err);
      }
    }

    /** The `HexLiteral` arm. */
    method ConsumeHex(c: char) returns (r: Result<(), LexError>)
      requires fileContents.Some? && currentChar == Some(c)
      requires proposedTokenType == Some(HexLiteral) && partialToken != []
      modifies this
      ensures Follows(r, LexerSpec.ConsumeHex(old(State()), c))
      ensures fileContents == old(fileContents) && currentChar == old(currentChar)
      decreases 1, 2
    {
      if IsLowerHexDigit(c) {
        PushChar(c);
        r := Ok(());
      } else if IsUpperHexLetter(c) {
        var err := ConstructErrorWithChar(WrongHexCase);
        r := Err(err);
      } else if IsLiteralTerminator(c) {
        if partialToken[|partialToken| - 1] == 'x' {
          var err := ConstructError(EmptyHexLiteral);
          r := Err(err);
        } else {
          r := Redispatch(c);
        }
      } else {
        var err := ConstructErrorWithChar(MalformedHexLiteral);
        r := Err(err);
      }
    }

    /** The `DecimalLiteral` arm. */
    method ConsumeDecimal(c: char, hasDecimalPoint: bool) returns (r: Result<(), LexError>)
      requires fileContents.Some? && currentChar == Some(c)
      requires proposedTokenType == Some(DecimalLiteral(hasDecimalPoint)) && partialToken != []
      modifies this
      ensures Follows(r, LexerSpec.ConsumeDecimal(old(State()), c, hasDecimalPoint))
      ensures fileContents == old(fileContents) && currentChar == old(currentChar)
      decreases 1, 2
    {
      ghost var s := State();
      if partialToken == "0" && c == 'b' {
        assert LexerSpec.ConsumeDecimal(s, c, hasDecimalPoint) == Ok(Begin(s, c, BinLiteral));
        proposedTokenType := Some(BinLiteral);
        PushChar(c);
        r := Ok(());
      } else if partialToken == "0" && c == 'x' {
        assert LexerSpec.ConsumeDecimal(s, c, hasDecimalPoint) == Ok(Begin(s, c, HexLiteral));
        proposedTokenType := Some(HexLiteral);
        PushChar(c);
        r := Ok(());
      } else if IsDigit(c) {
        assert LexerSpec.ConsumeDecimal(s, c, hasDecimalPoint) == Ok(LexerSpec.PushChar(s, c));
        PushChar(c);
        r := Ok(());
      } else if c == '.' {
        if hasDecimalPoint {
          assert LexerSpec.ConsumeDecimal(s, c, hasDecimalPoint) == Err(LexerSpec.ConstructErrorWithChar(s, c, MultipleDecimalPoints));
          var err := ConstructErrorWithChar(MultipleDecimalPoints);
          r := Err(err);
        } else {
          assert LexerSpec.ConsumeDecimal(s, c, hasDecimalPoint) == Ok(Begin(s, c, DecimalLiteral(true)));
          proposedTokenType := Some(DecimalLiteral(true));
          PushChar(c);
          r := Ok(());
        }
      } else {
        r := EndDecimal(c, hasDecimalPoint);
      }
    }

    /** The rest of the `DecimalLiteral` arm: a character that neither extends the literal
        nor is its decimal point ends it or is rejected. */
    method EndDecimal(c: char, hasDecimalPoint: bool) returns (r: Result<(), LexError>)
      requires fileContents.Some? && currentChar == Some(c)
      requires proposedTokenType == Some(DecimalLiteral(hasDecimalPoint)) && partialToken != []
      requires !(partialToken == "0" && (c == 'b' || c == 'x')) && !IsDigit(c) && c != '.'
      modifies this
      ensures Follows(r, LexerSpec.ConsumeDecimal(old(State()), c, hasDecimalPoint))
      ensures fileContents == old(fileContents) && currentChar == old(currentChar)
      decreases 1, 1
    {
      if IsLiteralTerminator(c) {
        if partialToken[|partialToken| - 1] == '.' {
          var err := ConstructErrorWithChar(TrailingDPoint);
          r := Err(err);
        } else {
          r := Redispatch(c);
        }
      } else {
        var err := ConstructErrorWithChar(MalformedDecLiteral);
        r := Err(err);
      }
    }

    /** The `StringLiteral` arm, which never fails. */
    method ConsumeString(c: char, escaped: bool)
      requires proposedTokenType == Some(StringLiteral(escaped))
      modifies this
      ensures State() == LexerSpec.ConsumeString(old(State()), c, escaped)
      ensures fileContents == old(fileContents) && currentChar == old(currentChar)
    {
      PushChar(c);
      if c == '"' && !escaped {
        PushToken();
      }
    }

    /** The `LineComment` arm. */
    method ConsumeComment(c: char) returns (r: Result<(), LexError>)
      requires fileContents.Some? && currentChar == Some(c) && proposedTokenType == Some(LineComment)
      modifies this
      ensures Follows(r, LexerSpec.ConsumeComment(old(State()), c))
      ensures fileContents == old(fileContents) && currentChar == old(currentChar)
      decreases 1, 2
    {
      if c == '\n' {
        r := Redispatch(c);
      } else {
        PushChar(c);
        r := Ok(());
      }
    }

    /** The `Operator` arm; only a pending `/` reaches it. */
    method ConsumeDivide(c: char) returns (r: Result<(), LexError>)
      requires fileContents.Some? && currentChar == Some(c) && proposedTokenType == Some(Operator(Divide))
      modifies this
      ensures Follows(r, LexerSpec.ConsumeDivide(old(State()), c))
      ensures fileContents == old(fileContents) && currentChar == old(currentChar)
      decreases 1, 2
    {
      if c == '/' {
        proposedTokenType := Some(LineComment);
        PushChar(c);
        r := Ok(());
      } else {
        r := Redispatch(c);
      }
    }

    /** The `Whitespace` arm. */
    method ConsumeWhitespace(c: char) returns (r: Result<(), LexError>)
      requires fileContents.Some? && currentChar == Some(c) && proposedTokenType == Some(Whitespace)
      modifies this
      ensures Follows(r, LexerSpec.ConsumeWhitespace(old(State()), c))
      ensures fileContents == old(fileContents) && currentChar == old(currentChar)
      decreases 1, 2
    {
      if c == ' ' {
        PushChar(c);
        r := Ok(());
      } else {
        r := Redispatch(c);
      }
    }

    /** The `Identifier` arm. */
    method ConsumeIdentifier(c: char) returns (r: Result<(), LexError>)
      requires fileContents.Some? && currentChar == Some(c) && proposedTokenType == Some(Identifier)
      modifies this
      ensures Follows(r, LexerSpec.ConsumeIdentifier(alphabetic, old(State()), c))
      ensures fileContents == old(fileContents) && currentChar == old(currentChar)
      decreases 1, 2
    {
      if alphabetic(c) {
        PushChar(c);
        r := Ok(());
      } else {
        r := Redispatch(c);
      }
    }

    /** The `Equals` arm. */
    method ConsumeEquals(c: char) returns (r: Result<(), LexError>)
      requires fileContents.Some? && currentChar == Some(c) && proposedTokenType == Some(Equals)
      modifies this
      ensures Follows(r, LexerSpec.ConsumeEquals(old(State()), c))
      ensures fileContents == old(fileContents) && currentChar == old(currentChar)
      decreases 1, 2
    {
      if c == '=' {
        proposedTokenType := Some(Operator(Equality));
        PushChar(c);
        PushToken();
        r := Ok(());
      } else {
        r := Redispatch(c);
      }
    }

    /** `lex`: record the source, read it character by character, then reject a pending
        token or close the sequence with the `EndOfFile` token. */
    method Lex(source: string) returns (r: Result<seq<Token>, LexError>)
      requires Resumable(State())
      modifies this
      ensures r == match Run(alphabetic, old(State()).(contents := source), source)
                   case Err(e) => Err(e)
                   case Ok(s) => Finish(s)
    {
      fileContents := Some(source);
      ghost var s0 := State();
      var i := 0;
      while i < |source|
        invariant 0 <= i <= |source|
        invariant fileContents == Some(source) && Resumable(State())
        invariant Run(alphabetic, s0, source) == Run(alphabetic, State(), source[i..])
      {
        ghost var before := State();
        assert source[i..][0] == source[i] && source[i..][1..] == source[i + 1..];
        var step := ConsumeChar(source[i]);
        if step.Err? {
          return Err(step.error);
        }
        i := i + 1;
      }
      assert source[i..] == [];
      r := EndOfInput();
    }

    /** What `lex` does once the whole source is read: a pending token is an error,
        otherwise the end-of-file token is added and the tokens are returned. */
    method EndOfInput() returns (r: Result<seq<Token>, LexError>)
      requires fileContents.Some? && Resumable(State())
      modifies this
      ensures r == Finish(old(State()))
    {
      match proposedTokenType {
        case Some(StringLiteral(_)) =>
          var err := ConstructError(UnexpectedEOFString);
          return Err(err);
        case None =>
        case Some(_) =>
          var err := ConstructError(MissingTrailingNewLine);
          return Err(err);
      }
      proposedTokenType := Some(EndOfFile);
      PushToken();
      return Ok(fullTokens);
    }
  }

  /** A new lexer for `file` lexes `source` as `LexerSpec.Lex` says. */
  method NewAndLex(alphabetic: char -> bool, file: string, source: string) returns (r: Result<seq<Token>, LexError>)
    ensures r == LexerSpec.Lex(alphabetic, file, source)
  {
    var lexer := new Lexer(file, alphabetic);
    r := lexer.Lex(source);
  }
}
