/** The unit tests of src/lexer.rs, as lemmas about `Lex`: each states the whole result of
    lexing the test's source for the file "my_file", tokens and spans included. */
module LexerExamples {
  import opened LexerTypes
  import opened LexerSpec
  import opened LexerInvariants
  import opened LexerRelex

  /** `char::is_alphabetic` agrees with the ASCII letters on ASCII characters. */
  predicate AsciiAlphabetic(alphabetic: char -> bool) {
    forall c: char :: c < '\U{80}' ==> (alphabetic(c) <==> IsAsciiLetter(c))
  }

  predicate Every(p: char -> bool, w: string)
    decreases |w|
  {
    w == [] || (p(w[0]) && Every(p, w[1..]))
  }

  /** The character that stops lexing. */
  lemma StepErr(alphabetic: char -> bool, s: LexState, c: char, rest: string, e: LexError)
    requires Resumable(s) && Consume(alphabetic, s, c) == Err(e)
    ensures Run(alphabetic, s, [c] + rest) == Err(e)
  {
    assert ([c] + rest)[0] == c;
  }

  /** A run `w` of characters that the pending kind absorbs, none of them a newline, only
      grows the lexeme and its span. */
  lemma {:induction false} AbsorbRun(alphabetic: char -> bool, p: char -> bool, s: LexState, w: string, rest: string)
    requires Resumable(s) && s.pending.Some? && Every(p, w)
    requires forall c :: p(c) ==> c != '\n' && Absorbs(alphabetic, s.pending.value, c)
    ensures Run(alphabetic, s, w + rest) == Run(alphabetic, s.(buf := s.buf + w, endIndex := s.endIndex + |w|), rest)
    decreases |w|
  {
    if w == [] {
      assert w + rest == rest && s.buf + w == s.buf;
    } else {
      ConsumeAbsorbs(alphabetic, s, w[0]);
      var s' := PushChar(s, w[0]);
      assert (w + rest)[0] == w[0] && (w + rest)[1..] == w[1..] + rest;
      AbsorbRun(alphabetic, p, s', w[1..], rest);
      assert s'.buf + w[1..] == s.buf + w;
    }
  }

  const File := "my_file"

  predicate NotQuoteOrNewline(c: char) { c != '"' && c != '\n' }

  lemma LettersAbsorbed(alphabetic: char -> bool)
    requires AsciiAlphabetic(alphabetic)
    ensures forall c :: IsAsciiLetter(c) ==> c != '\n' && Absorbs(alphabetic, Identifier, c)
  {
  }

  /** `lex` after its loop: the error, or the end-of-input check on the final state. */
  lemma LexFrom(alphabetic: char -> bool, source: string, r: Result<LexState, LexError>, result: Result<seq<Token>, LexError>)
    requires Run(alphabetic, Start0(File, source), source) == r
    requires (match r case Err(e) => Err(e) case Ok(s) => Finish(s)) == result
    ensures Lex(alphabetic, File, source) == result
  {
  }

  /** Letters and digits end no literal. */
  lemma NotTerminator(c: char)
    requires 'a' <= c <= 'z' || 'A' <= c <= 'Z' || '0' <= c <= '9'
    ensures !IsLiteralTerminator(c)
  {
  }

  // `single_identifier`, src/lexer.rs:523-527. `SingleIdentifierFrom<k>` lexes the source from the state before its
  // k-th piece on; `SingleIdentifierPieces` puts the pieces together.

  const SingleIdentifierSource := "MyVariable\n"

  lemma SingleIdentifierFrom4(alphabetic: char -> bool, rest: string)
    requires AsciiAlphabetic(alphabetic)
    ensures Run(alphabetic, LexState([], "MyVariable", Some(Identifier), 1, 1, 0, 10, File, SingleIdentifierSource), "\n" + rest) ==
      Run(alphabetic, LexState([Token(Identifier, "MyVariable", 1, 1, 0, 10), Token(Newline, "\n", 1, 2, 10, 0)], "", None, 2, 2, 0, 0, File, SingleIdentifierSource), rest)
  {
    var s := LexState([], "MyVariable", Some(Identifier), 1, 1, 0, 10, File, SingleIdentifierSource);
    var s' := LexState([Token(Identifier, "MyVariable", 1, 1, 0, 10), Token(Newline, "\n", 1, 2, 10, 0)], "", None, 2, 2, 0, 0, File, SingleIdentifierSource);
    assert s.tokens + [Token(Identifier, "MyVariable", 1, 1, 0, 10)] == [Token(Identifier, "MyVariable", 1, 1, 0, 10)];
    assert [] + ['\n'] == "\n";
    assert [Token(Identifier, "MyVariable", 1, 1, 0, 10)] + [Token(Newline, "\n", 1, 2, 10, 0)] == s'.tokens;
    Step(alphabetic, s, '\n', rest, s');
  }

  lemma SingleIdentifierFrom3(alphabetic: char -> bool, rest: string)
    requires AsciiAlphabetic(alphabetic)
    ensures Run(alphabetic, LexState([], "MyVariabl", Some(Identifier), 1, 1, 0, 9, File, SingleIdentifierSource), "e" + ("\n" + rest)) ==
      Run(alphabetic, LexState([Token(Identifier, "MyVariable", 1, 1, 0, 10), Token(Newline, "\n", 1, 2, 10, 0)], "", None, 2, 2, 0, 0, File, SingleIdentifierSource), rest)
  {
    var s := LexState([], "MyVariabl", Some(Identifier), 1, 1, 0, 9, File, SingleIdentifierSource);
    var s' := LexState([], "MyVariable", Some(Identifier), 1, 1, 0, 10, File, SingleIdentifierSource);
    assert s.buf + ['e'] == s'.buf;
    NotTerminator('e');
    Step(alphabetic, s, 'e', "\n" + rest, s');
    SingleIdentifierFrom4(alphabetic, rest);
  }

  lemma SingleIdentifierFrom2(alphabetic: char -> bool, rest: string)
    requires AsciiAlphabetic(alphabetic)
    ensures Run(alphabetic, LexState([], "MyVar", Some(Identifier), 1, 1, 0, 5, File, SingleIdentifierSource), "iabl" + ("e" + ("\n" + rest))) ==
      Run(alphabetic, LexState([Token(Identifier, "MyVariable", 1, 1, 0, 10), Token(Newline, "\n", 1, 2, 10, 0)], "", None, 2, 2, 0, 0, File, SingleIdentifierSource), rest)
  {
    var s := LexState([], "MyVar", Some(Identifier), 1, 1, 0, 5, File, SingleIdentifierSource);
    var s' := LexState([], "MyVariabl", Some(Identifier), 1, 1, 0, 9, File, SingleIdentifierSource);
    LettersAbsorbed(alphabetic);
    assert s.buf + "iabl" == s'.buf;
    AbsorbRun(alphabetic, IsAsciiLetter, s, "iabl", "e" + ("\n" + rest));
    SingleIdentifierFrom3(alphabetic, rest);
  }

  lemma SingleIdentifierFrom1(alphabetic: char -> bool, rest: string)
    requires AsciiAlphabetic(alphabetic)
    ensures Run(alphabetic, LexState([], "M", Some(Identifier), 1, 1, 0, 1, File, SingleIdentifierSource), "yVar" + ("iabl" + ("e" + ("\n" + rest)))) ==
      Run(alphabetic, LexState([Token(Identifier, "MyVariable", 1, 1, 0, 10), Token(Newline, "\n", 1, 2, 10, 0)], "", None, 2, 2, 0, 0, File, SingleIdentifierSource), rest)
  {
    var s := LexState([], "M", Some(Identifier), 1, 1, 0, 1, File, SingleIdentifierSource);
    var s' := LexState([], "MyVar", Some(Identifier), 1, 1, 0, 5, File, SingleIdentifierSource);
    LettersAbsorbed(alphabetic);
    assert s.buf + "yVar" == s'.buf;
    AbsorbRun(alphabetic, IsAsciiLetter, s, "yVar", "iabl" + ("e" + ("\n" + rest)));
    SingleIdentifierFrom2(alphabetic, rest);
  }

  lemma SingleIdentifierFrom0(alphabetic: char -> bool, rest: string)
    requires AsciiAlphabetic(alphabetic)
    ensures Run(alphabetic, LexState([], "", None, 1, 1, 0, 0, File, SingleIdentifierSource), "M" + ("yVar" + ("iabl" + ("e" + ("\n" + rest))))) ==
      Run(alphabetic, LexState([Token(Identifier, "MyVariable", 1, 1, 0, 10), Token(Newline, "\n", 1, 2, 10, 0)], "", None, 2, 2, 0, 0, File, SingleIdentifierSource), rest)
  {
    var s := LexState([], "", None, 1, 1, 0, 0, File, SingleIdentifierSource);
    var s' := LexState([], "M", Some(Identifier), 1, 1, 0, 1, File, SingleIdentifierSource);
    assert s.buf + ['M'] == s'.buf;
    Step(alphabetic, s, 'M', "yVar" + ("iabl" + ("e" + ("\n" + rest))), s');
    SingleIdentifierFrom1(alphabetic, rest);
  }

  lemma SingleIdentifierPieces()
    ensures "M" + ("yVar" + ("iabl" + ("e" + ("\n" + "")))) == SingleIdentifierSource
  {
  }

  lemma SingleIdentifierRun(alphabetic: char -> bool)
    requires AsciiAlphabetic(alphabetic)
    ensures Run(alphabetic, Start0(File, SingleIdentifierSource), SingleIdentifierSource) ==
      Ok(LexState([Token(Identifier, "MyVariable", 1, 1, 0, 10), Token(Newline, "\n", 1, 2, 10, 0)], "", None, 2, 2, 0, 0, File, SingleIdentifierSource))
  {
    SingleIdentifierFrom0(alphabetic, "");
    SingleIdentifierPieces();
    assert Run(alphabetic, LexState([Token(Identifier, "MyVariable", 1, 1, 0, 10), Token(Newline, "\n", 1, 2, 10, 0)], "", None, 2, 2, 0, 0, File, SingleIdentifierSource), "") == Ok(LexState([Token(Identifier, "MyVariable", 1, 1, 0, 10), Token(Newline, "\n", 1, 2, 10, 0)], "", None, 2, 2, 0, 0, File, SingleIdentifierSource));
    assert Start0(File, SingleIdentifierSource) == LexState([], "", None, 1, 1, 0, 0, File, SingleIdentifierSource);
  }

  lemma SingleIdentifierFinish()
    ensures Finish(LexState([Token(Identifier, "MyVariable", 1, 1, 0, 10), Token(Newline, "\n", 1, 2, 10, 0)], "", None, 2, 2, 0, 0, File, SingleIdentifierSource)) ==
      Ok([Token(Identifier, "MyVariable", 1, 1, 0, 10), Token(Newline, "\n", 1, 2, 10, 0), Token(EndOfFile, "", 2, 2, 0, 0)])
  {
    var s := LexState([Token(Identifier, "MyVariable", 1, 1, 0, 10), Token(Newline, "\n", 1, 2, 10, 0)], "", None, 2, 2, 0, 0, File, SingleIdentifierSource);
    assert s.tokens + [Token(EndOfFile, "", 2, 2, 0, 0)] == [Token(Identifier, "MyVariable", 1, 1, 0, 10), Token(Newline, "\n", 1, 2, 10, 0), Token(EndOfFile, "", 2, 2, 0, 0)];
  }

  /** `single_identifier` */
  lemma SingleIdentifierExample(alphabetic: char -> bool)
    requires AsciiAlphabetic(alphabetic)
    ensures Lex(alphabetic, File, SingleIdentifierSource) ==
      Ok([Token(Identifier, "MyVariable", 1, 1, 0, 10), Token(Newline, "\n", 1, 2, 10, 0), Token(EndOfFile, "", 2, 2, 0, 0)])
  {
    SingleIdentifierRun(alphabetic);
    SingleIdentifierFinish();
    LexFrom(alphabetic, SingleIdentifierSource, Ok(LexState([Token(Identifier, "MyVariable", 1, 1, 0, 10), Token(Newline, "\n", 1, 2, 10, 0)], "", None, 2, 2, 0, 0, File, SingleIdentifierSource)), Ok([Token(Identifier, "MyVariable", 1, 1, 0, 10), Token(Newline, "\n", 1, 2, 10, 0), Token(EndOfFile, "", 2, 2, 0, 0)]));
  }

  // `wrong_quotes`, src/lexer.rs:531-534. `WrongQuotesFrom<k>` lexes the source from the state before its
  // k-th piece on; `WrongQuotesPieces` puts the pieces together.

  const WrongQuotesSource := "'Hello world'"

  lemma WrongQuotesFrom0(alphabetic: char -> bool, rest: string)
    ensures Run(alphabetic, LexState([], "", None, 1, 1, 0, 0, File, WrongQuotesSource), "'" + rest) ==
      Err(LexError(WrongQuotes, "'", 1, 1, 0, 0, File, WrongQuotesSource))
  {
    var s := LexState([], "", None, 1, 1, 0, 0, File, WrongQuotesSource);
    var e := LexError(WrongQuotes, "'", 1, 1, 0, 0, File, WrongQuotesSource);
    assert s.buf + ['\''] == e.partialToken;
    StepErr(alphabetic, s, '\'', rest, e);
  }

  lemma WrongQuotesPieces()
    ensures "'" + "Hello world'" == WrongQuotesSource
  {
  }

  lemma WrongQuotesRun(alphabetic: char -> bool)
    ensures Run(alphabetic, Start0(File, WrongQuotesSource), WrongQuotesSource) ==
      Err(LexError(WrongQuotes, "'", 1, 1, 0, 0, File, WrongQuotesSource))
  {
    WrongQuotesFrom0(alphabetic, "Hello world'");
    WrongQuotesPieces();
    assert Start0(File, WrongQuotesSource) == LexState([], "", None, 1, 1, 0, 0, File, WrongQuotesSource);
  }

  /** `wrong_quotes` */
  lemma WrongQuotesExample(alphabetic: char -> bool)
    ensures Lex(alphabetic, File, WrongQuotesSource) ==
      Err(LexError(WrongQuotes, "'", 1, 1, 0, 0, File, WrongQuotesSource))
  {
    WrongQuotesRun(alphabetic);
    LexFrom(alphabetic, WrongQuotesSource, Err(LexError(WrongQuotes, "'", 1, 1, 0, 0, File, WrongQuotesSource)), Err(LexError(WrongQuotes, "'", 1, 1, 0, 0, File, WrongQuotesSource)));
  }

  // `wrong_quote`, src/lexer.rs:536-539. `WrongQuoteFrom<k>` lexes the source from the state before its
  // k-th piece on; `WrongQuotePieces` puts the pieces together.

  const WrongQuoteSource := "'Hello wo"

  lemma WrongQuoteFrom0(alphabetic: char -> bool, rest: string)
    ensures Run(alphabetic, LexState([], "", None, 1, 1, 0, 0, File, WrongQuoteSource), "'" + rest) ==
      Err(LexError(WrongQuotes, "'", 1, 1, 0, 0, File, WrongQuoteSource))
  {
    var s := LexState([], "", None, 1, 1, 0, 0, File, WrongQuoteSource);
    var e := LexError(WrongQuotes, "'", 1, 1, 0, 0, File, WrongQuoteSource);
    assert s.buf + ['\''] == e.partialToken;
    StepErr(alphabetic, s, '\'', rest, e);
  }

  lemma WrongQuotePieces()
    ensures "'" + "Hello wo" == WrongQuoteSource
  {
  }

  lemma WrongQuoteRun(alphabetic: char -> bool)
    ensures Run(alphabetic, Start0(File, WrongQuoteSource), WrongQuoteSource) ==
      Err(LexError(WrongQuotes, "'", 1, 1, 0, 0, File, WrongQuoteSource))
  {
    WrongQuoteFrom0(alphabetic, "Hello wo");
    WrongQuotePieces();
    assert Start0(File, WrongQuoteSource) == LexState([], "", None, 1, 1, 0, 0, File, WrongQuoteSource);
  }

  /** `wrong_quote` */
  lemma WrongQuoteExample(alphabetic: char -> bool)
    ensures Lex(alphabetic, File, WrongQuoteSource) ==
      Err(LexError(WrongQuotes, "'", 1, 1, 0, 0, File, WrongQuoteSource))
  {
    WrongQuoteRun(alphabetic);
    LexFrom(alphabetic, WrongQuoteSource, Err(LexError(WrongQuotes, "'", 1, 1, 0, 0, File, WrongQuoteSource)), Err(LexError(WrongQuotes, "'", 1, 1, 0, 0, File, WrongQuoteSource)));
  }

  // `wrong_quote_inside`, src/lexer.rs:541-549. `WrongQuoteInsideFrom<k>` lexes the source from the state before its
  // k-th piece on; `WrongQuoteInsidePieces` puts the pieces together.

  const WrongQuoteInsideSource := "\"don't want an error here\""

  lemma WrongQuoteInsideFrom7(alphabetic: char -> bool, rest: string)
    ensures Run(alphabetic, LexState([], "\"don't want an error here", Some(StringLiteral(false)), 1, 1, 0, 25, File, WrongQuoteInsideSource), "\"" + rest) ==
      Run(alphabetic, LexState([Token(StringLiteral(false), "\"don't want an error here\"", 1, 1, 0, 26)], "", None, 1, 1, 26, 26, File, WrongQuoteInsideSource), rest)
  {
    var s := LexState([], "\"don't want an error here", Some(StringLiteral(false)), 1, 1, 0, 25, File, WrongQuoteInsideSource);
    var s' := LexState([Token(StringLiteral(false), "\"don't want an error here\"", 1, 1, 0, 26)], "", None, 1, 1, 26, 26, File, WrongQuoteInsideSource);
    assert s.buf + ['\"'] == "\"don't want an error here\"";
    assert s.tokens + [Token(StringLiteral(false), "\"don't want an error here\"", 1, 1, 0, 26)] == s'.tokens;
    Step(alphabetic, s, '\"', rest, s');
  }

  lemma WrongQuoteInsideFrom6(alphabetic: char -> bool, rest: string)
    ensures Run(alphabetic, LexState([], "\"don't want an error ", Some(StringLiteral(false)), 1, 1, 0, 21, File, WrongQuoteInsideSource), "here" + ("\"" + rest)) ==
      Run(alphabetic, LexState([Token(StringLiteral(false), "\"don't want an error here\"", 1, 1, 0, 26)], "", None, 1, 1, 26, 26, File, WrongQuoteInsideSource), rest)
  {
    var s := LexState([], "\"don't want an error ", Some(StringLiteral(false)), 1, 1, 0, 21, File, WrongQuoteInsideSource);
    var s' := LexState([], "\"don't want an error here", Some(StringLiteral(false)), 1, 1, 0, 25, File, WrongQuoteInsideSource);
    assert s.buf + "here" == s'.buf;
    AbsorbRun(alphabetic, NotQuoteOrNewline, s, "here", "\"" + rest);
    WrongQuoteInsideFrom7(alphabetic, rest);
  }

  lemma WrongQuoteInsideFrom5(alphabetic: char -> bool, rest: string)
    ensures Run(alphabetic, LexState([], "\"don't want an er", Some(StringLiteral(false)), 1, 1, 0, 17, File, WrongQuoteInsideSource), "ror " + ("here" + ("\"" + rest))) ==
      Run(alphabetic, LexState([Token(StringLiteral(false), "\"don't want an error here\"", 1, 1, 0, 26)], "", None, 1, 1, 26, 26, File, WrongQuoteInsideSource), rest)
  {
    var s := LexState([], "\"don't want an er", Some(StringLiteral(false)), 1, 1, 0, 17, File, WrongQuoteInsideSource);
    var s' := LexState([], "\"don't want an error ", Some(StringLiteral(false)), 1, 1, 0, 21, File, WrongQuoteInsideSource);
    assert s.buf + "ror " == s'.buf;
    AbsorbRun(alphabetic, NotQuoteOrNewline, s, "ror ", "here" + ("\"" + rest));
    WrongQuoteInsideFrom6(alphabetic, rest);
  }

  lemma WrongQuoteInsideFrom4(alphabetic: char -> bool, rest: string)
    ensures Run(alphabetic, LexState([], "\"don't want a", Some(StringLiteral(false)), 1, 1, 0, 13, File, WrongQuoteInsideSource), "n er" + ("ror " + ("here" + ("\"" + rest)))) ==
      Run(alphabetic, LexState([Token(StringLiteral(false), "\"don't want an error here\"", 1, 1, 0, 26)], "", None, 1, 1, 26, 26, File, WrongQuoteInsideSource), rest)
  {
    var s := LexState([], "\"don't want a", Some(StringLiteral(false)), 1, 1, 0, 13, File, WrongQuoteInsideSource);
    var s' := LexState([], "\"don't want an er", Some(StringLiteral(false)), 1, 1, 0, 17, File, WrongQuoteInsideSource);
    assert s.buf + "n er" == s'.buf;
    AbsorbRun(alphabetic, NotQuoteOrNewline, s, "n er", "ror " + ("here" + ("\"" + rest)));
    WrongQuoteInsideFrom5(alphabetic, rest);
  }

  lemma WrongQuoteInsideFrom3(alphabetic: char -> bool, rest: string)
    ensures Run(alphabetic, LexState([], "\"don't wa", Some(StringLiteral(false)), 1, 1, 0, 9, File, WrongQuoteInsideSource), "nt a" + ("n er" + ("ror " + ("here" + ("\"" + rest))))) ==
      Run(alphabetic, LexState([Token(StringLiteral(false), "\"don't want an error here\"", 1, 1, 0, 26)], "", None, 1, 1, 26, 26, File, WrongQuoteInsideSource), rest)
  {
    var s := LexState([], "\"don't wa", Some(StringLiteral(false)), 1, 1, 0, 9, File, WrongQuoteInsideSource);
    var s' := LexState([], "\"don't want a", Some(StringLiteral(false)), 1, 1, 0, 13, File, WrongQuoteInsideSource);
    assert s.buf + "nt a" == s'.buf;
    AbsorbRun(alphabetic, NotQuoteOrNewline, s, "nt a", "n er" + ("ror " + ("here" + ("\"" + rest))));
    WrongQuoteInsideFrom4(alphabetic, rest);
  }

  lemma WrongQuoteInsideFrom2(alphabetic: char -> bool, rest: string)
    ensures Run(alphabetic, LexState([], "\"don'", Some(StringLiteral(false)), 1, 1, 0, 5, File, WrongQuoteInsideSource), "t wa" + ("nt a" + ("n er" + ("ror " + ("here" + ("\"" + rest)))))) ==
      Run(alphabetic, LexState([Token(StringLiteral(false), "\"don't want an error here\"", 1, 1, 0, 26)], "", None, 1, 1, 26, 26, File, WrongQuoteInsideSource), rest)
  {
    var s := LexState([], "\"don'", Some(StringLiteral(false)), 1, 1, 0, 5, File, WrongQuoteInsideSource);
    var s' := LexState([], "\"don't wa", Some(StringLiteral(false)), 1, 1, 0, 9, File, WrongQuoteInsideSource);
    assert s.buf + "t wa" == s'.buf;
    AbsorbRun(alphabetic, NotQuoteOrNewline, s, "t wa", "nt a" + ("n er" + ("ror " + ("here" + ("\"" + rest)))));
    WrongQuoteInsideFrom3(alphabetic, rest);
  }

  lemma WrongQuoteInsideFrom1(alphabetic: char -> bool, rest: string)
    ensures Run(alphabetic, LexState([], "\"", Some(StringLiteral(false)), 1, 1, 0, 1, File, WrongQuoteInsideSource), "don'" + ("t wa" + ("nt a" + ("n er" + ("ror " + ("here" + ("\"" + rest))))))) ==
      Run(alphabetic, LexState([Token(StringLiteral(false), "\"don't want an error here\"", 1, 1, 0, 26)], "", None, 1, 1, 26, 26, File, WrongQuoteInsideSource), rest)
  {
    var s := LexState([], "\"", Some(StringLiteral(false)), 1, 1, 0, 1, File, WrongQuoteInsideSource);
    var s' := LexState([], "\"don'", Some(StringLiteral(false)), 1, 1, 0, 5, File, WrongQuoteInsideSource);
    assert s.buf + "don'" == s'.buf;
    AbsorbRun(alphabetic, NotQuoteOrNewline, s, "don'", "t wa" + ("nt a" + ("n er" + ("ror " + ("here" + ("\"" + rest))))));
    WrongQuoteInsideFrom2(alphabetic, rest);
  }

  lemma WrongQuoteInsideFrom0(alphabetic: char -> bool, rest: string)
    ensures Run(alphabetic, LexState([], "", None, 1, 1, 0, 0, File, WrongQuoteInsideSource), "\"" + ("don'" + ("t wa" + ("nt a" + ("n er" + ("ror " + ("here" + ("\"" + rest)))))))) ==
      Run(alphabetic, LexState([Token(StringLiteral(false), "\"don't want an error here\"", 1, 1, 0, 26)], "", None, 1, 1, 26, 26, File, WrongQuoteInsideSource), rest)
  {
    var s := LexState([], "", None, 1, 1, 0, 0, File, WrongQuoteInsideSource);
    var s' := LexState([], "\"", Some(StringLiteral(false)), 1, 1, 0, 1, File, WrongQuoteInsideSource);
    assert s.buf + ['\"'] == s'.buf;
    Step(alphabetic, s, '\"', "don'" + ("t wa" + ("nt a" + ("n er" + ("ror " + ("here" + ("\"" + rest)))))), s');
    WrongQuoteInsideFrom1(alphabetic, rest);
  }

  lemma WrongQuoteInsidePieces()
    ensures "\"" + ("don'" + ("t wa" + ("nt a" + ("n er" + ("ror " + ("here" + ("\"" + ""))))))) == WrongQuoteInsideSource
  {
  }

  lemma WrongQuoteInsideRun(alphabetic: char -> bool)
    ensures Run(alphabetic, Start0(File, WrongQuoteInsideSource), WrongQuoteInsideSource) ==
      Ok(LexState([Token(StringLiteral(false), "\"don't want an error here\"", 1, 1, 0, 26)], "", None, 1, 1, 26, 26, File, WrongQuoteInsideSource))
  {
    WrongQuoteInsideFrom0(alphabetic, "");
    WrongQuoteInsidePieces();
    assert Run(alphabetic, LexState([Token(StringLiteral(false), "\"don't want an error here\"", 1, 1, 0, 26)], "", None, 1, 1, 26, 26, File, WrongQuoteInsideSource), "") == Ok(LexState([Token(StringLiteral(false), "\"don't want an error here\"", 1, 1, 0, 26)], "", None, 1, 1, 26, 26, File, WrongQuoteInsideSource));
    assert Start0(File, WrongQuoteInsideSource) == LexState([], "", None, 1, 1, 0, 0, File, WrongQuoteInsideSource);
  }

  lemma WrongQuoteInsideFinish()
    ensures Finish(LexState([Token(StringLiteral(false), "\"don't want an error here\"", 1, 1, 0, 26)], "", None, 1, 1, 26, 26, File, WrongQuoteInsideSource)) ==
      Ok([Token(StringLiteral(false), "\"don't want an error here\"", 1, 1, 0, 26), Token(EndOfFile, "", 1, 1, 26, 26)])
  {
    var s := LexState([Token(StringLiteral(false), "\"don't want an error here\"", 1, 1, 0, 26)], "", None, 1, 1, 26, 26, File, WrongQuoteInsideSource);
    assert s.tokens + [Token(EndOfFile, "", 1, 1, 26, 26)] == [Token(StringLiteral(false), "\"don't want an error here\"", 1, 1, 0, 26), Token(EndOfFile, "", 1, 1, 26, 26)];
  }

  /** `wrong_quote_inside`: a single quote inside a string literal is part of it. */
  lemma WrongQuoteInsideExample(alphabetic: char -> bool)
    ensures Lex(alphabetic, File, WrongQuoteInsideSource) ==
      Ok([Token(StringLiteral(false), "\"don't want an error here\"", 1, 1, 0, 26), Token(EndOfFile, "", 1, 1, 26, 26)])
  {
    WrongQuoteInsideRun(alphabetic);
    WrongQuoteInsideFinish();
    LexFrom(alphabetic, WrongQuoteInsideSource, Ok(LexState([Token(StringLiteral(false), "\"don't want an error here\"", 1, 1, 0, 26)], "", None, 1, 1, 26, 26, File, WrongQuoteInsideSource)), Ok([Token(StringLiteral(false), "\"don't want an error here\"", 1, 1, 0, 26), Token(EndOfFile, "", 1, 1, 26, 26)]));
  }

  // `malformed_binary`, src/lexer.rs:551-554. `MalformedBinaryFrom<k>` lexes the source from the state before its
  // k-th piece on; `MalformedBinaryPieces` puts the pieces together.

  const MalformedBinarySource := "0b0110534"

  lemma MalformedBinaryFrom3(alphabetic: char -> bool, rest: string)
    ensures Run(alphabetic, LexState([], "0b0110", Some(BinLiteral), 1, 1, 0, 6, File, MalformedBinarySource), "5" + rest) ==
      Err(LexError(MalformedBinLiteral, "0b01105", 1, 1, 0, 6, File, MalformedBinarySource))
  {
    var s := LexState([], "0b0110", Some(BinLiteral), 1, 1, 0, 6, File, MalformedBinarySource);
    var e := LexError(MalformedBinLiteral, "0b01105", 1, 1, 0, 6, File, MalformedBinarySource);
    NotTerminator('5');
    assert s.buf + ['5'] == e.partialToken;
    StepErr(alphabetic, s, '5', rest, e);
  }

  lemma MalformedBinaryFrom2(alphabetic: char -> bool, rest: string)
    ensures Run(alphabetic, LexState([], "0b", Some(BinLiteral), 1, 1, 0, 2, File, MalformedBinarySource), "0110" + ("5" + rest)) ==
      Err(LexError(MalformedBinLiteral, "0b01105", 1, 1, 0, 6, File, MalformedBinarySource))
  {
    var s := LexState([], "0b", Some(BinLiteral), 1, 1, 0, 2, File, MalformedBinarySource);
    var s' := LexState([], "0b0110", Some(BinLiteral), 1, 1, 0, 6, File, MalformedBinarySource);
    assert s.buf + "0110" == s'.buf;
    AbsorbRun(alphabetic, IsBit, s, "0110", "5" + rest);
    MalformedBinaryFrom3(alphabetic, rest);
  }

  lemma MalformedBinaryFrom1(alphabetic: char -> bool, rest: string)
    ensures Run(alphabetic, LexState([], "0", Some(DecimalLiteral(false)), 1, 1, 0, 1, File, MalformedBinarySource), "b" + ("0110" + ("5" + rest))) ==
      Err(LexError(MalformedBinLiteral, "0b01105", 1, 1, 0, 6, File, MalformedBinarySource))
  {
    var s := LexState([], "0", Some(DecimalLiteral(false)), 1, 1, 0, 1, File, MalformedBinarySource);
    var s' := LexState([], "0b", Some(BinLiteral), 1, 1, 0, 2, File, MalformedBinarySource);
    assert s.buf + ['b'] == s'.buf;
    NotTerminator('b');
    Step(alphabetic, s, 'b', "0110" + ("5" + rest), s');
    MalformedBinaryFrom2(alphabetic, rest);
  }

  lemma MalformedBinaryFrom0(alphabetic: char -> bool, rest: string)
    ensures Run(alphabetic, LexState([], "", None, 1, 1, 0, 0, File, MalformedBinarySource), "0" + ("b" + ("0110" + ("5" + rest)))) ==
      Err(LexError(MalformedBinLiteral, "0b01105", 1, 1, 0, 6, File, MalformedBinarySource))
  {
    var s := LexState([], "", None, 1, 1, 0, 0, File, MalformedBinarySource);
    var s' := LexState([], "0", Some(DecimalLiteral(false)), 1, 1, 0, 1, File, MalformedBinarySource);
    assert s.buf + ['0'] == s'.buf;
    Step(alphabetic, s, '0', "b" + ("0110" + ("5" + rest)), s');
    MalformedBinaryFrom1(alphabetic, rest);
  }

  lemma MalformedBinaryPieces()
    ensures "0" + ("b" + ("0110" + ("5" + "34"))) == MalformedBinarySource
  {
  }

  lemma MalformedBinaryRun(alphabetic: char -> bool)
    ensures Run(alphabetic, Start0(File, MalformedBinarySource), MalformedBinarySource) ==
      Err(LexError(MalformedBinLiteral, "0b01105", 1, 1, 0, 6, File, MalformedBinarySource))
  {
    MalformedBinaryFrom0(alphabetic, "34");
    MalformedBinaryPieces();
    assert Start0(File, MalformedBinarySource) == LexState([], "", None, 1, 1, 0, 0, File, MalformedBinarySource);
  }

  /** `malformed_binary` */
  lemma MalformedBinaryExample(alphabetic: char -> bool)
    ensures Lex(alphabetic, File, MalformedBinarySource) ==
      Err(LexError(MalformedBinLiteral, "0b01105", 1, 1, 0, 6, File, MalformedBinarySource))
  {
    MalformedBinaryRun(alphabetic);
    LexFrom(alphabetic, MalformedBinarySource, Err(LexError(MalformedBinLiteral, "0b01105", 1, 1, 0, 6, File, MalformedBinarySource)), Err(LexError(MalformedBinLiteral, "0b01105", 1, 1, 0, 6, File, MalformedBinarySource)));
  }

  // `hex_right`, src/lexer.rs:556-565. `HexRightFrom<k>` lexes the source from the state before its
  // k-th piece on; `HexRightPieces` puts the pieces together.

  const HexRightSource := "0xdeadbeef\n"

  lemma HexRightFrom4(alphabetic: char -> bool, rest: string)
    ensures Run(alphabetic, LexState([], "0xdeadbeef", Some(HexLiteral), 1, 1, 0, 10, File, HexRightSource), "\n" + rest) ==
      Run(alphabetic, LexState([Token(HexLiteral, "0xdeadbeef", 1, 1, 0, 10), Token(Newline, "\n", 1, 2, 10, 0)], "", None, 2, 2, 0, 0, File, HexRightSource), rest)
  {
    var s := LexState([], "0xdeadbeef", Some(HexLiteral), 1, 1, 0, 10, File, HexRightSource);
    var s' := LexState([Token(HexLiteral, "0xdeadbeef", 1, 1, 0, 10), Token(Newline, "\n", 1, 2, 10, 0)], "", None, 2, 2, 0, 0, File, HexRightSource);
    assert s.tokens + [Token(HexLiteral, "0xdeadbeef", 1, 1, 0, 10)] == [Token(HexLiteral, "0xdeadbeef", 1, 1, 0, 10)];
    assert [] + ['\n'] == "\n";
    assert [Token(HexLiteral, "0xdeadbeef", 1, 1, 0, 10)] + [Token(Newline, "\n", 1, 2, 10, 0)] == s'.tokens;
    Step(alphabetic, s, '\n', rest, s');
  }

  lemma HexRightFrom3(alphabetic: char -> bool, rest: string)
    ensures Run(alphabetic, LexState([], "0xdead", Some(HexLiteral), 1, 1, 0, 6, File, HexRightSource), "beef" + ("\n" + rest)) ==
      Run(alphabetic, LexState([Token(HexLiteral, "0xdeadbeef", 1, 1, 0, 10), Token(Newline, "\n", 1, 2, 10, 0)], "", None, 2, 2, 0, 0, File, HexRightSource), rest)
  {
    var s := LexState([], "0xdead", Some(HexLiteral), 1, 1, 0, 6, File, HexRightSource);
    var s' := LexState([], "0xdeadbeef", Some(HexLiteral), 1, 1, 0, 10, File, HexRightSource);
    assert s.buf + "beef" == s'.buf;
    AbsorbRun(alphabetic, IsLowerHexDigit, s, "beef", "\n" + rest);
    HexRightFrom4(alphabetic, rest);
  }

  lemma HexRightFrom2(alphabetic: char -> bool, rest: string)
    ensures Run(alphabetic, LexState([], "0x", Some(HexLiteral), 1, 1, 0, 2, File, HexRightSource), "dead" + ("beef" + ("\n" + rest))) ==
      Run(alphabetic, LexState([Token(HexLiteral, "0xdeadbeef", 1, 1, 0, 10), Token(Newline, "\n", 1, 2, 10, 0)], "", None, 2, 2, 0, 0, File, HexRightSource), rest)
  {
    var s := LexState([], "0x", Some(HexLiteral), 1, 1, 0, 2, File, HexRightSource);
    var s' := LexState([], "0xdead", Some(HexLiteral), 1, 1, 0, 6, File, HexRightSource);
    assert s.buf + "dead" == s'.buf;
    AbsorbRun(alphabetic, IsLowerHexDigit, s, "dead", "beef" + ("\n" + rest));
    HexRightFrom3(alphabetic, rest);
  }

  lemma HexRightFrom1(alphabetic: char -> bool, rest: string)
    ensures Run(alphabetic, LexState([], "0", Some(DecimalLiteral(false)), 1, 1, 0, 1, File, HexRightSource), "x" + ("dead" + ("beef" + ("\n" + rest)))) ==
      Run(alphabetic, LexState([Token(HexLiteral, "0xdeadbeef", 1, 1, 0, 10), Token(Newline, "\n", 1, 2, 10, 0)], "", None, 2, 2, 0, 0, File, HexRightSource), rest)
  {
    var s := LexState([], "0", Some(DecimalLiteral(false)), 1, 1, 0, 1, File, HexRightSource);
    var s' := LexState([], "0x", Some(HexLiteral), 1, 1, 0, 2, File, HexRightSource);
    assert s.buf + ['x'] == s'.buf;
    NotTerminator('x');
    Step(alphabetic, s, 'x', "dead" + ("beef" + ("\n" + rest)), s');
    HexRightFrom2(alphabetic, rest);
  }

  lemma HexRightFrom0(alphabetic: char -> bool, rest: string)
    ensures Run(alphabetic, LexState([], "", None, 1, 1, 0, 0, File, HexRightSource), "0" + ("x" + ("dead" + ("beef" + ("\n" + rest))))) ==
      Run(alphabetic, LexState([Token(HexLiteral, "0xdeadbeef", 1, 1, 0, 10), Token(Newline, "\n", 1, 2, 10, 0)], "", None, 2, 2, 0, 0, File, HexRightSource), rest)
  {
    var s := LexState([], "", None, 1, 1, 0, 0, File, HexRightSource);
    var s' := LexState([], "0", Some(DecimalLiteral(false)), 1, 1, 0, 1, File, HexRightSource);
    assert s.buf + ['0'] == s'.buf;
    Step(alphabetic, s, '0', "x" + ("dead" + ("beef" + ("\n" + rest))), s');
    HexRightFrom1(alphabetic, rest);
  }

  lemma HexRightPieces()
    ensures "0" + ("x" + ("dead" + ("beef" + ("\n" + "")))) == HexRightSource
  {
  }

  lemma HexRightRun(alphabetic: char -> bool)
    ensures Run(alphabetic, Start0(File, HexRightSource), HexRightSource) ==
      Ok(LexState([Token(HexLiteral, "0xdeadbeef", 1, 1, 0, 10), Token(Newline, "\n", 1, 2, 10, 0)], "", None, 2, 2, 0, 0, File, HexRightSource))
  {
    HexRightFrom0(alphabetic, "");
    HexRightPieces();
    assert Run(alphabetic, LexState([Token(HexLiteral, "0xdeadbeef", 1, 1, 0, 10), Token(Newline, "\n", 1, 2, 10, 0)], "", None, 2, 2, 0, 0, File, HexRightSource), "") == Ok(LexState([Token(HexLiteral, "0xdeadbeef", 1, 1, 0, 10), Token(Newline, "\n", 1, 2, 10, 0)], "", None, 2, 2, 0, 0, File, HexRightSource));
    assert Start0(File, HexRightSource) == LexState([], "", None, 1, 1, 0, 0, File, HexRightSource);
  }

  lemma HexRightFinish()
    ensures Finish(LexState([Token(HexLiteral, "0xdeadbeef", 1, 1, 0, 10), Token(Newline, "\n", 1, 2, 10, 0)], "", None, 2, 2, 0, 0, File, HexRightSource)) ==
      Ok([Token(HexLiteral, "0xdeadbeef", 1, 1, 0, 10), Token(Newline, "\n", 1, 2, 10, 0), Token(EndOfFile, "", 2, 2, 0, 0)])
  {
    var s := LexState([Token(HexLiteral, "0xdeadbeef", 1, 1, 0, 10), Token(Newline, "\n", 1, 2, 10, 0)], "", None, 2, 2, 0, 0, File, HexRightSource);
    assert s.tokens + [Token(EndOfFile, "", 2, 2, 0, 0)] == [Token(HexLiteral, "0xdeadbeef", 1, 1, 0, 10), Token(Newline, "\n", 1, 2, 10, 0), Token(EndOfFile, "", 2, 2, 0, 0)];
  }

  /** `hex_right` */
  lemma HexRightExample(alphabetic: char -> bool)
    ensures Lex(alphabetic, File, HexRightSource) ==
      Ok([Token(HexLiteral, "0xdeadbeef", 1, 1, 0, 10), Token(Newline, "\n", 1, 2, 10, 0), Token(EndOfFile, "", 2, 2, 0, 0)])
  {
    HexRightRun(alphabetic);
    HexRightFinish();
    LexFrom(alphabetic, HexRightSource, Ok(LexState([Token(HexLiteral, "0xdeadbeef", 1, 1, 0, 10), Token(Newline, "\n", 1, 2, 10, 0)], "", None, 2, 2, 0, 0, File, HexRightSource)), Ok([Token(HexLiteral, "0xdeadbeef", 1, 1, 0, 10), Token(Newline, "\n", 1, 2, 10, 0), Token(EndOfFile, "", 2, 2, 0, 0)]));
  }

  // `hex_wrong`, src/lexer.rs:567-570. `HexWrongFrom<k>` lexes the source from the state before its
  // k-th piece on; `HexWrongPieces` puts the pieces together.

  const HexWrongSource := "0x4D\n"

  lemma HexWrongFrom3(alphabetic: char -> bool, rest: string)
    ensures Run(alphabetic, LexState([], "0x4", Some(HexLiteral), 1, 1, 0, 3, File, HexWrongSource), "D" + rest) ==
      Err(LexError(WrongHexCase, "0x4D", 1, 1, 0, 3, File, HexWrongSource))
  {
    var s := LexState([], "0x4", Some(HexLiteral), 1, 1, 0, 3, File, HexWrongSource);
    var e := LexError(WrongHexCase, "0x4D", 1, 1, 0, 3, File, HexWrongSource);
    NotTerminator('D');
    assert s.buf + ['D'] == e.partialToken;
    StepErr(alphabetic, s, 'D', rest, e);
  }

  lemma HexWrongFrom2(alphabetic: char -> bool, rest: string)
    ensures Run(alphabetic, LexState([], "0x", Some(HexLiteral), 1, 1, 0, 2, File, HexWrongSource), "4" + ("D" + rest)) ==
      Err(LexError(WrongHexCase, "0x4D", 1, 1, 0, 3, File, HexWrongSource))
  {
    var s := LexState([], "0x", Some(HexLiteral), 1, 1, 0, 2, File, HexWrongSource);
    var s' := LexState([], "0x4", Some(HexLiteral), 1, 1, 0, 3, File, HexWrongSource);
    assert s.buf + ['4'] == s'.buf;
    NotTerminator('4');
    Step(alphabetic, s, '4', "D" + rest, s');
    HexWrongFrom3(alphabetic, rest);
  }

  lemma HexWrongFrom1(alphabetic: char -> bool, rest: string)
    ensures Run(alphabetic, LexState([], "0", Some(DecimalLiteral(false)), 1, 1, 0, 1, File, HexWrongSource), "x" + ("4" + ("D" + rest))) ==
      Err(LexError(WrongHexCase, "0x4D", 1, 1, 0, 3, File, HexWrongSource))
  {
    var s := LexState([], "0", Some(DecimalLiteral(false)), 1, 1, 0, 1, File, HexWrongSource);
    var s' := LexState([], "0x", Some(HexLiteral), 1, 1, 0, 2, File, HexWrongSource);
    assert s.buf + ['x'] == s'.buf;
    NotTerminator('x');
    Step(alphabetic, s, 'x', "4" + ("D" + rest), s');
    HexWrongFrom2(alphabetic, rest);
  }

  lemma HexWrongFrom0(alphabetic: char -> bool, rest: string)
    ensures Run(alphabetic, LexState([], "", None, 1, 1, 0, 0, File, HexWrongSource), "0" + ("x" + ("4" + ("D" + rest)))) ==
      Err(LexError(WrongHexCase, "0x4D", 1, 1, 0, 3, File, HexWrongSource))
  {
    var s := LexState([], "", None, 1, 1, 0, 0, File, HexWrongSource);
    var s' := LexState([], "0", Some(DecimalLiteral(false)), 1, 1, 0, 1, File, HexWrongSource);
    assert s.buf + ['0'] == s'.buf;
    Step(alphabetic, s, '0', "x" + ("4" + ("D" + rest)), s');
    HexWrongFrom1(alphabetic, rest);
  }

  lemma HexWrongPieces()
    ensures "0" + ("x" + ("4" + ("D" + "\n"))) == HexWrongSource
  {
  }

  lemma HexWrongRun(alphabetic: char -> bool)
    ensures Run(alphabetic, Start0(File, HexWrongSource), HexWrongSource) ==
      Err(LexError(WrongHexCase, "0x4D", 1, 1, 0, 3, File, HexWrongSource))
  {
    HexWrongFrom0(alphabetic, "\n");
    HexWrongPieces();
    assert Start0(File, HexWrongSource) == LexState([], "", None, 1, 1, 0, 0, File, HexWrongSource);
  }

  /** `hex_wrong` */
  lemma HexWrongExample(alphabetic: char -> bool)
    ensures Lex(alphabetic, File, HexWrongSource) ==
      Err(LexError(WrongHexCase, "0x4D", 1, 1, 0, 3, File, HexWrongSource))
  {
    HexWrongRun(alphabetic);
    LexFrom(alphabetic, HexWrongSource, Err(LexError(WrongHexCase, "0x4D", 1, 1, 0, 3, File, HexWrongSource)), Err(LexError(WrongHexCase, "0x4D", 1, 1, 0, 3, File, HexWrongSource)));
  }

  // `hex_mixed`, src/lexer.rs:572-575. `HexMixedFrom<k>` lexes the source from the state before its
  // k-th piece on; `HexMixedPieces` puts the pieces together.

  const HexMixedSource := "0x4Dd\n"

  lemma HexMixedFrom3(alphabetic: char -> bool, rest: string)
    ensures Run(alphabetic, LexState([], "0x4", Some(HexLiteral), 1, 1, 0, 3, File, HexMixedSource), "D" + rest) ==
      Err(LexError(WrongHexCase, "0x4D", 1, 1, 0, 3, File, HexMixedSource))
  {
    var s := LexState([], "0x4", Some(HexLiteral), 1, 1, 0, 3, File, HexMixedSource);
    var e := LexError(WrongHexCase, "0x4D", 1, 1, 0, 3, File, HexMixedSource);
    NotTerminator('D');
    assert s.buf + ['D'] == e.partialToken;
    StepErr(alphabetic, s, 'D', rest, e);
  }

  lemma HexMixedFrom2(alphabetic: char -> bool, rest: string)
    ensures Run(alphabetic, LexState([], "0x", Some(HexLiteral), 1, 1, 0, 2, File, HexMixedSource), "4" + ("D" + rest)) ==
      Err(LexError(WrongHexCase, "0x4D", 1, 1, 0, 3, File, HexMixedSource))
  {
    var s := LexState([], "0x", Some(HexLiteral), 1, 1, 0, 2, File, HexMixedSource);
    var s' := LexState([], "0x4", Some(HexLiteral), 1, 1, 0, 3, File, HexMixedSource);
    assert s.buf + ['4'] == s'.buf;
    NotTerminator('4');
    Step(alphabetic, s, '4', "D" + rest, s');
    HexMixedFrom3(alphabetic, rest);
  }

  lemma HexMixedFrom1(alphabetic: char -> bool, rest: string)
    ensures Run(alphabetic, LexState([], "0", Some(DecimalLiteral(false)), 1, 1, 0, 1, File, HexMixedSource), "x" + ("4" + ("D" + rest))) ==
      Err(LexError(WrongHexCase, "0x4D", 1, 1, 0, 3, File, HexMixedSource))
  {
    var s := LexState([], "0", Some(DecimalLiteral(false)), 1, 1, 0, 1, File, HexMixedSource);
    var s' := LexState([], "0x", Some(HexLiteral), 1, 1, 0, 2, File, HexMixedSource);
    assert s.buf + ['x'] == s'.buf;
    NotTerminator('x');
    Step(alphabetic, s, 'x', "4" + ("D" + rest), s');
    HexMixedFrom2(alphabetic, rest);
  }

  lemma HexMixedFrom0(alphabetic: char -> bool, rest: string)
    ensures Run(alphabetic, LexState([], "", None, 1, 1, 0, 0, File, HexMixedSource), "0" + ("x" + ("4" + ("D" + rest)))) ==
      Err(LexError(WrongHexCase, "0x4D", 1, 1, 0, 3, File, HexMixedSource))
  {
    var s := LexState([], "", None, 1, 1, 0, 0, File, HexMixedSource);
    var s' := LexState([], "0", Some(DecimalLiteral(false)), 1, 1, 0, 1, File, HexMixedSource);
    assert s.buf + ['0'] == s'.buf;
    Step(alphabetic, s, '0', "x" + ("4" + ("D" + rest)), s');
    HexMixedFrom1(alphabetic, rest);
  }

  lemma HexMixedPieces()
    ensures "0" + ("x" + ("4" + ("D" + "d\n"))) == HexMixedSource
  {
  }

  lemma HexMixedRun(alphabetic: char -> bool)
    ensures Run(alphabetic, Start0(File, HexMixedSource), HexMixedSource) ==
      Err(LexError(WrongHexCase, "0x4D", 1, 1, 0, 3, File, HexMixedSource))
  {
    HexMixedFrom0(alphabetic, "d\n");
    HexMixedPieces();
    assert Start0(File, HexMixedSource) == LexState([], "", None, 1, 1, 0, 0, File, HexMixedSource);
  }

  /** `hex_mixed` */
  lemma HexMixedExample(alphabetic: char -> bool)
    ensures Lex(alphabetic, File, HexMixedSource) ==
      Err(LexError(WrongHexCase, "0x4D", 1, 1, 0, 3, File, HexMixedSource))
  {
    HexMixedRun(alphabetic);
    LexFrom(alphabetic, HexMixedSource, Err(LexError(WrongHexCase, "0x4D", 1, 1, 0, 3, File, HexMixedSource)), Err(LexError(WrongHexCase, "0x4D", 1, 1, 0, 3, File, HexMixedSource)));
  }

  // `bad_hex`, src/lexer.rs:577-580. `BadHexFrom<k>` lexes the source from the state before its
  // k-th piece on; `BadHexPieces` puts the pieces together.

  const BadHexSource := "0x4dk\n"

  lemma BadHexFrom3(alphabetic: char -> bool, rest: string)
    ensures Run(alphabetic, LexState([], "0x4d", Some(HexLiteral), 1, 1, 0, 4, File, BadHexSource), "k" + rest) ==
      Err(LexError(MalformedHexLiteral, "0x4dk", 1, 1, 0, 4, File, BadHexSource))
  {
    var s := LexState([], "0x4d", Some(HexLiteral), 1, 1, 0, 4, File, BadHexSource);
    var e := LexError(MalformedHexLiteral, "0x4dk", 1, 1, 0, 4, File, BadHexSource);
    NotTerminator('k');
    assert s.buf + ['k'] == e.partialToken;
    StepErr(alphabetic, s, 'k', rest, e);
  }

  lemma BadHexFrom2(alphabetic: char -> bool, rest: string)
    ensures Run(alphabetic, LexState([], "0x", Some(HexLiteral), 1, 1, 0, 2, File, BadHexSource), "4d" + ("k" + rest)) ==
      Err(LexError(MalformedHexLiteral, "0x4dk", 1, 1, 0, 4, File, BadHexSource))
  {
    var s := LexState([], "0x", Some(HexLiteral), 1, 1, 0, 2, File, BadHexSource);
    var s' := LexState([], "0x4d", Some(HexLiteral), 1, 1, 0, 4, File, BadHexSource);
    assert s.buf + "4d" == s'.buf;
    AbsorbRun(alphabetic, IsLowerHexDigit, s, "4d", "k" + rest);
    BadHexFrom3(alphabetic, rest);
  }

  lemma BadHexFrom1(alphabetic: char -> bool, rest: string)
    ensures Run(alphabetic, LexState([], "0", Some(DecimalLiteral(false)), 1, 1, 0, 1, File, BadHexSource), "x" + ("4d" + ("k" + rest))) ==
      Err(LexError(MalformedHexLiteral, "0x4dk", 1, 1, 0, 4, File, BadHexSource))
  {
    var s := LexState([], "0", Some(DecimalLiteral(false)), 1, 1, 0, 1, File, BadHexSource);
    var s' := LexState([], "0x", Some(HexLiteral), 1, 1, 0, 2, File, BadHexSource);
    assert s.buf + ['x'] == s'.buf;
    NotTerminator('x');
    Step(alphabetic, s, 'x', "4d" + ("k" + rest), s');
    BadHexFrom2(alphabetic, rest);
  }

  lemma BadHexFrom0(alphabetic: char -> bool, rest: string)
    ensures Run(alphabetic, LexState([], "", None, 1, 1, 0, 0, File, BadHexSource), "0" + ("x" + ("4d" + ("k" + rest)))) ==
      Err(LexError(MalformedHexLiteral, "0x4dk", 1, 1, 0, 4, File, BadHexSource))
  {
    var s := LexState([], "", None, 1, 1, 0, 0, File, BadHexSource);
    var s' := LexState([], "0", Some(DecimalLiteral(false)), 1, 1, 0, 1, File, BadHexSource);
    assert s.buf + ['0'] == s'.buf;
    Step(alphabetic, s, '0', "x" + ("4d" + ("k" + rest)), s');
    BadHexFrom1(alphabetic, rest);
  }

  lemma BadHexPieces()
    ensures "0" + ("x" + ("4d" + ("k" + "\n"))) == BadHexSource
  {
  }

  lemma BadHexRun(alphabetic: char -> bool)
    ensures Run(alphabetic, Start0(File, BadHexSource), BadHexSource) ==
      Err(LexError(MalformedHexLiteral, "0x4dk", 1, 1, 0, 4, File, BadHexSource))
  {
    BadHexFrom0(alphabetic, "\n");
    BadHexPieces();
    assert Start0(File, BadHexSource) == LexState([], "", None, 1, 1, 0, 0, File, BadHexSource);
  }

  /** `bad_hex` */
  lemma BadHexExample(alphabetic: char -> bool)
    ensures Lex(alphabetic, File, BadHexSource) ==
      Err(LexError(MalformedHexLiteral, "0x4dk", 1, 1, 0, 4, File, BadHexSource))
  {
    BadHexRun(alphabetic);
    LexFrom(alphabetic, BadHexSource, Err(LexError(MalformedHexLiteral, "0x4dk", 1, 1, 0, 4, File, BadHexSource)), Err(LexError(MalformedHexLiteral, "0x4dk", 1, 1, 0, 4, File, BadHexSource)));
  }

  // `dec_wrong`, src/lexer.rs:582-585. `DecWrongFrom<k>` lexes the source from the state before its
  // k-th piece on; `DecWrongPieces` puts the pieces together.

  const DecWrongSource := "0.f\n"

  lemma DecWrongFrom2(alphabetic: char -> bool, rest: string)
    ensures Run(alphabetic, LexState([], "0.", Some(DecimalLiteral(true)), 1, 1, 0, 2, File, DecWrongSource), "f" + rest) ==
      Err(LexError(MalformedDecLiteral, "0.f", 1, 1, 0, 2, File, DecWrongSource))
  {
    var s := LexState([], "0.", Some(DecimalLiteral(true)), 1, 1, 0, 2, File, DecWrongSource);
    var e := LexError(MalformedDecLiteral, "0.f", 1, 1, 0, 2, File, DecWrongSource);
    NotTerminator('f');
    assert s.buf + ['f'] == e.partialToken;
    StepErr(alphabetic, s, 'f', rest, e);
  }

  lemma DecWrongFrom1(alphabetic: char -> bool, rest: string)
    ensures Run(alphabetic, LexState([], "0", Some(DecimalLiteral(false)), 1, 1, 0, 1, File, DecWrongSource), "." + ("f" + rest)) ==
      Err(LexError(MalformedDecLiteral, "0.f", 1, 1, 0, 2, File, DecWrongSource))
  {
    var s := LexState([], "0", Some(DecimalLiteral(false)), 1, 1, 0, 1, File, DecWrongSource);
    var s' := LexState([], "0.", Some(DecimalLiteral(true)), 1, 1, 0, 2, File, DecWrongSource);
    assert s.buf + ['.'] == s'.buf;
    Step(alphabetic, s, '.', "f" + rest, s');
    DecWrongFrom2(alphabetic, rest);
  }

  lemma DecWrongFrom0(alphabetic: char -> bool, rest: string)
    ensures Run(alphabetic, LexState([], "", None, 1, 1, 0, 0, File, DecWrongSource), "0" + ("." + ("f" + rest))) ==
      Err(LexError(MalformedDecLiteral, "0.f", 1, 1, 0, 2, File, DecWrongSource))
  {
    var s := LexState([], "", None, 1, 1, 0, 0, File, DecWrongSource);
    var s' := LexState([], "0", Some(DecimalLiteral(false)), 1, 1, 0, 1, File, DecWrongSource);
    assert s.buf + ['0'] == s'.buf;
    Step(alphabetic, s, '0', "." + ("f" + rest), s');
    DecWrongFrom1(alphabetic, rest);
  }

  lemma DecWrongPieces()
    ensures "0" + ("." + ("f" + "\n")) == DecWrongSource
  {
  }

  lemma DecWrongRun(alphabetic: char -> bool)
    ensures Run(alphabetic, Start0(File, DecWrongSource), DecWrongSource) ==
      Err(LexError(MalformedDecLiteral, "0.f", 1, 1, 0, 2, File, DecWrongSource))
  {
    DecWrongFrom0(alphabetic, "\n");
    DecWrongPieces();
    assert Start0(File, DecWrongSource) == LexState([], "", None, 1, 1, 0, 0, File, DecWrongSource);
  }

  /** `dec_wrong` */
  lemma DecWrongExample(alphabetic: char -> bool)
    ensures Lex(alphabetic, File, DecWrongSource) ==
      Err(LexError(MalformedDecLiteral, "0.f", 1, 1, 0, 2, File, DecWrongSource))
  {
    DecWrongRun(alphabetic);
    LexFrom(alphabetic, DecWrongSource, Err(LexError(MalformedDecLiteral, "0.f", 1, 1, 0, 2, File, DecWrongSource)), Err(LexError(MalformedDecLiteral, "0.f", 1, 1, 0, 2, File, DecWrongSource)));
  }

  // `dec_trailing_dpoint`, src/lexer.rs:587-590. `DecTrailingPointFrom<k>` lexes the source from the state before its
  // k-th piece on; `DecTrailingPointPieces` puts the pieces together.

  const DecTrailingPointSource := "56.\n"

  lemma DecTrailingPointFrom3(alphabetic: char -> bool, rest: string)
    ensures Run(alphabetic, LexState([], "56.", Some(DecimalLiteral(true)), 1, 1, 0, 3, File, DecTrailingPointSource), "\n" + rest) ==
      Err(LexError(TrailingDPoint, "56.\n", 1, 1, 0, 3, File, DecTrailingPointSource))
  {
    var s := LexState([], "56.", Some(DecimalLiteral(true)), 1, 1, 0, 3, File, DecTrailingPointSource);
    var e := LexError(TrailingDPoint, "56.\n", 1, 1, 0, 3, File, DecTrailingPointSource);
    assert s.buf + ['\n'] == e.partialToken;
    StepErr(alphabetic, s, '\n', rest, e);
  }

  lemma DecTrailingPointFrom2(alphabetic: char -> bool, rest: string)
    ensures Run(alphabetic, LexState([], "56", Some(DecimalLiteral(false)), 1, 1, 0, 2, File, DecTrailingPointSource), "." + ("\n" + rest)) ==
      Err(LexError(TrailingDPoint, "56.\n", 1, 1, 0, 3, File, DecTrailingPointSource))
  {
    var s := LexState([], "56", Some(DecimalLiteral(false)), 1, 1, 0, 2, File, DecTrailingPointSource);
    var s' := LexState([], "56.", Some(DecimalLiteral(true)), 1, 1, 0, 3, File, DecTrailingPointSource);
    assert s.buf + ['.'] == s'.buf;
    Step(alphabetic, s, '.', "\n" + rest, s');
    DecTrailingPointFrom3(alphabetic, rest);
  }

  lemma DecTrailingPointFrom1(alphabetic: char -> bool, rest: string)
    ensures Run(alphabetic, LexState([], "5", Some(DecimalLiteral(false)), 1, 1, 0, 1, File, DecTrailingPointSource), "6" + ("." + ("\n" + rest))) ==
      Err(LexError(TrailingDPoint, "56.\n", 1, 1, 0, 3, File, DecTrailingPointSource))
  {
    var s := LexState([], "5", Some(DecimalLiteral(false)), 1, 1, 0, 1, File, DecTrailingPointSource);
    var s' := LexState([], "56", Some(DecimalLiteral(false)), 1, 1, 0, 2, File, DecTrailingPointSource);
    assert s.buf + ['6'] == s'.buf;
    NotTerminator('6');
    Step(alphabetic, s, '6', "." + ("\n" + rest), s');
    DecTrailingPointFrom2(alphabetic, rest);
  }

  lemma DecTrailingPointFrom0(alphabetic: char -> bool, rest: string)
    ensures Run(alphabetic, LexState([], "", None, 1, 1, 0, 0, File, DecTrailingPointSource), "5" + ("6" + ("." + ("\n" + rest)))) ==
      Err(LexError(TrailingDPoint, "56.\n", 1, 1, 0, 3, File, DecTrailingPointSource))
  {
    var s := LexState([], "", None, 1, 1, 0, 0, File, DecTrailingPointSource);
    var s' := LexState([], "5", Some(DecimalLiteral(false)), 1, 1, 0, 1, File, DecTrailingPointSource);
    assert s.buf + ['5'] == s'.buf;
    Step(alphabetic, s, '5', "6" + ("." + ("\n" + rest)), s');
    DecTrailingPointFrom1(alphabetic, rest);
  }

  lemma DecTrailingPointPieces()
    ensures "5" + ("6" + ("." + ("\n" + ""))) == DecTrailingPointSource
  {
  }

  lemma DecTrailingPointRun(alphabetic: char -> bool)
    ensures Run(alphabetic, Start0(File, DecTrailingPointSource), DecTrailingPointSource) ==
      Err(LexError(TrailingDPoint, "56.\n", 1, 1, 0, 3, File, DecTrailingPointSource))
  {
    DecTrailingPointFrom0(alphabetic, "");
    DecTrailingPointPieces();
    assert Start0(File, DecTrailingPointSource) == LexState([], "", None, 1, 1, 0, 0, File, DecTrailingPointSource);
  }

  /** `dec_trailing_dpoint`: the offending newline is part of the reported lexeme. */
  lemma DecTrailingPointExample(alphabetic: char -> bool)
    ensures Lex(alphabetic, File, DecTrailingPointSource) ==
      Err(LexError(TrailingDPoint, "56.\n", 1, 1, 0, 3, File, DecTrailingPointSource))
  {
    DecTrailingPointRun(alphabetic);
    LexFrom(alphabetic, DecTrailingPointSource, Err(LexError(TrailingDPoint, "56.\n", 1, 1, 0, 3, File, DecTrailingPointSource)), Err(LexError(TrailingDPoint, "56.\n", 1, 1, 0, 3, File, DecTrailingPointSource)));
  }

  // `dec_multiple_dpoint`, src/lexer.rs:592-595. `DecMultiplePointsFrom<k>` lexes the source from the state before its
  // k-th piece on; `DecMultiplePointsPieces` puts the pieces together.

  const DecMultiplePointsSource := "7.3.7"

  lemma DecMultiplePointsFrom3(alphabetic: char -> bool, rest: string)
    ensures Run(alphabetic, LexState([], "7.3", Some(DecimalLiteral(true)), 1, 1, 0, 3, File, DecMultiplePointsSource), "." + rest) ==
      Err(LexError(MultipleDecimalPoints, "7.3.", 1, 1, 0, 3, File, DecMultiplePointsSource))
  {
    var s := LexState([], "7.3", Some(DecimalLiteral(true)), 1, 1, 0, 3, File, DecMultiplePointsSource);
    var e := LexError(MultipleDecimalPoints, "7.3.", 1, 1, 0, 3, File, DecMultiplePointsSource);
    assert s.buf + ['.'] == e.partialToken;
    StepErr(alphabetic, s, '.', rest, e);
  }

  lemma DecMultiplePointsFrom2(alphabetic: char -> bool, rest: string)
    ensures Run(alphabetic, LexState([], "7.", Some(DecimalLiteral(true)), 1, 1, 0, 2, File, DecMultiplePointsSource), "3" + ("." + rest)) ==
      Err(LexError(MultipleDecimalPoints, "7.3.", 1, 1, 0, 3, File, DecMultiplePointsSource))
  {
    var s := LexState([], "7.", Some(DecimalLiteral(true)), 1, 1, 0, 2, File, DecMultiplePointsSource);
    var s' := LexState([], "7.3", Some(DecimalLiteral(true)), 1, 1, 0, 3, File, DecMultiplePointsSource);
    assert s.buf + ['3'] == s'.buf;
    NotTerminator('3');
    Step(alphabetic, s, '3', "." + rest, s');
    DecMultiplePointsFrom3(alphabetic, rest);
  }

  lemma DecMultiplePointsFrom1(alphabetic: char -> bool, rest: string)
    ensures Run(alphabetic, LexState([], "7", Some(DecimalLiteral(false)), 1, 1, 0, 1, File, DecMultiplePointsSource), "." + ("3" + ("." + rest))) ==
      Err(LexError(MultipleDecimalPoints, "7.3.", 1, 1, 0, 3, File, DecMultiplePointsSource))
  {
    var s := LexState([], "7", Some(DecimalLiteral(false)), 1, 1, 0, 1, File, DecMultiplePointsSource);
    var s' := LexState([], "7.", Some(DecimalLiteral(true)), 1, 1, 0, 2, File, DecMultiplePointsSource);
    assert s.buf + ['.'] == s'.buf;
    Step(alphabetic, s, '.', "3" + ("." + rest), s');
    DecMultiplePointsFrom2(alphabetic, rest);
  }

  lemma DecMultiplePointsFrom0(alphabetic: char -> bool, rest: string)
    ensures Run(alphabetic, LexState([], "", None, 1, 1, 0, 0, File, DecMultiplePointsSource), "7" + ("." + ("3" + ("." + rest)))) ==
      Err(LexError(MultipleDecimalPoints, "7.3.", 1, 1, 0, 3, File, DecMultiplePointsSource))
  {
    var s := LexState([], "", None, 1, 1, 0, 0, File, DecMultiplePointsSource);
    var s' := LexState([], "7", Some(DecimalLiteral(false)), 1, 1, 0, 1, File, DecMultiplePointsSource);
    assert s.buf + ['7'] == s'.buf;
    Step(alphabetic, s, '7', "." + ("3" + ("." + rest)), s');
    DecMultiplePointsFrom1(alphabetic, rest);
  }

  lemma DecMultiplePointsPieces()
    ensures "7" + ("." + ("3" + ("." + "7"))) == DecMultiplePointsSource
  {
  }

  lemma DecMultiplePointsRun(alphabetic: char -> bool)
    ensures Run(alphabetic, Start0(File, DecMultiplePointsSource), DecMultiplePointsSource) ==
      Err(LexError(MultipleDecimalPoints, "7.3.", 1, 1, 0, 3, File, DecMultiplePointsSource))
  {
    DecMultiplePointsFrom0(alphabetic, "7");
    DecMultiplePointsPieces();
    assert Start0(File, DecMultiplePointsSource) == LexState([], "", None, 1, 1, 0, 0, File, DecMultiplePointsSource);
  }

  /** `dec_multiple_dpoint` */
  lemma DecMultiplePointsExample(alphabetic: char -> bool)
    ensures Lex(alphabetic, File, DecMultiplePointsSource) ==
      Err(LexError(MultipleDecimalPoints, "7.3.", 1, 1, 0, 3, File, DecMultiplePointsSource))
  {
    DecMultiplePointsRun(alphabetic);
    LexFrom(alphabetic, DecMultiplePointsSource, Err(LexError(MultipleDecimalPoints, "7.3.", 1, 1, 0, 3, File, DecMultiplePointsSource)), Err(LexError(MultipleDecimalPoints, "7.3.", 1, 1, 0, 3, File, DecMultiplePointsSource)));
  }

  // `malformed_decimal`, src/lexer.rs:597-600. `MalformedDecimalFrom<k>` lexes the source from the state before its
  // k-th piece on; `MalformedDecimalPieces` puts the pieces together.

  const MalformedDecimalSource := "56j54"

  lemma MalformedDecimalFrom2(alphabetic: char -> bool, rest: string)
    ensures Run(alphabetic, LexState([], "56", Some(DecimalLiteral(false)), 1, 1, 0, 2, File, MalformedDecimalSource), "j" + rest) ==
      Err(LexError(MalformedDecLiteral, "56j", 1, 1, 0, 2, File, MalformedDecimalSource))
  {
    var s := LexState([], "56", Some(DecimalLiteral(false)), 1, 1, 0, 2, File, MalformedDecimalSource);
    var e := LexError(MalformedDecLiteral, "56j", 1, 1, 0, 2, File, MalformedDecimalSource);
    NotTerminator('j');
    assert s.buf + ['j'] == e.partialToken;
    StepErr(alphabetic, s, 'j', rest, e);
  }

  lemma MalformedDecimalFrom1(alphabetic: char -> bool, rest: string)
    ensures Run(alphabetic, LexState([], "5", Some(DecimalLiteral(false)), 1, 1, 0, 1, File, MalformedDecimalSource), "6" + ("j" + rest)) ==
      Err(LexError(MalformedDecLiteral, "56j", 1, 1, 0, 2, File, MalformedDecimalSource))
  {
    var s := LexState([], "5", Some(DecimalLiteral(false)), 1, 1, 0, 1, File, MalformedDecimalSource);
    var s' := LexState([], "56", Some(DecimalLiteral(false)), 1, 1, 0, 2, File, MalformedDecimalSource);
    assert s.buf + ['6'] == s'.buf;
    NotTerminator('6');
    Step(alphabetic, s, '6', "j" + rest, s');
    MalformedDecimalFrom2(alphabetic, rest);
  }

  lemma MalformedDecimalFrom0(alphabetic: char -> bool, rest: string)
    ensures Run(alphabetic, LexState([], "", None, 1, 1, 0, 0, File, MalformedDecimalSource), "5" + ("6" + ("j" + rest))) ==
      Err(LexError(MalformedDecLiteral, "56j", 1, 1, 0, 2, File, MalformedDecimalSource))
  {
    var s := LexState([], "", None, 1, 1, 0, 0, File, MalformedDecimalSource);
    var s' := LexState([], "5", Some(DecimalLiteral(false)), 1, 1, 0, 1, File, MalformedDecimalSource);
    assert s.buf + ['5'] == s'.buf;
    Step(alphabetic, s, '5', "6" + ("j" + rest), s');
    MalformedDecimalFrom1(alphabetic, rest);
  }

  lemma MalformedDecimalPieces()
    ensures "5" + ("6" + ("j" + "54")) == MalformedDecimalSource
  {
  }

  lemma MalformedDecimalRun(alphabetic: char -> bool)
    ensures Run(alphabetic, Start0(File, MalformedDecimalSource), MalformedDecimalSource) ==
      Err(LexError(MalformedDecLiteral, "56j", 1, 1, 0, 2, File, MalformedDecimalSource))
  {
    MalformedDecimalFrom0(alphabetic, "54");
    MalformedDecimalPieces();
    assert Start0(File, MalformedDecimalSource) == LexState([], "", None, 1, 1, 0, 0, File, MalformedDecimalSource);
  }

  /** `malformed_decimal` */
  lemma MalformedDecimalExample(alphabetic: char -> bool)
    ensures Lex(alphabetic, File, MalformedDecimalSource) ==
      Err(LexError(MalformedDecLiteral, "56j", 1, 1, 0, 2, File, MalformedDecimalSource))
  {
    MalformedDecimalRun(alphabetic);
    LexFrom(alphabetic, MalformedDecimalSource, Err(LexError(MalformedDecLiteral, "56j", 1, 1, 0, 2, File, MalformedDecimalSource)), Err(LexError(MalformedDecLiteral, "56j", 1, 1, 0, 2, File, MalformedDecimalSource)));
  }

  // `decimal_and_operators`, src/lexer.rs:602-611. `DecimalAndOperatorsFrom<k>` lexes the source from the state before its
  // k-th piece on; `DecimalAndOperatorsPieces` puts the pieces together.

  const DecimalAndOperatorsSource := "56+23\n"

  lemma DecimalAndOperatorsFrom5(alphabetic: char -> bool, rest: string)
    ensures Run(alphabetic, LexState([Token(DecimalLiteral(false), "56", 1, 1, 0, 2), Token(Operator(Plus), "+", 1, 1, 2, 3)], "23", Some(DecimalLiteral(false)), 1, 1, 3, 5, File, DecimalAndOperatorsSource), "\n" + rest) ==
      Run(alphabetic, LexState([Token(DecimalLiteral(false), "56", 1, 1, 0, 2), Token(Operator(Plus), "+", 1, 1, 2, 3), Token(DecimalLiteral(false), "23", 1, 1, 3, 5), Token(Newline, "\n", 1, 2, 5, 0)], "", None, 2, 2, 0, 0, File, DecimalAndOperatorsSource), rest)
  {
    var s := LexState([Token(DecimalLiteral(false), "56", 1, 1, 0, 2), Token(Operator(Plus), "+", 1, 1, 2, 3)], "23", Some(DecimalLiteral(false)), 1, 1, 3, 5, File, DecimalAndOperatorsSource);
    var s' := LexState([Token(DecimalLiteral(false), "56", 1, 1, 0, 2), Token(Operator(Plus), "+", 1, 1, 2, 3), Token(DecimalLiteral(false), "23", 1, 1, 3, 5), Token(Newline, "\n", 1, 2, 5, 0)], "", None, 2, 2, 0, 0, File, DecimalAndOperatorsSource);
    assert s.tokens + [Token(DecimalLiteral(false), "23", 1, 1, 3, 5)] == [Token(DecimalLiteral(false), "56", 1, 1, 0, 2), Token(Operator(Plus), "+", 1, 1, 2, 3), Token(DecimalLiteral(false), "23", 1, 1, 3, 5)];
    assert [] + ['\n'] == "\n";
    assert [Token(DecimalLiteral(false), "56", 1, 1, 0, 2), Token(Operator(Plus), "+", 1, 1, 2, 3), Token(DecimalLiteral(false), "23", 1, 1, 3, 5)] + [Token(Newline, "\n", 1, 2, 5, 0)] == s'.tokens;
    Step(alphabetic, s, '\n', rest, s');
  }

  lemma DecimalAndOperatorsFrom4(alphabetic: char -> bool, rest: string)
    ensures Run(alphabetic, LexState([Token(DecimalLiteral(false), "56", 1, 1, 0, 2), Token(Operator(Plus), "+", 1, 1, 2, 3)], "2", Some(DecimalLiteral(false)), 1, 1, 3, 4, File, DecimalAndOperatorsSource), "3" + ("\n" + rest)) ==
      Run(alphabetic, LexState([Token(DecimalLiteral(false), "56", 1, 1, 0, 2), Token(Operator(Plus), "+", 1, 1, 2, 3), Token(DecimalLiteral(false), "23", 1, 1, 3, 5), Token(Newline, "\n", 1, 2, 5, 0)], "", None, 2, 2, 0, 0, File, DecimalAndOperatorsSource), rest)
  {
    var s := LexState([Token(DecimalLiteral(false), "56", 1, 1, 0, 2), Token(Operator(Plus), "+", 1, 1, 2, 3)], "2", Some(DecimalLiteral(false)), 1, 1, 3, 4, File, DecimalAndOperatorsSource);
    var s' := LexState([Token(DecimalLiteral(false), "56", 1, 1, 0, 2), Token(Operator(Plus), "+", 1, 1, 2, 3)], "23", Some(DecimalLiteral(false)), 1, 1, 3, 5, File, DecimalAndOperatorsSource);
    assert s.buf + ['3'] == s'.buf;
    NotTerminator('3');
    Step(alphabetic, s, '3', "\n" + rest, s');
    DecimalAndOperatorsFrom5(alphabetic, rest);
  }

  lemma DecimalAndOperatorsFrom3(alphabetic: char -> bool, rest: string)
    ensures Run(alphabetic, LexState([Token(DecimalLiteral(false), "56", 1, 1, 0, 2), Token(Operator(Plus), "+", 1, 1, 2, 3)], "", None, 1, 1, 3, 3, File, DecimalAndOperatorsSource), "2" + ("3" + ("\n" + rest))) ==
      Run(alphabetic, LexState([Token(DecimalLiteral(false), "56", 1, 1, 0, 2), Token(Operator(Plus), "+", 1, 1, 2, 3), Token(DecimalLiteral(false), "23", 1, 1, 3, 5), Token(Newline, "\n", 1, 2, 5, 0)], "", None, 2, 2, 0, 0, File, DecimalAndOperatorsSource), rest)
  {
    var s := LexState([Token(DecimalLiteral(false), "56", 1, 1, 0, 2), Token(Operator(Plus), "+", 1, 1, 2, 3)], "", None, 1, 1, 3, 3, File, DecimalAndOperatorsSource);
    var s' := LexState([Token(DecimalLiteral(false), "56", 1, 1, 0, 2), Token(Operator(Plus), "+", 1, 1, 2, 3)], "2", Some(DecimalLiteral(false)), 1, 1, 3, 4, File, DecimalAndOperatorsSource);
    assert s.buf + ['2'] == s'.buf;
    Step(alphabetic, s, '2', "3" + ("\n" + rest), s');
    DecimalAndOperatorsFrom4(alphabetic, rest);
  }

  lemma DecimalAndOperatorsFrom2(alphabetic: char -> bool, rest: string)
    ensures Run(alphabetic, LexState([], "56", Some(DecimalLiteral(false)), 1, 1, 0, 2, File, DecimalAndOperatorsSource), "+" + ("2" + ("3" + ("\n" + rest)))) ==
      Run(alphabetic, LexState([Token(DecimalLiteral(false), "56", 1, 1, 0, 2), Token(Operator(Plus), "+", 1, 1, 2, 3), Token(DecimalLiteral(false), "23", 1, 1, 3, 5), Token(Newline, "\n", 1, 2, 5, 0)], "", None, 2, 2, 0, 0, File, DecimalAndOperatorsSource), rest)
  {
    var s := LexState([], "56", Some(DecimalLiteral(false)), 1, 1, 0, 2, File, DecimalAndOperatorsSource);
    var s' := LexState([Token(DecimalLiteral(false), "56", 1, 1, 0, 2), Token(Operator(Plus), "+", 1, 1, 2, 3)], "", None, 1, 1, 3, 3, File, DecimalAndOperatorsSource);
    assert s.tokens + [Token(DecimalLiteral(false), "56", 1, 1, 0, 2)] == [Token(DecimalLiteral(false), "56", 1, 1, 0, 2)];
    assert [] + ['+'] == "+";
    assert [Token(DecimalLiteral(false), "56", 1, 1, 0, 2)] + [Token(Operator(Plus), "+", 1, 1, 2, 3)] == s'.tokens;
    Step(alphabetic, s, '+', "2" + ("3" + ("\n" + rest)), s');
    DecimalAndOperatorsFrom3(alphabetic, rest);
  }

  lemma DecimalAndOperatorsFrom1(alphabetic: char -> bool, rest: string)
    ensures Run(alphabetic, LexState([], "5", Some(DecimalLiteral(false)), 1, 1, 0, 1, File, DecimalAndOperatorsSource), "6" + ("+" + ("2" + ("3" + ("\n" + rest))))) ==
      Run(alphabetic, LexState([Token(DecimalLiteral(false), "56", 1, 1, 0, 2), Token(Operator(Plus), "+", 1, 1, 2, 3), Token(DecimalLiteral(false), "23", 1, 1, 3, 5), Token(Newline, "\n", 1, 2, 5, 0)], "", None, 2, 2, 0, 0, File, DecimalAndOperatorsSource), rest)
  {
    var s := LexState([], "5", Some(DecimalLiteral(false)), 1, 1, 0, 1, File, DecimalAndOperatorsSource);
    var s' := LexState([], "56", Some(DecimalLiteral(false)), 1, 1, 0, 2, File, DecimalAndOperatorsSource);
    assert s.buf + ['6'] == s'.buf;
    NotTerminator('6');
    Step(alphabetic, s, '6', "+" + ("2" + ("3" + ("\n" + rest))), s');
    DecimalAndOperatorsFrom2(alphabetic, rest);
  }

  lemma DecimalAndOperatorsFrom0(alphabetic: char -> bool, rest: string)
    ensures Run(alphabetic, LexState([], "", None, 1, 1, 0, 0, File, DecimalAndOperatorsSource), "5" + ("6" + ("+" + ("2" + ("3" + ("\n" + rest)))))) ==
      Run(alphabetic, LexState([Token(DecimalLiteral(false), "56", 1, 1, 0, 2), Token(Operator(Plus), "+", 1, 1, 2, 3), Token(DecimalLiteral(false), "23", 1, 1, 3, 5), Token(Newline, "\n", 1, 2, 5, 0)], "", None, 2, 2, 0, 0, File, DecimalAndOperatorsSource), rest)
  {
    var s := LexState([], "", None, 1, 1, 0, 0, File, DecimalAndOperatorsSource);
    var s' := LexState([], "5", Some(DecimalLiteral(false)), 1, 1, 0, 1, File, DecimalAndOperatorsSource);
    assert s.buf + ['5'] == s'.buf;
    Step(alphabetic, s, '5', "6" + ("+" + ("2" + ("3" + ("\n" + rest)))), s');
    DecimalAndOperatorsFrom1(alphabetic, rest);
  }

  lemma DecimalAndOperatorsPieces()
    ensures "5" + ("6" + ("+" + ("2" + ("3" + ("\n" + ""))))) == DecimalAndOperatorsSource
  {
  }

  lemma DecimalAndOperatorsRun(alphabetic: char -> bool)
    ensures Run(alphabetic, Start0(File, DecimalAndOperatorsSource), DecimalAndOperatorsSource) ==
      Ok(LexState([Token(DecimalLiteral(false), "56", 1, 1, 0, 2), Token(Operator(Plus), "+", 1, 1, 2, 3), Token(DecimalLiteral(false), "23", 1, 1, 3, 5), Token(Newline, "\n", 1, 2, 5, 0)], "", None, 2, 2, 0, 0, File, DecimalAndOperatorsSource))
  {
    DecimalAndOperatorsFrom0(alphabetic, "");
    DecimalAndOperatorsPieces();
    assert Run(alphabetic, LexState([Token(DecimalLiteral(false), "56", 1, 1, 0, 2), Token(Operator(Plus), "+", 1, 1, 2, 3), Token(DecimalLiteral(false), "23", 1, 1, 3, 5), Token(Newline, "\n", 1, 2, 5, 0)], "", None, 2, 2, 0, 0, File, DecimalAndOperatorsSource), "") == Ok(LexState([Token(DecimalLiteral(false), "56", 1, 1, 0, 2), Token(Operator(Plus), "+", 1, 1, 2, 3), Token(DecimalLiteral(false), "23", 1, 1, 3, 5), Token(Newline, "\n", 1, 2, 5, 0)], "", None, 2, 2, 0, 0, File, DecimalAndOperatorsSource));
    assert Start0(File, DecimalAndOperatorsSource) == LexState([], "", None, 1, 1, 0, 0, File, DecimalAndOperatorsSource);
  }

  lemma DecimalAndOperatorsFinish()
    ensures Finish(LexState([Token(DecimalLiteral(false), "56", 1, 1, 0, 2), Token(Operator(Plus), "+", 1, 1, 2, 3), Token(DecimalLiteral(false), "23", 1, 1, 3, 5), Token(Newline, "\n", 1, 2, 5, 0)], "", None, 2, 2, 0, 0, File, DecimalAndOperatorsSource)) ==
      Ok([Token(DecimalLiteral(false), "56", 1, 1, 0, 2), Token(Operator(Plus), "+", 1, 1, 2, 3), Token(DecimalLiteral(false), "23", 1, 1, 3, 5), Token(Newline, "\n", 1, 2, 5, 0), Token(EndOfFile, "", 2, 2, 0, 0)])
  {
    var s := LexState([Token(DecimalLiteral(false), "56", 1, 1, 0, 2), Token(Operator(Plus), "+", 1, 1, 2, 3), Token(DecimalLiteral(false), "23", 1, 1, 3, 5), Token(Newline, "\n", 1, 2, 5, 0)], "", None, 2, 2, 0, 0, File, DecimalAndOperatorsSource);
    assert s.tokens + [Token(EndOfFile, "", 2, 2, 0, 0)] == [Token(DecimalLiteral(false), "56", 1, 1, 0, 2), Token(Operator(Plus), "+", 1, 1, 2, 3), Token(DecimalLiteral(false), "23", 1, 1, 3, 5), Token(Newline, "\n", 1, 2, 5, 0), Token(EndOfFile, "", 2, 2, 0, 0)];
  }

  /** `decimal_and_operators`: an operator ends a decimal literal. */
  lemma DecimalAndOperatorsExample(alphabetic: char -> bool)
    ensures Lex(alphabetic, File, DecimalAndOperatorsSource) ==
      Ok([Token(DecimalLiteral(false), "56", 1, 1, 0, 2), Token(Operator(Plus), "+", 1, 1, 2, 3), Token(DecimalLiteral(false), "23", 1, 1, 3, 5), Token(Newline, "\n", 1, 2, 5, 0), Token(EndOfFile, "", 2, 2, 0, 0)])
  {
    DecimalAndOperatorsRun(alphabetic);
    DecimalAndOperatorsFinish();
    LexFrom(alphabetic, DecimalAndOperatorsSource, Ok(LexState([Token(DecimalLiteral(false), "56", 1, 1, 0, 2), Token(Operator(Plus), "+", 1, 1, 2, 3), Token(DecimalLiteral(false), "23", 1, 1, 3, 5), Token(Newline, "\n", 1, 2, 5, 0)], "", None, 2, 2, 0, 0, File, DecimalAndOperatorsSource)), Ok([Token(DecimalLiteral(false), "56", 1, 1, 0, 2), Token(Operator(Plus), "+", 1, 1, 2, 3), Token(DecimalLiteral(false), "23", 1, 1, 3, 5), Token(Newline, "\n", 1, 2, 5, 0), Token(EndOfFile, "", 2, 2, 0, 0)]));
  }

  // `bin_empty`, src/lexer.rs:613-616. `BinEmptyFrom<k>` lexes the source from the state before its
  // k-th piece on; `BinEmptyPieces` puts the pieces together.

  const BinEmptySource := "0b\n"

  lemma BinEmptyFrom2(alphabetic: char -> bool, rest: string)
    ensures Run(alphabetic, LexState([], "0b", Some(BinLiteral), 1, 1, 0, 2, File, BinEmptySource), "\n" + rest) ==
      Err(LexError(EmptyBinLiteral, "0b\n", 1, 1, 0, 2, File, BinEmptySource))
  {
    var s := LexState([], "0b", Some(BinLiteral), 1, 1, 0, 2, File, BinEmptySource);
    var e := LexError(EmptyBinLiteral, "0b\n", 1, 1, 0, 2, File, BinEmptySource);
    assert s.buf + ['\n'] == e.partialToken;
    StepErr(alphabetic, s, '\n', rest, e);
  }

  lemma BinEmptyFrom1(alphabetic: char -> bool, rest: string)
    ensures Run(alphabetic, LexState([], "0", Some(DecimalLiteral(false)), 1, 1, 0, 1, File, BinEmptySource), "b" + ("\n" + rest)) ==
      Err(LexError(EmptyBinLiteral, "0b\n", 1, 1, 0, 2, File, BinEmptySource))
  {
    var s := LexState([], "0", Some(DecimalLiteral(false)), 1, 1, 0, 1, File, BinEmptySource);
    var s' := LexState([], "0b", Some(BinLiteral), 1, 1, 0, 2, File, BinEmptySource);
    assert s.buf + ['b'] == s'.buf;
    NotTerminator('b');
    Step(alphabetic, s, 'b', "\n" + rest, s');
    BinEmptyFrom2(alphabetic, rest);
  }

  lemma BinEmptyFrom0(alphabetic: char -> bool, rest: string)
    ensures Run(alphabetic, LexState([], "", None, 1, 1, 0, 0, File, BinEmptySource), "0" + ("b" + ("\n" + rest))) ==
      Err(LexError(EmptyBinLiteral, "0b\n", 1, 1, 0, 2, File, BinEmptySource))
  {
    var s := LexState([], "", None, 1, 1, 0, 0, File, BinEmptySource);
    var s' := LexState([], "0", Some(DecimalLiteral(false)), 1, 1, 0, 1, File, BinEmptySource);
    assert s.buf + ['0'] == s'.buf;
    Step(alphabetic, s, '0', "b" + ("\n" + rest), s');
    BinEmptyFrom1(alphabetic, rest);
  }

  lemma BinEmptyPieces()
    ensures "0" + ("b" + ("\n" + "")) == BinEmptySource
  {
  }

  lemma BinEmptyRun(alphabetic: char -> bool)
    ensures Run(alphabetic, Start0(File, BinEmptySource), BinEmptySource) ==
      Err(LexError(EmptyBinLiteral, "0b\n", 1, 1, 0, 2, File, BinEmptySource))
  {
    BinEmptyFrom0(alphabetic, "");
    BinEmptyPieces();
    assert Start0(File, BinEmptySource) == LexState([], "", None, 1, 1, 0, 0, File, BinEmptySource);
  }

  /** `bin_empty`: the offending newline is part of the reported lexeme. */
  lemma BinEmptyExample(alphabetic: char -> bool)
    ensures Lex(alphabetic, File, BinEmptySource) ==
      Err(LexError(EmptyBinLiteral, "0b\n", 1, 1, 0, 2, File, BinEmptySource))
  {
    BinEmptyRun(alphabetic);
    LexFrom(alphabetic, BinEmptySource, Err(LexError(EmptyBinLiteral, "0b\n", 1, 1, 0, 2, File, BinEmptySource)), Err(LexError(EmptyBinLiteral, "0b\n", 1, 1, 0, 2, File, BinEmptySource)));
  }

  // `hex_empty`, src/lexer.rs:618-621. `HexEmptyFrom<k>` lexes the source from the state before its
  // k-th piece on; `HexEmptyPieces` puts the pieces together.

  const HexEmptySource := "0x\n"

  lemma HexEmptyFrom2(alphabetic: char -> bool, rest: string)
    ensures Run(alphabetic, LexState([], "0x", Some(HexLiteral), 1, 1, 0, 2, File, HexEmptySource), "\n" + rest) ==
      Err(LexError(EmptyHexLiteral, "0x", 1, 1, 0, 2, File, HexEmptySource))
  {
    var s := LexState([], "0x", Some(HexLiteral), 1, 1, 0, 2, File, HexEmptySource);
    var e := LexError(EmptyHexLiteral, "0x", 1, 1, 0, 2, File, HexEmptySource);
    StepErr(alphabetic, s, '\n', rest, e);
  }

  lemma HexEmptyFrom1(alphabetic: char -> bool, rest: string)
    ensures Run(alphabetic, LexState([], "0", Some(DecimalLiteral(false)), 1, 1, 0, 1, File, HexEmptySource), "x" + ("\n" + rest)) ==
      Err(LexError(EmptyHexLiteral, "0x", 1, 1, 0, 2, File, HexEmptySource))
  {
    var s := LexState([], "0", Some(DecimalLiteral(false)), 1, 1, 0, 1, File, HexEmptySource);
    var s' := LexState([], "0x", Some(HexLiteral), 1, 1, 0, 2, File, HexEmptySource);
    assert s.buf + ['x'] == s'.buf;
    NotTerminator('x');
    Step(alphabetic, s, 'x', "\n" + rest, s');
    HexEmptyFrom2(alphabetic, rest);
  }

  lemma HexEmptyFrom0(alphabetic: char -> bool, rest: string)
    ensures Run(alphabetic, LexState([], "", None, 1, 1, 0, 0, File, HexEmptySource), "0" + ("x" + ("\n" + rest))) ==
      Err(LexError(EmptyHexLiteral, "0x", 1, 1, 0, 2, File, HexEmptySource))
  {
    var s := LexState([], "", None, 1, 1, 0, 0, File, HexEmptySource);
    var s' := LexState([], "0", Some(DecimalLiteral(false)), 1, 1, 0, 1, File, HexEmptySource);
    assert s.buf + ['0'] == s'.buf;
    Step(alphabetic, s, '0', "x" + ("\n" + rest), s');
    HexEmptyFrom1(alphabetic, rest);
  }

  lemma HexEmptyPieces()
    ensures "0" + ("x" + ("\n" + "")) == HexEmptySource
  {
  }

  lemma HexEmptyRun(alphabetic: char -> bool)
    ensures Run(alphabetic, Start0(File, HexEmptySource), HexEmptySource) ==
      Err(LexError(EmptyHexLiteral, "0x", 1, 1, 0, 2, File, HexEmptySource))
  {
    HexEmptyFrom0(alphabetic, "");
    HexEmptyPieces();
    assert Start0(File, HexEmptySource) == LexState([], "", None, 1, 1, 0, 0, File, HexEmptySource);
  }

  /** `hex_empty`: unlike `bin_empty`, the offending newline is not reported. */
  lemma HexEmptyExample(alphabetic: char -> bool)
    ensures Lex(alphabetic, File, HexEmptySource) ==
      Err(LexError(EmptyHexLiteral, "0x", 1, 1, 0, 2, File, HexEmptySource))
  {
    HexEmptyRun(alphabetic);
    LexFrom(alphabetic, HexEmptySource, Err(LexError(EmptyHexLiteral, "0x", 1, 1, 0, 2, File, HexEmptySource)), Err(LexError(EmptyHexLiteral, "0x", 1, 1, 0, 2, File, HexEmptySource)));
  }

  // `unexpected_end_of_file`, src/lexer.rs:623-626. `UnexpectedEndOfFileFrom<k>` lexes the source from the state before its
  // k-th piece on; `UnexpectedEndOfFilePieces` puts the pieces together.

  const UnexpectedEndOfFileSource := "\"Hello wo"

  lemma UnexpectedEndOfFileFrom2(alphabetic: char -> bool, rest: string)
    ensures Run(alphabetic, LexState([], "\"Hell", Some(StringLiteral(false)), 1, 1, 0, 5, File, UnexpectedEndOfFileSource), "o wo" + rest) ==
      Run(alphabetic, LexState([], "\"Hello wo", Some(StringLiteral(false)), 1, 1, 0, 9, File, UnexpectedEndOfFileSource), rest)
  {
    var s := LexState([], "\"Hell", Some(StringLiteral(false)), 1, 1, 0, 5, File, UnexpectedEndOfFileSource);
    var s' := LexState([], "\"Hello wo", Some(StringLiteral(false)), 1, 1, 0, 9, File, UnexpectedEndOfFileSource);
    assert s.buf + "o wo" == s'.buf;
    AbsorbRun(alphabetic, NotQuoteOrNewline, s, "o wo", rest);
  }

  lemma UnexpectedEndOfFileFrom1(alphabetic: char -> bool, rest: string)
    ensures Run(alphabetic, LexState([], "\"", Some(StringLiteral(false)), 1, 1, 0, 1, File, UnexpectedEndOfFileSource), "Hell" + ("o wo" + rest)) ==
      Run(alphabetic, LexState([], "\"Hello wo", Some(StringLiteral(false)), 1, 1, 0, 9, File, UnexpectedEndOfFileSource), rest)
  {
    var s := LexState([], "\"", Some(StringLiteral(false)), 1, 1, 0, 1, File, UnexpectedEndOfFileSource);
    var s' := LexState([], "\"Hell", Some(StringLiteral(false)), 1, 1, 0, 5, File, UnexpectedEndOfFileSource);
    assert s.buf + "Hell" == s'.buf;
    AbsorbRun(alphabetic, NotQuoteOrNewline, s, "Hell", "o wo" + rest);
    UnexpectedEndOfFileFrom2(alphabetic, rest);
  }

  lemma UnexpectedEndOfFileFrom0(alphabetic: char -> bool, rest: string)
    ensures Run(alphabetic, LexState([], "", None, 1, 1, 0, 0, File, UnexpectedEndOfFileSource), "\"" + ("Hell" + ("o wo" + rest))) ==
      Run(alphabetic, LexState([], "\"Hello wo", Some(StringLiteral(false)), 1, 1, 0, 9, File, UnexpectedEndOfFileSource), rest)
  {
    var s := LexState([], "", None, 1, 1, 0, 0, File, UnexpectedEndOfFileSource);
    var s' := LexState([], "\"", Some(StringLiteral(false)), 1, 1, 0, 1, File, UnexpectedEndOfFileSource);
    assert s.buf + ['\"'] == s'.buf;
    Step(alphabetic, s, '\"', "Hell" + ("o wo" + rest), s');
    UnexpectedEndOfFileFrom1(alphabetic, rest);
  }

  lemma UnexpectedEndOfFilePieces()
    ensures "\"" + ("Hell" + ("o wo" + "")) == UnexpectedEndOfFileSource
  {
  }

  lemma UnexpectedEndOfFileRun(alphabetic: char -> bool)
    ensures Run(alphabetic, Start0(File, UnexpectedEndOfFileSource), UnexpectedEndOfFileSource) ==
      Ok(LexState([], "\"Hello wo", Some(StringLiteral(false)), 1, 1, 0, 9, File, UnexpectedEndOfFileSource))
  {
    UnexpectedEndOfFileFrom0(alphabetic, "");
    UnexpectedEndOfFilePieces();
    assert Run(alphabetic, LexState([], "\"Hello wo", Some(StringLiteral(false)), 1, 1, 0, 9, File, UnexpectedEndOfFileSource), "") == Ok(LexState([], "\"Hello wo", Some(StringLiteral(false)), 1, 1, 0, 9, File, UnexpectedEndOfFileSource));
    assert Start0(File, UnexpectedEndOfFileSource) == LexState([], "", None, 1, 1, 0, 0, File, UnexpectedEndOfFileSource);
  }

  lemma UnexpectedEndOfFileFinish()
    ensures Finish(LexState([], "\"Hello wo", Some(StringLiteral(false)), 1, 1, 0, 9, File, UnexpectedEndOfFileSource)) ==
      Err(LexError(UnexpectedEOFString, "\"Hello wo", 1, 1, 0, 9, File, UnexpectedEndOfFileSource))
  {
  }

  /** `unexpected_end_of_file` */
  lemma UnexpectedEndOfFileExample(alphabetic: char -> bool)
    ensures Lex(alphabetic, File, UnexpectedEndOfFileSource) ==
      Err(LexError(UnexpectedEOFString, "\"Hello wo", 1, 1, 0, 9, File, UnexpectedEndOfFileSource))
  {
    UnexpectedEndOfFileRun(alphabetic);
    UnexpectedEndOfFileFinish();
    LexFrom(alphabetic, UnexpectedEndOfFileSource, Ok(LexState([], "\"Hello wo", Some(StringLiteral(false)), 1, 1, 0, 9, File, UnexpectedEndOfFileSource)), Err(LexError(UnexpectedEOFString, "\"Hello wo", 1, 1, 0, 9, File, UnexpectedEndOfFileSource)));
  }

  // `trailing_newline`, src/lexer.rs:628-631. `TrailingNewlineFrom<k>` lexes the source from the state before its
  // k-th piece on; `TrailingNewlinePieces` puts the pieces together.

  const TrailingNewlineSource := "let x = 4"

  lemma TrailingNewlineFrom7(alphabetic: char -> bool, rest: string)
    ensures Run(alphabetic, LexState([Token(Identifier, "let", 1, 1, 0, 3), Token(Whitespace, " ", 1, 1, 3, 4), Token(Identifier, "x", 1, 1, 4, 5), Token(Whitespace, " ", 1, 1, 5, 6), Token(Equals, "=", 1, 1, 6, 7)], " ", Some(Whitespace), 1, 1, 7, 8, File, TrailingNewlineSource), "4" + rest) ==
      Run(alphabetic, LexState([Token(Identifier, "let", 1, 1, 0, 3), Token(Whitespace, " ", 1, 1, 3, 4), Token(Identifier, "x", 1, 1, 4, 5), Token(Whitespace, " ", 1, 1, 5, 6), Token(Equals, "=", 1, 1, 6, 7), Token(Whitespace, " ", 1, 1, 7, 8)], "4", Some(DecimalLiteral(false)), 1, 1, 8, 9, File, TrailingNewlineSource), rest)
  {
    var s := LexState([Token(Identifier, "let", 1, 1, 0, 3), Token(Whitespace, " ", 1, 1, 3, 4), Token(Identifier, "x", 1, 1, 4, 5), Token(Whitespace, " ", 1, 1, 5, 6), Token(Equals, "=", 1, 1, 6, 7)], " ", Some(Whitespace), 1, 1, 7, 8, File, TrailingNewlineSource);
    var s' := LexState([Token(Identifier, "let", 1, 1, 0, 3), Token(Whitespace, " ", 1, 1, 3, 4), Token(Identifier, "x", 1, 1, 4, 5), Token(Whitespace, " ", 1, 1, 5, 6), Token(Equals, "=", 1, 1, 6, 7), Token(Whitespace, " ", 1, 1, 7, 8)], "4", Some(DecimalLiteral(false)), 1, 1, 8, 9, File, TrailingNewlineSource);
    assert s.tokens + [Token(Whitespace, " ", 1, 1, 7, 8)] == s'.tokens;
    assert [] + ['4'] == s'.buf;
    NotTerminator('4');
    Step(alphabetic, s, '4', rest, s');
  }

  lemma TrailingNewlineFrom6(alphabetic: char -> bool, rest: string)
    ensures Run(alphabetic, LexState([Token(Identifier, "let", 1, 1, 0, 3), Token(Whitespace, " ", 1, 1, 3, 4), Token(Identifier, "x", 1, 1, 4, 5), Token(Whitespace, " ", 1, 1, 5, 6)], "=", Some(Equals), 1, 1, 6, 7, File, TrailingNewlineSource), " " + ("4" + rest)) ==
      Run(alphabetic, LexState([Token(Identifier, "let", 1, 1, 0, 3), Token(Whitespace, " ", 1, 1, 3, 4), Token(Identifier, "x", 1, 1, 4, 5), Token(Whitespace, " ", 1, 1, 5, 6), Token(Equals, "=", 1, 1, 6, 7), Token(Whitespace, " ", 1, 1, 7, 8)], "4", Some(DecimalLiteral(false)), 1, 1, 8, 9, File, TrailingNewlineSource), rest)
  {
    var s := LexState([Token(Identifier, "let", 1, 1, 0, 3), Token(Whitespace, " ", 1, 1, 3, 4), Token(Identifier, "x", 1, 1, 4, 5), Token(Whitespace, " ", 1, 1, 5, 6)], "=", Some(Equals), 1, 1, 6, 7, File, TrailingNewlineSource);
    var s' := LexState([Token(Identifier, "let", 1, 1, 0, 3), Token(Whitespace, " ", 1, 1, 3, 4), Token(Identifier, "x", 1, 1, 4, 5), Token(Whitespace, " ", 1, 1, 5, 6), Token(Equals, "=", 1, 1, 6, 7)], " ", Some(Whitespace), 1, 1, 7, 8, File, TrailingNewlineSource);
    assert s.tokens + [Token(Equals, "=", 1, 1, 6, 7)] == s'.tokens;
    assert [] + [' '] == s'.buf;
    Step(alphabetic, s, ' ', "4" + rest, s');
    TrailingNewlineFrom7(alphabetic, rest);
  }

  lemma TrailingNewlineFrom5(alphabetic: char -> bool, rest: string)
    ensures Run(alphabetic, LexState([Token(Identifier, "let", 1, 1, 0, 3), Token(Whitespace, " ", 1, 1, 3, 4), Token(Identifier, "x", 1, 1, 4, 5)], " ", Some(Whitespace), 1, 1, 5, 6, File, TrailingNewlineSource), "=" + (" " + ("4" + rest))) ==
      Run(alphabetic, LexState([Token(Identifier, "let", 1, 1, 0, 3), Token(Whitespace, " ", 1, 1, 3, 4), Token(Identifier, "x", 1, 1, 4, 5), Token(Whitespace, " ", 1, 1, 5, 6), Token(Equals, "=", 1, 1, 6, 7), Token(Whitespace, " ", 1, 1, 7, 8)], "4", Some(DecimalLiteral(false)), 1, 1, 8, 9, File, TrailingNewlineSource), rest)
  {
    var s := LexState([Token(Identifier, "let", 1, 1, 0, 3), Token(Whitespace, " ", 1, 1, 3, 4), Token(Identifier, "x", 1, 1, 4, 5)], " ", Some(Whitespace), 1, 1, 5, 6, File, TrailingNewlineSource);
    var s' := LexState([Token(Identifier, "let", 1, 1, 0, 3), Token(Whitespace, " ", 1, 1, 3, 4), Token(Identifier, "x", 1, 1, 4, 5), Token(Whitespace, " ", 1, 1, 5, 6)], "=", Some(Equals), 1, 1, 6, 7, File, TrailingNewlineSource);
    assert s.tokens + [Token(Whitespace, " ", 1, 1, 5, 6)] == s'.tokens;
    assert [] + ['='] == s'.buf;
    Step(alphabetic, s, '=', " " + ("4" + rest), s');
    TrailingNewlineFrom6(alphabetic, rest);
  }

  lemma TrailingNewlineFrom4(alphabetic: char -> bool, rest: string)
    requires AsciiAlphabetic(alphabetic)
    ensures Run(alphabetic, LexState([Token(Identifier, "let", 1, 1, 0, 3), Token(Whitespace, " ", 1, 1, 3, 4)], "x", Some(Identifier), 1, 1, 4, 5, File, TrailingNewlineSource), " " + ("=" + (" " + ("4" + rest)))) ==
      Run(alphabetic, LexState([Token(Identifier, "let", 1, 1, 0, 3), Token(Whitespace, " ", 1, 1, 3, 4), Token(Identifier, "x", 1, 1, 4, 5), Token(Whitespace, " ", 1, 1, 5, 6), Token(Equals, "=", 1, 1, 6, 7), Token(Whitespace, " ", 1, 1, 7, 8)], "4", Some(DecimalLiteral(false)), 1, 1, 8, 9, File, TrailingNewlineSource), rest)
  {
    var s := LexState([Token(Identifier, "let", 1, 1, 0, 3), Token(Whitespace, " ", 1, 1, 3, 4)], "x", Some(Identifier), 1, 1, 4, 5, File, TrailingNewlineSource);
    var s' := LexState([Token(Identifier, "let", 1, 1, 0, 3), Token(Whitespace, " ", 1, 1, 3, 4), Token(Identifier, "x", 1, 1, 4, 5)], " ", Some(Whitespace), 1, 1, 5, 6, File, TrailingNewlineSource);
    assert s.tokens + [Token(Identifier, "x", 1, 1, 4, 5)] == s'.tokens;
    assert [] + [' '] == s'.buf;
    Step(alphabetic, s, ' ', "=" + (" " + ("4" + rest)), s');
    TrailingNewlineFrom5(alphabetic, rest);
  }

  lemma TrailingNewlineFrom3(alphabetic: char -> bool, rest: string)
    requires AsciiAlphabetic(alphabetic)
    ensures Run(alphabetic, LexState([Token(Identifier, "let", 1, 1, 0, 3)], " ", Some(Whitespace), 1, 1, 3, 4, File, TrailingNewlineSource), "x" + (" " + ("=" + (" " + ("4" + rest))))) ==
      Run(alphabetic, LexState([Token(Identifier, "let", 1, 1, 0, 3), Token(Whitespace, " ", 1, 1, 3, 4), Token(Identifier, "x", 1, 1, 4, 5), Token(Whitespace, " ", 1, 1, 5, 6), Token(Equals, "=", 1, 1, 6, 7), Token(Whitespace, " ", 1, 1, 7, 8)], "4", Some(DecimalLiteral(false)), 1, 1, 8, 9, File, TrailingNewlineSource), rest)
  {
    var s := LexState([Token(Identifier, "let", 1, 1, 0, 3)], " ", Some(Whitespace), 1, 1, 3, 4, File, TrailingNewlineSource);
    var s' := LexState([Token(Identifier, "let", 1, 1, 0, 3), Token(Whitespace, " ", 1, 1, 3, 4)], "x", Some(Identifier), 1, 1, 4, 5, File, TrailingNewlineSource);
    assert s.tokens + [Token(Whitespace, " ", 1, 1, 3, 4)] == s'.tokens;
    assert [] + ['x'] == s'.buf;
    NotTerminator('x');
    Step(alphabetic, s, 'x', " " + ("=" + (" " + ("4" + rest))), s');
    TrailingNewlineFrom4(alphabetic, rest);
  }

  lemma TrailingNewlineFrom2(alphabetic: char -> bool, rest: string)
    requires AsciiAlphabetic(alphabetic)
    ensures Run(alphabetic, LexState([], "let", Some(Identifier), 1, 1, 0, 3, File, TrailingNewlineSource), " " + ("x" + (" " + ("=" + (" " + ("4" + rest)))))) ==
      Run(alphabetic, LexState([Token(Identifier, "let", 1, 1, 0, 3), Token(Whitespace, " ", 1, 1, 3, 4), Token(Identifier, "x", 1, 1, 4, 5), Token(Whitespace, " ", 1, 1, 5, 6), Token(Equals, "=", 1, 1, 6, 7), Token(Whitespace, " ", 1, 1, 7, 8)], "4", Some(DecimalLiteral(false)), 1, 1, 8, 9, File, TrailingNewlineSource), rest)
  {
    var s := LexState([], "let", Some(Identifier), 1, 1, 0, 3, File, TrailingNewlineSource);
    var s' := LexState([Token(Identifier, "let", 1, 1, 0, 3)], " ", Some(Whitespace), 1, 1, 3, 4, File, TrailingNewlineSource);
    assert s.tokens + [Token(Identifier, "let", 1, 1, 0, 3)] == s'.tokens;
    assert [] + [' '] == s'.buf;
    Step(alphabetic, s, ' ', "x" + (" " + ("=" + (" " + ("4" + rest)))), s');
    TrailingNewlineFrom3(alphabetic, rest);
  }

  lemma TrailingNewlineFrom1(alphabetic: char -> bool, rest: string)
    requires AsciiAlphabetic(alphabetic)
    ensures Run(alphabetic, LexState([], "l", Some(Identifier), 1, 1, 0, 1, File, TrailingNewlineSource), "et" + (" " + ("x" + (" " + ("=" + (" " + ("4" + rest))))))) ==
      Run(alphabetic, LexState([Token(Identifier, "let", 1, 1, 0, 3), Token(Whitespace, " ", 1, 1, 3, 4), Token(Identifier, "x", 1, 1, 4, 5), Token(Whitespace, " ", 1, 1, 5, 6), Token(Equals, "=", 1, 1, 6, 7), Token(Whitespace, " ", 1, 1, 7, 8)], "4", Some(DecimalLiteral(false)), 1, 1, 8, 9, File, TrailingNewlineSource), rest)
  {
    var s := LexState([], "l", Some(Identifier), 1, 1, 0, 1, File, TrailingNewlineSource);
    var s' := LexState([], "let", Some(Identifier), 1, 1, 0, 3, File, TrailingNewlineSource);
    LettersAbsorbed(alphabetic);
    assert s.buf + "et" == s'.buf;
    AbsorbRun(alphabetic, IsAsciiLetter, s, "et", " " + ("x" + (" " + ("=" + (" " + ("4" + rest))))));
    TrailingNewlineFrom2(alphabetic, rest);
  }

  lemma TrailingNewlineFrom0(alphabetic: char -> bool, rest: string)
    requires AsciiAlphabetic(alphabetic)
    ensures Run(alphabetic, LexState([], "", None, 1, 1, 0, 0, File, TrailingNewlineSource), "l" + ("et" + (" " + ("x" + (" " + ("=" + (" " + ("4" + rest)))))))) ==
      Run(alphabetic, LexState([Token(Identifier, "let", 1, 1, 0, 3), Token(Whitespace, " ", 1, 1, 3, 4), Token(Identifier, "x", 1, 1, 4, 5), Token(Whitespace, " ", 1, 1, 5, 6), Token(Equals, "=", 1, 1, 6, 7), Token(Whitespace, " ", 1, 1, 7, 8)], "4", Some(DecimalLiteral(false)), 1, 1, 8, 9, File, TrailingNewlineSource), rest)
  {
    var s := LexState([], "", None, 1, 1, 0, 0, File, TrailingNewlineSource);
    var s' := LexState([], "l", Some(Identifier), 1, 1, 0, 1, File, TrailingNewlineSource);
    assert s.buf + ['l'] == s'.buf;
    Step(alphabetic, s, 'l', "et" + (" " + ("x" + (" " + ("=" + (" " + ("4" + rest)))))), s');
    TrailingNewlineFrom1(alphabetic, rest);
  }

  lemma TrailingNewlinePieces()
    ensures "l" + ("et" + (" " + ("x" + (" " + ("=" + (" " + ("4" + ""))))))) == TrailingNewlineSource
  {
  }

  lemma TrailingNewlineRun(alphabetic: char -> bool)
    requires AsciiAlphabetic(alphabetic)
    ensures Run(alphabetic, Start0(File, TrailingNewlineSource), TrailingNewlineSource) ==
      Ok(LexState([Token(Identifier, "let", 1, 1, 0, 3), Token(Whitespace, " ", 1, 1, 3, 4), Token(Identifier, "x", 1, 1, 4, 5), Token(Whitespace, " ", 1, 1, 5, 6), Token(Equals, "=", 1, 1, 6, 7), Token(Whitespace, " ", 1, 1, 7, 8)], "4", Some(DecimalLiteral(false)), 1, 1, 8, 9, File, TrailingNewlineSource))
  {
    TrailingNewlineFrom0(alphabetic, "");
    TrailingNewlinePieces();
    assert Run(alphabetic, LexState([Token(Identifier, "let", 1, 1, 0, 3), Token(Whitespace, " ", 1, 1, 3, 4), Token(Identifier, "x", 1, 1, 4, 5), Token(Whitespace, " ", 1, 1, 5, 6), Token(Equals, "=", 1, 1, 6, 7), Token(Whitespace, " ", 1, 1, 7, 8)], "4", Some(DecimalLiteral(false)), 1, 1, 8, 9, File, TrailingNewlineSource), "") == Ok(LexState([Token(Identifier, "let", 1, 1, 0, 3), Token(Whitespace, " ", 1, 1, 3, 4), Token(Identifier, "x", 1, 1, 4, 5), Token(Whitespace, " ", 1, 1, 5, 6), Token(Equals, "=", 1, 1, 6, 7), Token(Whitespace, " ", 1, 1, 7, 8)], "4", Some(DecimalLiteral(false)), 1, 1, 8, 9, File, TrailingNewlineSource));
    assert Start0(File, TrailingNewlineSource) == LexState([], "", None, 1, 1, 0, 0, File, TrailingNewlineSource);
  }

  lemma TrailingNewlineFinish()
    ensures Finish(LexState([Token(Identifier, "let", 1, 1, 0, 3), Token(Whitespace, " ", 1, 1, 3, 4), Token(Identifier, "x", 1, 1, 4, 5), Token(Whitespace, " ", 1, 1, 5, 6), Token(Equals, "=", 1, 1, 6, 7), Token(Whitespace, " ", 1, 1, 7, 8)], "4", Some(DecimalLiteral(false)), 1, 1, 8, 9, File, TrailingNewlineSource)) ==
      Err(LexError(MissingTrailingNewLine, "4", 1, 1, 8, 9, File, TrailingNewlineSource))
  {
  }

  /** `trailing_newline`: a source that does not end idle is rejected. */
  lemma TrailingNewlineExample(alphabetic: char -> bool)
    requires AsciiAlphabetic(alphabetic)
    ensures Lex(alphabetic, File, TrailingNewlineSource) ==
      Err(LexError(MissingTrailingNewLine, "4", 1, 1, 8, 9, File, TrailingNewlineSource))
  {
    TrailingNewlineRun(alphabetic);
    TrailingNewlineFinish();
    LexFrom(alphabetic, TrailingNewlineSource, Ok(LexState([Token(Identifier, "let", 1, 1, 0, 3), Token(Whitespace, " ", 1, 1, 3, 4), Token(Identifier, "x", 1, 1, 4, 5), Token(Whitespace, " ", 1, 1, 5, 6), Token(Equals, "=", 1, 1, 6, 7), Token(Whitespace, " ", 1, 1, 7, 8)], "4", Some(DecimalLiteral(false)), 1, 1, 8, 9, File, TrailingNewlineSource)), Err(LexError(MissingTrailingNewLine, "4", 1, 1, 8, 9, File, TrailingNewlineSource)));
  }
}
