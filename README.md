# AnCode lexer in Dafny

A model of the lexer of AnCode (`src/lexer.rs`). It turns a source text into a sequence of tokens:

- binary, hexadecimal and decimal literals
- string literals and line comments
- the operators `+ - * /` and `==`, and a bare `=`
- parentheses, braces, identifiers, runs of spaces and newlines
- a closing zero-width end-of-file token

Lexing stops at the first of twelve kinds of error.

The model has two layers.

- **`LexerSpec`** gives each operation of the lexer as a function on an explicit state `LexState`. That state holds the fields of the `Lexer` struct, except `current_char`, which is passed along.
  - `Consume` is `consume_char`: one arm per pending token kind.
  - The source finishes a token and then calls `consume_char` again on the same character. That second call always lands in the idle arm, so it is modelled as `Redispatch`.
  - `Run` is the `for` loop of `lex`, `Finish` is its end-of-input check, and `Lex` is `Lexer::new(file).lex(source)`.
- **`LexerImpl.Lexer`** is the struct as a class whose methods update its fields in place.
  - `PushChar`, `PushToken`, `ConstructError`, `ConstructErrorWithChar` and `ConsumeChar` with its arms.
  - `Lex` is a `while` loop.
  - Each method is proved to do to the fields exactly what a `LexerSpec` function does to the state, so everything proved about the functions holds of the class.
    - The constructor gives `Initial`.
    - `ConsumeChar` follows `Consume`.
    - `EndOfInput` follows `Finish`.
    - `EndDecimal`, the tail of the decimal arm, follows `ConsumeDecimal`.
    - `Lex` follows `Run` and then `Finish`.
    - Every other method follows the function of the same name.

On top of the functions:

- **`LexerInvariants`** defines what a lexeme of each kind looks like. It also defines the invariant `WellFormed`, which holds between two characters:
  - the partial lexeme fits the pending kind;
  - finished tokens are lexemes of their kinds;
  - spans are contiguous from line 1, index 0, and each span is exactly what its text covers;
  - the pending kind is one `consume_char` can resume, so it does not panic.
- **`LexerProofs`** proves that every arm of `consume_char` keeps the invariant.
- **`LexerText`** proves that reading a character adds exactly that character to the text read so far and never drops or changes a finished token.
- **`LexerTheorems`** proves the main theorem, `LexOk`. A successful `lex` returns a tokenization of the source:
  - the token values laid end to end give back the source;
  - the spans are contiguous and start at (1, 0);
  - every value is a lexeme of its kind;
  - exactly one end-of-file token, empty and zero-width, comes last.

  It also proves that `lex` reads nothing after the first error.
- **`LexerErrors`** proves that every error `lex` returns points into the source. Its span runs from where one prefix of the source leads to where a longer one leads. Its lexeme is the text between them, or that text and the character that caused the error.
- **`LexerRelex`** proves the converse of the lexeme definitions. Lexing any single lexeme followed by a newline gives back exactly that lexeme, as one token of its kind.
- **`LexerExamples`** states the full result, spans and errors included, of each of the eighteen unit tests at the end of `src/lexer.rs`, and proves it.

`char::is_alphabetic`, which decides whether a character continues an identifier, is a parameter `alphabetic`. The test lemmas require only that it agrees with the ASCII letters on ASCII characters. That is true of Unicode's Alphabetic property.

## Model

| member | source | states |
|---|---|---|
| LexerImpl.Lexer.constructor | src/lexer.rs:178-193 | a new lexer has no tokens, no pending kind, no current character, no source text, and both ends of its span at line 1, index 0 |
| LexerImpl.Lexer.PushChar | src/lexer.rs:232-240 | the character joins the lexeme; a newline moves the span's end to the next line at index 0, any other character moves it one index right |
| LexerImpl.Lexer.PushToken | src/lexer.rs:222-230 | the pending kind, lexeme and span become a new last token; the lexeme empties, nothing is pending, and the next span starts where this one ended |
| LexerImpl.Lexer.ConstructError | src/lexer.rs:242-248 | the error carries its kind, the lexeme, the current span, the file name and the source text, and the lexer is unchanged |
| LexerImpl.Lexer.ConstructErrorWithChar | src/lexer.rs:250-253 | the current character, or `'\0'` when there is none, is appended to the lexeme but not to the span, and the error is built from that lexeme |
| LexerImpl.Lexer.ConsumeChar | src/lexer.rs:255-493 | reading a character records it in `current_char` and then fails with the same error as `LexerSpec.Consume` or leaves exactly the state that `Consume` gives; the source text is kept |
| LexerImpl.Lexer.ConsumeIdle | src/lexer.rs:402-490 | with nothing pending, the character starts a token, emits a one-character token, or is rejected, exactly as `LexerSpec.ConsumeIdle` |
| LexerImpl.Lexer.Redispatch | src/lexer.rs:267-270 | finishing the pending token and reading the same character again, which `current_char` holds afterwards, ends as `LexerSpec.Redispatch` |
| LexerImpl.Lexer.ConsumeBin | src/lexer.rs:258-275 | the binary-literal arm ends as `LexerSpec.ConsumeBin` |
| LexerImpl.Lexer.ConsumeHex | src/lexer.rs:276-292 | the hexadecimal-literal arm ends as `LexerSpec.ConsumeHex` |
| LexerImpl.Lexer.ConsumeDecimal | src/lexer.rs:293-330 | the decimal-literal arm, including the switch of a lone `0` to a binary or hexadecimal literal, ends as `LexerSpec.ConsumeDecimal` |
| LexerImpl.Lexer.EndDecimal | src/lexer.rs:317-329 | a character that is not a digit and not a point ends the decimal literal or is rejected, as `LexerSpec.ConsumeDecimal` |
| LexerImpl.Lexer.ConsumeString | src/lexer.rs:331-340 | the string arm leaves the state `LexerSpec.ConsumeString` gives: an unescaped quote closes the literal, anything else joins it |
| LexerImpl.Lexer.ConsumeComment | src/lexer.rs:341-349 | the comment arm ends as `LexerSpec.ConsumeComment` |
| LexerImpl.Lexer.ConsumeDivide | src/lexer.rs:350-366 | the arm of a pending `/` ends as `LexerSpec.ConsumeDivide` |
| LexerImpl.Lexer.ConsumeWhitespace | src/lexer.rs:367-375 | the whitespace arm ends as `LexerSpec.ConsumeWhitespace` |
| LexerImpl.Lexer.ConsumeIdentifier | src/lexer.rs:376-385 | the identifier arm ends as `LexerSpec.ConsumeIdentifier` |
| LexerImpl.Lexer.ConsumeEquals | src/lexer.rs:386-396 | the arm of a pending `=` ends as `LexerSpec.ConsumeEquals` |
| LexerImpl.Lexer.Lex | src/lexer.rs:195-220 | `lex` returns the first error of reading the source one character at a time, or else what the end-of-input check makes of the final state |
| LexerImpl.Lexer.EndOfInput | src/lexer.rs:206-219 | after the last character, the result is `LexerSpec.Finish` of the state |
| LexerImpl.NewAndLex | src/lexer.rs:178-220 | a new lexer for `file` lexes `source` to exactly `LexerSpec.Lex(alphabetic, file, source)` |
| LexerSpec.LiteralTerminatorsListed | src/lexer.rs:169-175 | `IsLiteralTerminator` holds exactly of the characters in the source's terminator string |
| LexerSpec.ConsumeIdle | src/lexer.rs:402-490 | the idle arm never leaves a state `consume_char` would panic in, and keeps the file name and source text or reports both in its error |
| LexerSpec.Redispatch | src/lexer.rs:267-270 | the one recursive call of `consume_char` lands in the idle arm and leaves a resumable state |
| LexerSpec.ConsumeBin | src/lexer.rs:258-275 | the binary-literal arm leaves a resumable state and keeps the file name and source text |
| LexerSpec.ConsumeHex | src/lexer.rs:276-292 | the hexadecimal-literal arm leaves a resumable state and keeps the file name and source text |
| LexerSpec.ConsumeDecimal | src/lexer.rs:293-330 | the decimal-literal arm leaves a resumable state and keeps the file name and source text |
| LexerSpec.ConsumeComment | src/lexer.rs:341-349 | the comment arm leaves a resumable state and keeps the file name and source text |
| LexerSpec.ConsumeDivide | src/lexer.rs:350-366 | the arm of a pending `/` leaves a resumable state; the panic for any other pending operator is never reached |
| LexerSpec.ConsumeWhitespace | src/lexer.rs:367-375 | the whitespace arm leaves a resumable state and keeps the file name and source text |
| LexerSpec.ConsumeIdentifier | src/lexer.rs:376-385 | the identifier arm leaves a resumable state and keeps the file name and source text |
| LexerSpec.ConsumeEquals | src/lexer.rs:386-396 | the arm of a pending `=` leaves a resumable state and keeps the file name and source text |
| LexerSpec.Consume | src/lexer.rs:397-401 | from a resumable state, `consume_char` succeeds only into a resumable state, so the "Unexpected partial token" panic is never reached |
| LexerSpec.Run | src/lexer.rs:197-204 | the loop of `lex` succeeds only into a resumable state, and every error it returns names the file and carries the source text |
| LexerSpec.Finish | src/lexer.rs:206-219 | at end of input a pending string is `UnexpectedEOFString`, any other pending token `MissingTrailingNewLine`, each over the current lexeme; with nothing pending the tokens gain exactly one `EndOfFile` token over the current, empty span |
| LexerSpec.Lex | src/lexer.rs:195-220 | every error of `lex` names the file and carries the source text |
| LexerTypes.AdvanceAppend | src/lexer.rs:232-240 | moving the span's end over `a + b` is moving it over `a` and then over `b` |
| LexerTypes.AdvanceLine | src/lexer.rs:234-236 | moving the span's end over a text adds one line per newline in it |
| LexerTypes.FlattenSnoc | src/lexer.rs:223-226 | appending a token appends its value to the concatenated token values |
| LexerInvariants.LexemeNonEmpty | src/lexer.rs:216-217 | the only kind whose lexeme is empty is the end-of-file token |
| LexerInvariants.InitialWellFormed | src/lexer.rs:178-196 | a new lexer that has recorded its source satisfies the invariant |
| LexerInvariants.PushCharTracked | src/lexer.rs:232-240 | `push_char` keeps the span's end where the lexeme leads from the span's start |
| LexerInvariants.ChainedSnoc | src/lexer.rs:222-230 | a token that starts where the chain ends and covers its own text extends a contiguous chain |
| LexerInvariants.PushTokenTracked | src/lexer.rs:222-230 | `push_token` on a complete lexeme keeps the invariant |
| LexerInvariants.ClassifyShape | src/lexer.rs:402-490 | each character the idle arm accepts starts a valid partial lexeme of the kind it proposes, or is a whole lexeme of the kind it emits |
| LexerInvariants.DecimalExtend | src/lexer.rs:306-316 | a digit keeps a decimal literal's single-point property; a point is accepted only when there was none |
| LexerInvariants.BinExtend | src/lexer.rs:259-261 | a bit extends a binary literal |
| LexerInvariants.HexExtend | src/lexer.rs:277-279 | a lower-case hexadecimal digit extends a hexadecimal literal |
| LexerProofs.IdleStep | src/lexer.rs:402-490 | the idle arm keeps the invariant |
| LexerProofs.RedispatchStep | src/lexer.rs:267-270 | finishing a complete lexeme and reading its terminator in the idle arm keeps the invariant |
| LexerProofs.BinOutcomes | src/lexer.rs:258-275 | the binary arm succeeds only by appending a bit, or by finishing a literal with at least one bit and reading the terminator again |
| LexerProofs.BinComplete | src/lexer.rs:262-271 | a binary literal that does not end in its `b` is a complete binary lexeme |
| LexerProofs.BinStep | src/lexer.rs:258-275 | the binary arm keeps the invariant |
| LexerProofs.HexOutcomes | src/lexer.rs:276-292 | the hexadecimal arm succeeds only by appending a lower-case digit, or by finishing a literal with at least one digit and reading the terminator again |
| LexerProofs.HexComplete | src/lexer.rs:282-288 | a hexadecimal literal that does not end in its `x` is a complete hexadecimal lexeme |
| LexerProofs.HexStep | src/lexer.rs:276-292 | the hexadecimal arm keeps the invariant |
| LexerProofs.DecimalOutcomes | src/lexer.rs:293-330 | the decimal arm succeeds only by starting `0b` or `0x`, appending a digit, adding the first point, or finishing a literal that does not end in a point |
| LexerProofs.DecimalComplete | src/lexer.rs:317-326 | a decimal literal that does not end in its point is a complete decimal lexeme |
| LexerProofs.DecimalStep | src/lexer.rs:293-330 | the decimal arm keeps the invariant |
| LexerProofs.StringStep | src/lexer.rs:331-340 | the string arm keeps the invariant; a closed string literal has quotes at both ends and none inside |
| LexerProofs.CommentStep | src/lexer.rs:341-349 | the comment arm keeps the invariant; a comment never contains its newline |
| LexerProofs.DivideStep | src/lexer.rs:350-366 | the arm of a pending `/` keeps the invariant |
| LexerProofs.WhitespaceStep | src/lexer.rs:367-375 | the whitespace arm keeps the invariant |
| LexerProofs.IdentifierStep | src/lexer.rs:376-385 | the identifier arm keeps the invariant |
| LexerProofs.EqualsStep | src/lexer.rs:386-396 | the arm of a pending `=` keeps the invariant; `==` becomes one equality-operator token |
| LexerProofs.ConsumeStep | src/lexer.rs:255-493 | `consume_char` keeps the invariant |
| LexerText.PushCharText | src/lexer.rs:232-240 | `push_char` adds exactly its character to the text read so far |
| LexerText.PushTokenText | src/lexer.rs:222-230 | `push_token` changes neither the text read so far nor the earlier tokens |
| LexerText.ConsumeExtends | src/lexer.rs:255-493 | `consume_char` adds exactly the character it reads to the text and keeps every finished token |
| LexerText.RunText | src/lexer.rs:197-204 | the loop of `lex` adds exactly the source to the text and keeps every finished token |
| LexerTheorems.RunWellFormed | src/lexer.rs:197-204 | the loop of `lex` keeps the invariant |
| LexerTheorems.RunAppend | src/lexer.rs:197-204 | reading `a + b` is reading `a` and then `b`, and an error in `a` ends the run |
| LexerTheorems.ChainedEof | src/lexer.rs:216-219 | a contiguous chain of lexemes closed by an empty, zero-width end-of-file token where the chain ends is a tokenization of its text |
| LexerTheorems.FinishTokenization | src/lexer.rs:206-219 | an idle, well-formed state at the end of the source finishes with a tokenization of the source |
| LexerTheorems.LexOk | src/lexer.rs:195-220 | a successful `lex` returns a tokenization: values concatenate to the source, spans are contiguous from (1, 0) and cover their values, every value is a lexeme of its kind, and one empty, zero-width end-of-file token comes last and only there |
| LexerTheorems.LexStopsAtFirstError | src/lexer.rs:197-204 | when lexing a prefix `a` of the source fails, `lex` returns that error whatever follows `a` |
| LexerErrors.LexErrLocated | src/lexer.rs:195-220 | every error of `lex` covers a piece `source[i..j]` of the source: its span runs from where `source[..i]` leads to where `source[..j]` leads, and its lexeme is that piece, or that piece and the character after it |
| LexerErrors.RunErrLocated | src/lexer.rs:197-204 | an error that stops the loop of `lex` covers a piece of the text read so far, in the same sense |
| LexerErrors.StepErrLocated | src/lexer.rs:255-493 | an error raised while reading a character covers a piece of the text read up to and including it |
| LexerErrors.ConsumeErrShape | src/lexer.rs:242-253 | an error of `consume_char` reports the pending span with the partial lexeme, with or without the character read; or, after `push_token`, the empty span where the finished token ended, with that character alone |
| LexerErrors.ShapeLocated | src/lexer.rs:242-253 | an error of that shape covers a piece of the text read up to and including the character |
| LexerErrors.FinishErrLocated | src/lexer.rs:206-215 | the error of a source that ends inside a token covers that token's lexeme, up to the end of the source |
| LexerErrors.SpanOfText | src/lexer.rs:222-240 | the pending span starts where the finished tokens' text leads, ends where all the text read leads, and covers the partial lexeme |
| LexerRelex.RelexLexeme | src/lexer.rs:195-220 | a lexeme of any kind but the end of file, followed by a newline, lexes to one token of that kind over the span it covers, then the newline token and the end-of-file token |
| LexerRelex.RelexToken | src/lexer.rs:255-493 | reading such a lexeme from the start of a source, followed by a newline, leaves it as one finished token |
| LexerRelex.NewlineEnds | src/lexer.rs:206-219 | after one finished token, a final newline and the end of input close the sequence with the newline and end-of-file tokens |
| LexerRelex.NewlineFinishes | src/lexer.rs:255-396 | a newline after a complete lexeme of a kind that waits for its next character finishes the token, as if it had been finished before the newline |
| LexerRelex.AbsorbAll | src/lexer.rs:255-396 | characters that the pending kind accepts only grow the lexeme and its span |
| LexerRelex.RelexRadix | src/lexer.rs:258-292 | a binary or hexadecimal literal lexes to one token |
| LexerRelex.RelexInteger | src/lexer.rs:293-330 | a decimal literal without a point lexes to one token |
| LexerRelex.RelexFraction | src/lexer.rs:293-330 | a decimal literal with one point, not at its end, lexes to one token |
| LexerRelex.RelexString | src/lexer.rs:331-340 | a closed string literal lexes to one token |
| LexerRelex.RelexComment | src/lexer.rs:341-366 | a line comment lexes to one token |
| LexerRelex.RelexRun | src/lexer.rs:367-385 | an identifier or a run of spaces lexes to one token |
| LexerRelex.RelexOperator | src/lexer.rs:350-366 | each operator lexes to one token, `/` waiting for its next character |
| LexerRelex.RelexEquality | src/lexer.rs:386-396 | `==` lexes to one equality-operator token |
| LexerRelex.RelexPunctuation | src/lexer.rs:402-490 | parentheses, braces, a bare `=` and a newline each lex to one token |
| LexerRelex.PointAt | src/lexer.rs:293-330 | a decimal literal with a point has exactly one, and digits everywhere else |
| LexerExamples.SingleIdentifierExample | src/lexer.rs:523-527 | `MyVariable\n` lexes to an identifier, a newline and the end-of-file token, with their spans |
| LexerExamples.WrongQuotesExample | src/lexer.rs:531-534 | `'Hello world'` fails with `WrongQuotes` on the first character |
| LexerExamples.WrongQuoteExample | src/lexer.rs:536-539 | `'Hello wo` fails with `WrongQuotes` on the first character |
| LexerExamples.WrongQuoteInsideExample | src/lexer.rs:541-549 | a single quote inside a string literal is part of it, and the source lexes to that literal and the end-of-file token |
| LexerExamples.MalformedBinaryExample | src/lexer.rs:551-554 | `0b0110534` fails with `MalformedBinLiteral` at the `5` |
| LexerExamples.HexRightExample | src/lexer.rs:556-565 | `0xdeadbeef\n` lexes to a hexadecimal literal, a newline and the end-of-file token |
| LexerExamples.HexWrongExample | src/lexer.rs:567-570 | `0x4D\n` fails with `WrongHexCase` at the `D` |
| LexerExamples.HexMixedExample | src/lexer.rs:572-575 | `0x4Dd\n` fails with `WrongHexCase` at the `D` |
| LexerExamples.BadHexExample | src/lexer.rs:577-580 | `0x4dk\n` fails with `MalformedHexLiteral` at the `k` |
| LexerExamples.DecWrongExample | src/lexer.rs:582-585 | `0.f\n` fails with `MalformedDecLiteral` at the `f` |
| LexerExamples.DecTrailingPointExample | src/lexer.rs:587-590 | `56.\n` fails with `TrailingDPoint` at the newline |
| LexerExamples.DecMultiplePointsExample | src/lexer.rs:592-595 | `7.3.7` fails with `MultipleDecimalPoints` at the second point |
| LexerExamples.MalformedDecimalExample | src/lexer.rs:597-600 | `56j54` fails with `MalformedDecLiteral` at the `j` |
| LexerExamples.DecimalAndOperatorsExample | src/lexer.rs:602-611 | `56+23\n` lexes to a decimal literal, a plus operator, a decimal literal, a newline and the end-of-file token |
| LexerExamples.BinEmptyExample | src/lexer.rs:613-616 | `0b\n` fails with `EmptyBinLiteral` at the newline |
| LexerExamples.HexEmptyExample | src/lexer.rs:618-621 | `0x\n` fails with `EmptyHexLiteral`, reported without the newline |
| LexerExamples.UnexpectedEndOfFileExample | src/lexer.rs:623-626 | `"Hello wo` fails with `UnexpectedEOFString` over the whole open literal |
| LexerExamples.TrailingNewlineExample | src/lexer.rs:628-631 | `let x = 4` fails with `MissingTrailingNewLine` over the pending `4`, after six finished tokens |

## Left out

- `src/main.rs` is not part of this model. It is the command-line driver: it reads the file, calls the lexer and prints the result.
- The `Display` implementations of `Token`, `LexError`, `LexErrorType` and `TokenType` are left out. They only render text.
- `char::is_alphabetic` (src/lexer.rs:377) is the parameter `alphabetic`, because Unicode's Alphabetic property is data outside the source. The test lemmas require only that it agrees with the ASCII letters on ASCII characters.
- Line and index counters are unbounded naturals. The source's `usize` cannot overflow on any text that fits in memory.
- The panics at src/lexer.rs:224, 247, 263, 283, 318, 362-364 and 397-401 are preconditions of the operations that contain them: `Resumable`, a pending kind for `push_token`, and a recorded source text for `construct_error`. `Consume`, `Run` and the class's `Lex` are proved never to break those preconditions. So none of these panics can happen from `lex`.
- `lex` takes the lexer by value, and `push_token` moves the lexeme out with `std::mem::take`. Ownership is not modelled. The class is simply not used after `Lex`.
- `Operator::Equals` is named `Equality` here, because a Dafny constructor name must not clash with `TokenType.Equals`.
- The `StringLiteral(escaped)` flag is never set to `true` by the source. It is carried along, and only the unescaped case is reachable.
- The eight recursive calls `self.consume_char(current_char)` (src/lexer.rs:269, 287, 324, 344, 359, 373, 382 and 394) all follow `push_token`, so each lands in the idle arm. Each is modelled as `Redispatch`, which calls `ConsumeIdle` in the functions and `ConsumeChar` again in the class. In the class, the decreasing measure of the methods proves that the second call is the last.
- LexerImpl.Lexer.ConsumeChar: on an error, the fields left behind are not stated, only the error. `lex` returns that error at once and drops the lexer.
- LexerImpl.Lexer.Lex: on an error, the fields left behind are not stated, for the same reason.
- The unit tests' helpers `lex_to_tokens`, `lex_to_err` and `lex` (src/lexer.rs:500-521) are not modelled. Each test lemma states the whole result of `Lexer::new("my_file").lex(source)`, which implies what the test asserts.
