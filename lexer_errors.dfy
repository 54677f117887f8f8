/** Where `lex` reports an error: every error it returns points into the source, with a
    span that covers a piece of it and the lexeme that was being read there. */
module LexerErrors {
  import opened LexerTypes
  import opened LexerSpec
  import opened LexerInvariants
  import opened LexerProofs
  import opened LexerText
  import opened LexerTheorems

  /** `e` covers `source[i..j]`: its span starts where `source[..i]` leads and ends where
      `source[..j]` leads, and its lexeme is that piece of the source, or that piece and
      the character after it, the one that was read when the error was raised. */
  ghost predicate LocatedAt(e: LexError, source: string, i: nat, j: nat)
    requires i <= j <= |source|
  {
    && Pos(e.startLine, e.startIndex) == Advance(Origin, source[..i])
    && Pos(e.endLine, e.endIndex) == Advance(Origin, source[..j])
    && (e.partialToken == source[i..j] || (j < |source| && e.partialToken == source[i..j + 1]))
  }

  ghost predicate Located(e: LexError, source: string) {
    exists i: nat, j: nat :: i <= j <= |source| && LocatedAt(e, source, i, j)
  }

  /** The pending span in terms of the text read so far: it starts where the finished
      tokens' text leads, ends where the whole text leads, and covers the partial lexeme. */
  lemma SpanOfText(alphabetic: char -> bool, s: LexState)
    requires Tracked(alphabetic, s)
    ensures |Flatten(s.tokens)| <= |Text(s)|
    ensures Start(s) == Advance(Origin, Text(s)[..|Flatten(s.tokens)|])
    ensures End(s) == Advance(Origin, Text(s))
    ensures Text(s)[|Flatten(s.tokens)|..] == s.buf
  {
    AdvanceAppend(Origin, Flatten(s.tokens), s.buf);
    assert Text(s)[..|Flatten(s.tokens)|] == Flatten(s.tokens);
  }

  /** The errors raised while reading `c`: the pending span with the partial lexeme, with
      or without `c`; or, when the pending token was finished first, the empty span where
      it ended, with `c` alone. */
  ghost predicate ErrShape(s: LexState, c: char, e: LexError) {
    || (&& Pos(e.startLine, e.startIndex) == Start(s) && Pos(e.endLine, e.endIndex) == End(s)
        && (e.partialToken == s.buf || e.partialToken == s.buf + [c]))
    || (&& Pos(e.startLine, e.startIndex) == End(s) && Pos(e.endLine, e.endIndex) == End(s)
        && e.partialToken == [c])
  }

  lemma ConsumeErrShape(alphabetic: char -> bool, s: LexState, c: char)
    requires Resumable(s)
    ensures Consume(alphabetic, s, c).Err? ==> ErrShape(s, c, Consume(alphabetic, s, c).error)
  {
  }

  /** An error of that shape covers a piece of the text read up to and including `c`. */
  lemma ShapeLocated(alphabetic: char -> bool, s: LexState, c: char, rest: string, e: LexError)
    requires Tracked(alphabetic, s) && ErrShape(s, c, e)
    ensures Located(e, Text(s) + [c] + rest)
  {
    var source := Text(s) + [c] + rest;
    SpanOfText(alphabetic, s);
    var k, n := |Flatten(s.tokens)|, |Text(s)|;
    assert source[..k] == Text(s)[..k] && source[..n] == Text(s);
    assert source[k..n] == s.buf && source[k..n + 1] == s.buf + [c];
    assert source[n..n] == [] && source[n..n + 1] == [c];
    if Pos(e.startLine, e.startIndex) == Start(s) && (e.partialToken == s.buf || e.partialToken == s.buf + [c]) {
      assert LocatedAt(e, source, k, n);
    } else {
      assert LocatedAt(e, source, n, n);
    }
  }

  /** An error raised while reading the first character of `input` after `Text(s)` covers
      a piece of the text read up to and including that character. */
  lemma StepErrLocated(alphabetic: char -> bool, s: LexState, input: string)
    requires Resumable(s) && Tracked(alphabetic, s) && input != []
    ensures Consume(alphabetic, s, input[0]).Err? ==> Located(Consume(alphabetic, s, input[0]).error, Text(s) + input)
  {
    ConsumeErrShape(alphabetic, s, input[0]);
    assert Text(s) + input == Text(s) + [input[0]] + input[1..];
    if Consume(alphabetic, s, input[0]).Err? {
      ShapeLocated(alphabetic, s, input[0], input[1..], Consume(alphabetic, s, input[0]).error);
    }
  }

  lemma ExtendsText(s: LexState, s': LexState, input: string)
    requires input != [] && Extends(s, s', input[0])
    ensures Text(s') + input[1..] == Text(s) + input
  {
    assert input == [input[0]] + input[1..];
  }

  /** An error raised while the loop of `lex` reads `input` after `Text(s)` covers a piece
      of the text read up to that point. */
  lemma {:induction false} RunErrLocated(alphabetic: char -> bool, s: LexState, input: string)
    requires WellFormed(alphabetic, s)
    ensures Run(alphabetic, s, input).Err? ==> Located(Run(alphabetic, s, input).error, Text(s) + input)
    decreases |input|
  {
    if input != [] {
      StepErrLocated(alphabetic, s, input);
      match Consume(alphabetic, s, input[0])
      case Err(_) =>
      case Ok(s') =>
        ConsumeStep(alphabetic, s, input[0]);
        ConsumeExtends(alphabetic, s, input[0]);
        ExtendsText(s, s', input);
        RunErrLocated(alphabetic, s', input[1..]);
    }
  }

  /** The error of a source that ends inside a token covers that token's lexeme, up to the
      end of the source. */
  lemma FinishErrLocated(alphabetic: char -> bool, s: LexState, source: string)
    requires Tracked(alphabetic, s) && Text(s) == source
    ensures Finish(s).Err? ==> Located(Finish(s).error, source)
  {
    if s.pending.Some? {
      SpanOfText(alphabetic, s);
      assert source[..|source|] == source;
      assert LocatedAt(Finish(s).error, source, |Flatten(s.tokens)|, |source|);
    }
  }

  /** Every error `lex` returns points into the source: its span runs from where one
      prefix of the source leads to where a longer one leads, and its lexeme is the text
      between them, or that text and the character after it. */
  lemma LexErrLocated(alphabetic: char -> bool, file: string, source: string)
    ensures Lex(alphabetic, file, source).Err? ==> Located(Lex(alphabetic, file, source).error, source)
  {
    var s0 := Start0(file, source);
    InitialWellFormed(alphabetic, file, source);
    assert Text(s0) + source == source;
    RunErrLocated(alphabetic, s0, source);
    RunWellFormed(alphabetic, s0, source);
    RunText(alphabetic, s0, source);
    if Run(alphabetic, s0, source).Ok? {
      FinishErrLocated(alphabetic, Run(alphabetic, s0, source).value, source);
    }
  }
}
