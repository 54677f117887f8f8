/** What `lex` promises about a whole source text. */
module LexerTheorems {
  import opened LexerTypes
  import opened LexerSpec
  import opened LexerInvariants
  import opened LexerProofs
  import opened LexerText

  /** The loop of `lex` keeps the invariant. */
  lemma {:induction false} RunWellFormed(alphabetic: char -> bool, s: LexState, input: string)
    requires WellFormed(alphabetic, s)
    ensures Run(alphabetic, s, input).Ok? ==> WellFormed(alphabetic, Run(alphabetic, s, input).value)
    decreases |input|
  {
    if input != [] {
      ConsumeStep(alphabetic, s, input[0]);
      match Consume(alphabetic, s, input[0])
      case Err(_) =>
      case Ok(s') => RunWellFormed(alphabetic, s', input[1..]);
    }
  }

  /** Reading `a` and then `b` is reading `a + b`; in particular, once an error occurs
      the rest of the input is never read. */
  lemma {:induction false} RunAppend(alphabetic: char -> bool, s: LexState, a: string, b: string)
    requires Resumable(s)
    ensures Run(alphabetic, s, a + b) ==
      match Run(alphabetic, s, a)
      case Err(e) => Err(e)
      case Ok(s') => Run(alphabetic, s', b)
    decreases |a|
  {
    if a == [] {
      assert a + b == b;
    } else {
      assert (a + b)[0] == a[0];
      assert (a + b)[1..] == a[1..] + b;
      match Consume(alphabetic, s, a[0])
      case Err(_) =>
      case Ok(s') => RunAppend(alphabetic, s', a[1..], b);
    }
  }

  /** What a successful `lex` returns for `source`: tokens whose values, laid end to end,
      give back the source; contiguous spans from line 1, index 0, each exactly covering
      its value; every value a lexeme of its kind; and the end-of-file token last and
      only there, empty and zero-width at the position the whole source leads to. */
  ghost predicate Tokenization(alphabetic: char -> bool, tokens: seq<Token>, source: string) {
    && |tokens| >= 1
    && Flatten(tokens) == source
    && StartOf(tokens[0]) == Origin
    && (forall i :: 0 < i < |tokens| ==> StartOf(tokens[i]) == EndOf(tokens[i - 1]))
    && (forall i :: 0 <= i < |tokens| ==> EndOf(tokens[i]) == Advance(StartOf(tokens[i]), tokens[i].value))
    && (forall i :: 0 <= i < |tokens| ==> (tokens[i].tokenType == EndOfFile <==> i == |tokens| - 1))
    && (forall i :: 0 <= i < |tokens| ==> Lexeme(alphabetic, tokens[i].tokenType, tokens[i].value))
    && tokens[|tokens| - 1].value == []
    && StartOf(tokens[|tokens| - 1]) == EndOf(tokens[|tokens| - 1]) == Advance(Origin, source)
  }

  /** The main theorem: whenever `lex` succeeds, its tokens are a tokenization of the
      source. */
  lemma LexOk(alphabetic: char -> bool, file: string, source: string)
    ensures Lex(alphabetic, file, source).Ok? ==> Tokenization(alphabetic, Lex(alphabetic, file, source).value, source)
  {
    var s0 := Start0(file, source);
    InitialWellFormed(alphabetic, file, source);
    RunWellFormed(alphabetic, s0, source);
    RunText(alphabetic, s0, source);
    var r := Run(alphabetic, s0, source);
    if r.Ok? && r.value.pending.None? {
      FinishTokenization(alphabetic, r.value, source);
    }
  }

  /** A chain of finished tokens followed by an empty, zero-width end-of-file token where
      the chain ends is a tokenization of the chain's text. */
  lemma ChainedEof(alphabetic: char -> bool, tokens: seq<Token>, eof: Token, source: string)
    requires Chained(alphabetic, tokens) && Flatten(tokens) == source
    requires eof.tokenType == EndOfFile && eof.value == []
    requires StartOf(eof) == EndOf(eof) == Advance(Origin, source)
    requires tokens != [] ==> EndOf(tokens[|tokens| - 1]) == StartOf(eof)
    ensures Tokenization(alphabetic, tokens + [eof], source)
  {
    var ts := tokens + [eof];
    FlattenSnoc(tokens, eof);
    assert Flatten(tokens) + eof.value == source;
    forall i | 0 < i < |ts| ensures StartOf(ts[i]) == EndOf(ts[i - 1]) {
      if i < |tokens| {
        assert ts[i] == tokens[i] && ts[i - 1] == tokens[i - 1];
      }
    }
    forall i | 0 <= i < |ts|
      ensures EndOf(ts[i]) == Advance(StartOf(ts[i]), ts[i].value)
      ensures ts[i].tokenType == EndOfFile <==> i == |ts| - 1
      ensures Lexeme(alphabetic, ts[i].tokenType, ts[i].value)
    {
      if i < |tokens| {
        assert ts[i] == tokens[i];
      }
    }
  }

  lemma FinishTokenization(alphabetic: char -> bool, s: LexState, source: string)
    requires WellFormed(alphabetic, s) && s.pending.None? && Text(s) == source
    ensures Finish(s).Ok? && Tokenization(alphabetic, Finish(s).value, source)
  {
    var eof := Token(EndOfFile, s.buf, s.startLine, s.endLine, s.startIndex, s.endIndex);
    assert Finish(s) == Ok(s.tokens + [eof]);
    assert s.buf == [] && Flatten(s.tokens) == source;
    ChainedEof(alphabetic, s.tokens, eof, source);
  }

  /** Once an error occurs, what follows it in the source is never read: the error is the
      one reported for the prefix read so far. */
  lemma LexStopsAtFirstError(alphabetic: char -> bool, file: string, a: string, b: string)
    ensures Run(alphabetic, Start0(file, a + b), a).Err? ==>
      Lex(alphabetic, file, a + b) == Err(Run(alphabetic, Start0(file, a + b), a).error)
  {
    RunAppend(alphabetic, Start0(file, a + b), a, b);
  }
}
