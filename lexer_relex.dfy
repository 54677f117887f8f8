/** Lexing one lexeme on its own gives back that lexeme as one token of its kind: the
    lexeme predicates of `LexerInvariants` describe exactly what the lexer produces, not
    merely something it never contradicts. */
module LexerRelex {
  import opened LexerTypes
  import opened LexerSpec
  import opened LexerInvariants

  /** The characters that the arm of the pending kind `t` adds to the lexeme. */
  predicate Absorbs(alphabetic: char -> bool, t: TokenType, c: char) {
    match t
    case BinLiteral => IsBit(c)
    case HexLiteral => IsLowerHexDigit(c)
    case DecimalLiteral(_) => IsDigit(c)
    case StringLiteral(escaped) => escaped || c != '"'
    case LineComment => c != '\n'
    case Whitespace => c == ' '
    case Identifier => alphabetic(c)
    case _ => false
  }

  /** Every character of `w` is one the pending kind `t` adds to the lexeme. */
  predicate AllAbsorbed(alphabetic: char -> bool, t: TokenType, w: string) {
    forall i :: 0 <= i < |w| ==> Absorbs(alphabetic, t, w[i])
  }

  predicate AllDigits(a: string) {
    forall i :: 0 <= i < |a| ==> IsDigit(a[i])
  }

  /** One character read. */
  lemma Step(alphabetic: char -> bool, s: LexState, c: char, rest: string, s': LexState)
    requires Resumable(s) && Consume(alphabetic, s, c) == Ok(s')
    ensures Run(alphabetic, s, [c] + rest) == Run(alphabetic, s', rest)
  {
    assert ([c] + rest)[0] == c && ([c] + rest)[1..] == rest;
  }

  lemma ConsumeAbsorbs(alphabetic: char -> bool, s: LexState, c: char)
    requires Resumable(s) && s.pending.Some? && Absorbs(alphabetic, s.pending.value, c)
    ensures Consume(alphabetic, s, c) == Ok(PushChar(s, c))
  {
  }

  /** The state of a lexer for `file` and `src` that has read `x` from the start of the
      source, all of it the lexeme of the pending kind. */
  function Reading(file: string, src: string, x: string, pending: Option<TokenType>): LexState {
    var e := Advance(Origin, x);
    LexState([], x, pending, 1, e.line, 0, e.index, file, src)
  }

  /** The state after reading `v` from the start of the source as one finished token of
      kind `t`. */
  function Finished(file: string, src: string, v: string, t: TokenType): LexState {
    var e := Advance(Origin, v);
    LexState([Token(t, v, 1, e.line, 0, e.index)], [], None, e.line, e.line, e.index, e.index, file, src)
  }

  lemma ReadingGrows(file: string, src: string, x: string, c: char, pending: Option<TokenType>)
    ensures PushChar(Reading(file, src, x, pending), c) == Reading(file, src, x + [c], pending)
  {
    AdvanceAppend(Origin, x, [c]);
    assert [c][1..] == [];
  }

  lemma ReadingFinished(file: string, src: string, v: string, t: TokenType)
    ensures PushToken(Reading(file, src, v, Some(t))) == Finished(file, src, v, t)
  {
    assert [] + [Token(t, v, 1, Advance(Origin, v).line, 0, Advance(Origin, v).index)] ==
      [Token(t, v, 1, Advance(Origin, v).line, 0, Advance(Origin, v).index)];
  }

  /** The first character of the source starts a token that may grow. */
  lemma IdleStart(alphabetic: char -> bool, file: string, src: string, c: char, t: TokenType, rest: string)
    requires Classify(c) == StartToken(t)
    ensures Run(alphabetic, Start0(file, src), [c] + rest) == Run(alphabetic, Reading(file, src, [c], Some(t)), rest)
  {
    assert Start0(file, src) == Reading(file, src, [], None);
    ReadingGrows(file, src, [], c, None);
    assert [] + [c] == [c];
    Step(alphabetic, Start0(file, src), c, rest, Reading(file, src, [c], Some(t)));
  }

  /** The first character of the source is a one-character token. */
  lemma IdleSingle(alphabetic: char -> bool, file: string, src: string, c: char, t: TokenType, rest: string)
    requires Classify(c) == SingleToken(t)
    ensures Run(alphabetic, Start0(file, src), [c] + rest) == Run(alphabetic, Finished(file, src, [c], t), rest)
  {
    assert Start0(file, src) == Reading(file, src, [], None);
    ReadingGrows(file, src, [], c, None);
    assert [] + [c] == [c];
    ReadingFinished(file, src, [c], t);
    Step(alphabetic, Start0(file, src), c, rest, Finished(file, src, [c], t));
  }

  /** A character that starts a longer token of kind `t` out of the pending one. */
  lemma ReadingBegins(alphabetic: char -> bool, file: string, src: string, x: string, p: TokenType, c: char, t: TokenType, rest: string)
    requires Resumable(Reading(file, src, x, Some(p)))
    requires Consume(alphabetic, Reading(file, src, x, Some(p)), c) == Ok(Begin(Reading(file, src, x, Some(p)), c, t))
    ensures Run(alphabetic, Reading(file, src, x, Some(p)), [c] + rest) == Run(alphabetic, Reading(file, src, x + [c], Some(t)), rest)
  {
    ReadingGrows(file, src, x, c, Some(p));
    Step(alphabetic, Reading(file, src, x, Some(p)), c, rest, Reading(file, src, x + [c], Some(t)));
  }

  /** A character that completes the pending lexeme as a token of kind `t`. */
  lemma ReadingEmits(alphabetic: char -> bool, file: string, src: string, x: string, p: TokenType, c: char, t: TokenType, rest: string)
    requires Resumable(Reading(file, src, x, Some(p)))
    requires Consume(alphabetic, Reading(file, src, x, Some(p)), c) == Ok(Emit(Reading(file, src, x, Some(p)), c, t))
    ensures Run(alphabetic, Reading(file, src, x, Some(p)), [c] + rest) == Run(alphabetic, Finished(file, src, x + [c], t), rest)
  {
    ReadingGrows(file, src, x, c, Some(p));
    ReadingFinished(file, src, x + [c], t);
    Step(alphabetic, Reading(file, src, x, Some(p)), c, rest, Finished(file, src, x + [c], t));
  }

  /** A character that the pending kind absorbs only grows the lexeme. */
  lemma AbsorbOne(alphabetic: char -> bool, file: string, src: string, x: string, t: TokenType, c: char, rest: string)
    requires Resumable(Reading(file, src, x, Some(t))) && Absorbs(alphabetic, t, c)
    ensures Run(alphabetic, Reading(file, src, x, Some(t)), [c] + rest) == Run(alphabetic, Reading(file, src, x + [c], Some(t)), rest)
  {
    ConsumeAbsorbs(alphabetic, Reading(file, src, x, Some(t)), c);
    ReadingGrows(file, src, x, c, Some(t));
    Step(alphabetic, Reading(file, src, x, Some(t)), c, rest, Reading(file, src, x + [c], Some(t)));
  }

  /** A run of characters that the pending kind absorbs only grows the lexeme. */
  lemma {:induction false} AbsorbAll(alphabetic: char -> bool, file: string, src: string, x: string, t: TokenType, w: string, rest: string)
    requires Resumable(Reading(file, src, x, Some(t)))
    requires AllAbsorbed(alphabetic, t, w)
    ensures Run(alphabetic, Reading(file, src, x, Some(t)), w + rest) == Run(alphabetic, Reading(file, src, x + w, Some(t)), rest)
    decreases |w|
  {
    if w == [] {
      assert w + rest == rest && x + w == x;
    } else {
      assert Absorbs(alphabetic, t, w[0]) && AllAbsorbed(alphabetic, t, w[1..]);
      assert w + rest == [w[0]] + (w[1..] + rest);
      AbsorbOne(alphabetic, file, src, x, t, w[0], w[1..] + rest);
      AbsorbAll(alphabetic, file, src, x + [w[0]], t, w[1..], rest);
      assert x + [w[0]] + w[1..] == x + w;
    }
  }

  /** A newline that finishes the pending token is read again in the idle arm, as if the
      token had been finished before it. */
  lemma Close(alphabetic: char -> bool, file: string, src: string, v: string, t: TokenType)
    requires Resumable(Reading(file, src, v, Some(t)))
    requires Consume(alphabetic, Reading(file, src, v, Some(t)), '\n') == Redispatch(Reading(file, src, v, Some(t)), '\n')
    ensures Run(alphabetic, Reading(file, src, v, Some(t)), "\n") == Run(alphabetic, Finished(file, src, v, t), "\n")
  {
    ReadingFinished(file, src, v, t);
  }

  /** A complete lexeme of a kind that waits for the next character is finished by the
      newline. */
  lemma NewlineFinishes(alphabetic: char -> bool, file: string, src: string, v: string, t: TokenType)
    requires (t.Identifier? ==> !alphabetic('\n')) && Lexeme(alphabetic, t, v)
    requires t.BinLiteral? || t.HexLiteral? || t.DecimalLiteral? || t == Operator(Divide) || t.LineComment?
      || t.Equals? || t.Identifier? || t.Whitespace?
    ensures Run(alphabetic, Reading(file, src, v, Some(t)), "\n") == Run(alphabetic, Finished(file, src, v, t), "\n")
  {
    var s := Reading(file, src, v, Some(t));
    LexemeNonEmpty(alphabetic, t, v);
    assert IsLiteralTerminator('\n');
    assert t.BinLiteral? ==> IsBit(v[|v| - 1]);
    assert t.HexLiteral? ==> IsLowerHexDigit(v[|v| - 1]);
    assert Consume(alphabetic, s, '\n') == Redispatch(s, '\n');
    Close(alphabetic, file, src, v, t);
  }

  /** After a finished token, the final newline and the end of the input close the
      sequence. */
  lemma NewlineEnds(alphabetic: char -> bool, file: string, src: string, v: string, t: TokenType)
    ensures var e := Advance(Origin, v);
      (match Run(alphabetic, Finished(file, src, v, t), "\n") case Err(err) => Err(err) case Ok(s) => Finish(s)) ==
      Ok([Token(t, v, 1, e.line, 0, e.index), Token(Newline, "\n", e.line, e.line + 1, e.index, 0), Token(EndOfFile, "", e.line + 1, e.line + 1, 0, 0)])
  {
    var e := Advance(Origin, v);
    var f := Finished(file, src, v, t);
    var tok := Token(t, v, 1, e.line, 0, e.index);
    var nl := Token(Newline, "\n", e.line, e.line + 1, e.index, 0);
    var s' := LexState([tok, nl], [], None, e.line + 1, e.line + 1, 0, 0, file, src);
    assert [] + ['\n'] == "\n";
    assert [tok] + [nl] == [tok, nl];
    assert Consume(alphabetic, f, '\n') == Ok(s');
    assert Run(alphabetic, f, "\n") == Ok(s') by {
      assert "\n"[0] == '\n' && "\n"[1..] == [];
    }
    assert [tok, nl] + [Token(EndOfFile, "", e.line + 1, e.line + 1, 0, 0)] ==
      [tok, nl, Token(EndOfFile, "", e.line + 1, e.line + 1, 0, 0)];
  }

  /** A decimal literal without a point is all digits. */
  lemma PointFree(v: string)
    requires DecimalDigits(v, false)
    ensures AllDigits(v)
  {
    forall i | 0 <= i < |v| ensures IsDigit(v[i]) {
      assert v[i] in multiset(v);
    }
  }

  /** Two positions holding the same character make it occur at least twice. */
  lemma PairCount(v: string, i: nat, k: nat)
    requires i < |v| && k < |v| && i != k
    ensures v[i] == v[k] ==> multiset(v)[v[k]] >= 2
  {
    var lo := if i < k then i else k;
    var hi := if i < k then k else i;
    assert v == v[..hi] + v[hi..];
    assert v[lo] == v[..hi][lo] && v[lo] in multiset(v[..hi]);
    assert v[hi] == v[hi..][0] && v[hi] in multiset(v[hi..]);
    assert multiset(v) == multiset(v[..hi]) + multiset(v[hi..]);
  }

  /** A decimal literal with a point has exactly one, and digits everywhere else. */
  lemma PointAt(v: string) returns (k: nat)
    requires DecimalDigits(v, true)
    ensures k < |v| && v[k] == '.'
    ensures forall i :: 0 <= i < |v| && i != k ==> IsDigit(v[i])
  {
    assert '.' in multiset(v);
    k :| 0 <= k < |v| && v[k] == '.';
    forall i | 0 <= i < |v| && i != k ensures IsDigit(v[i]) {
      PairCount(v, i, k);
    }
  }

  /** `0b` and `0x` at the start of the source: a decimal literal that turns into a binary
      or hexadecimal one. */
  lemma RadixPrefix(alphabetic: char -> bool, file: string, src: string, c: char, t: TokenType, rest: string)
    requires (c == 'b' && t == BinLiteral) || (c == 'x' && t == HexLiteral)
    ensures Run(alphabetic, Start0(file, src), ['0', c] + rest) == Run(alphabetic, Reading(file, src, ['0', c], Some(t)), rest)
  {
    assert ['0', c] + rest == ['0'] + ([c] + rest);
    IdleStart(alphabetic, file, src, '0', DecimalLiteral(false), [c] + rest);
    ReadingGrows(file, src, "0", c, Some(DecimalLiteral(false)));
    ReadingBegins(alphabetic, file, src, "0", DecimalLiteral(false), c, t, rest);
    assert "0" + [c] == ['0', c];
  }

  /** A first character that starts a token, then characters its kind absorbs. */
  lemma StartAbsorb(alphabetic: char -> bool, file: string, src: string, c: char, t: TokenType, w: string, rest: string)
    requires Classify(c) == StartToken(t) && AllAbsorbed(alphabetic, t, w)
    ensures Run(alphabetic, Start0(file, src), [c] + w + rest) == Run(alphabetic, Reading(file, src, [c] + w, Some(t)), rest)
  {
    assert [c] + w + rest == [c] + (w + rest);
    IdleStart(alphabetic, file, src, c, t, w + rest);
    AbsorbAll(alphabetic, file, src, [c], t, w, rest);
  }

  lemma DigitsAbsorbed(alphabetic: char -> bool, a: string)
    requires a != [] && AllDigits(a)
    ensures Classify(a[0]) == StartToken(DecimalLiteral(false))
    ensures AllAbsorbed(alphabetic, DecimalLiteral(false), a[1..])
  {
  }

  /** A run of digits at the start of the source. */
  lemma DigitsPrefix(alphabetic: char -> bool, file: string, src: string, a: string, rest: string)
    requires a != [] && AllDigits(a)
    ensures Run(alphabetic, Start0(file, src), a + rest) == Run(alphabetic, Reading(file, src, a, Some(DecimalLiteral(false))), rest)
  {
    DigitsAbsorbed(alphabetic, a);
    StartAbsorb(alphabetic, file, src, a[0], DecimalLiteral(false), a[1..], rest);
    assert [a[0]] + a[1..] == a;
  }

  /** A run of digits and the decimal point at the start of the source. */
  lemma PointPrefix(alphabetic: char -> bool, file: string, src: string, a: string, rest: string)
    requires a != [] && AllDigits(a)
    ensures Run(alphabetic, Start0(file, src), a + ['.'] + rest) == Run(alphabetic, Reading(file, src, a + ['.'], Some(DecimalLiteral(true))), rest)
  {
    assert a + ['.'] + rest == a + (['.'] + rest);
    DigitsPrefix(alphabetic, file, src, a, ['.'] + rest);
    ReadingGrows(file, src, a, '.', Some(DecimalLiteral(false)));
    ReadingBegins(alphabetic, file, src, a, DecimalLiteral(false), '.', DecimalLiteral(true), rest);
  }

  lemma RelexRadix(alphabetic: char -> bool, file: string, v: string, t: TokenType)
    requires t == BinLiteral || t == HexLiteral
    requires Lexeme(alphabetic, t, v)
    ensures Run(alphabetic, Start0(file, v + "\n"), v + "\n") == Run(alphabetic, Finished(file, v + "\n", v, t), "\n")
  {
    var src := v + "\n";
    var w := v[2..];
    assert src == ['0', v[1]] + (w + "\n");
    RadixPrefix(alphabetic, file, src, v[1], t, w + "\n");
    AbsorbAll(alphabetic, file, src, ['0', v[1]], t, w, "\n");
    assert ['0', v[1]] + w == v;
    NewlineFinishes(alphabetic, file, src, v, t);
  }

  lemma RelexInteger(alphabetic: char -> bool, file: string, v: string)
    requires Lexeme(alphabetic, DecimalLiteral(false), v)
    ensures Run(alphabetic, Start0(file, v + "\n"), v + "\n") == Run(alphabetic, Finished(file, v + "\n", v, DecimalLiteral(false)), "\n")
  {
    PointFree(v);
    DigitsPrefix(alphabetic, file, v + "\n", v, "\n");
    NewlineFinishes(alphabetic, file, v + "\n", v, DecimalLiteral(false));
  }

  /** The two runs of digits around the point of a decimal literal. */
  lemma FractionParts(alphabetic: char -> bool, v: string) returns (a: string, b: string)
    requires Lexeme(alphabetic, DecimalLiteral(true), v)
    ensures v == a + ['.'] + b && a != [] && b != [] && AllDigits(a) && AllDigits(b)
  {
    var k := PointAt(v);
    a, b := v[..k], v[k + 1..];
    assert v == a + ['.'] + b;
    assert AllDigits(a) by {
      forall i | 0 <= i < |a| ensures IsDigit(a[i]) { assert a[i] == v[i]; }
    }
    assert AllDigits(b) by {
      forall i | 0 <= i < |b| ensures IsDigit(b[i]) { assert b[i] == v[k + 1 + i]; }
    }
  }

  /** Digits, the point and more digits at the start of the source. */
  lemma FractionPrefix(alphabetic: char -> bool, file: string, src: string, a: string, b: string, rest: string)
    requires a != [] && AllDigits(a) && AllDigits(b)
    ensures Run(alphabetic, Start0(file, src), a + ['.'] + b + rest) == Run(alphabetic, Reading(file, src, a + ['.'] + b, Some(DecimalLiteral(true))), rest)
  {
    assert a + ['.'] + b + rest == a + ['.'] + (b + rest);
    PointPrefix(alphabetic, file, src, a, b + rest);
    assert AllAbsorbed(alphabetic, DecimalLiteral(true), b);
    AbsorbAll(alphabetic, file, src, a + ['.'], DecimalLiteral(true), b, rest);
  }

  lemma RelexFraction(alphabetic: char -> bool, file: string, v: string)
    requires Lexeme(alphabetic, DecimalLiteral(true), v)
    ensures Run(alphabetic, Start0(file, v + "\n"), v + "\n") == Run(alphabetic, Finished(file, v + "\n", v, DecimalLiteral(true)), "\n")
  {
    var a, b := FractionParts(alphabetic, v);
    FractionPrefix(alphabetic, file, v + "\n", a, b, "\n");
    NewlineFinishes(alphabetic, file, v + "\n", v, DecimalLiteral(true));
  }

  lemma RelexString(alphabetic: char -> bool, file: string, v: string)
    requires Lexeme(alphabetic, StringLiteral(false), v)
    ensures Run(alphabetic, Start0(file, v + "\n"), v + "\n") == Run(alphabetic, Finished(file, v + "\n", v, StringLiteral(false)), "\n")
  {
    var src := v + "\n";
    var w := v[1..|v| - 1];
    assert src == ['"'] + (w + (['"'] + "\n"));
    IdleStart(alphabetic, file, src, '"', StringLiteral(false), w + (['"'] + "\n"));
    AbsorbAll(alphabetic, file, src, ['"'], StringLiteral(false), w, ['"'] + "\n");
    ReadingGrows(file, src, ['"'] + w, '"', Some(StringLiteral(false)));
    ReadingEmits(alphabetic, file, src, ['"'] + w, StringLiteral(false), '"', StringLiteral(false), "\n");
    assert ['"'] + w + ['"'] == v;
  }

  lemma RelexComment(alphabetic: char -> bool, file: string, v: string)
    requires Lexeme(alphabetic, LineComment, v)
    ensures Run(alphabetic, Start0(file, v + "\n"), v + "\n") == Run(alphabetic, Finished(file, v + "\n", v, LineComment), "\n")
  {
    var src := v + "\n";
    var w := v[2..];
    assert src == ['/'] + (['/'] + (w + "\n"));
    IdleStart(alphabetic, file, src, '/', Operator(Divide), ['/'] + (w + "\n"));
    ReadingGrows(file, src, "/", '/', Some(Operator(Divide)));
    ReadingBegins(alphabetic, file, src, "/", Operator(Divide), '/', LineComment, w + "\n");
    assert "/" + ['/'] == "//" && "//" + w == v;
    AbsorbAll(alphabetic, file, src, "//", LineComment, w, "\n");
    NewlineFinishes(alphabetic, file, src, v, LineComment);
  }

  /** Identifiers and runs of spaces: a first character that starts the token, then
      characters the kind absorbs. */
  lemma RelexRun(alphabetic: char -> bool, file: string, v: string, t: TokenType)
    requires t == Identifier || t == Whitespace
    requires !alphabetic('\n') && Lexeme(alphabetic, t, v)
    ensures Run(alphabetic, Start0(file, v + "\n"), v + "\n") == Run(alphabetic, Finished(file, v + "\n", v, t), "\n")
  {
    var src := v + "\n";
    assert Classify(v[0]) == StartToken(t);
    assert AllAbsorbed(alphabetic, t, v[1..]);
    StartAbsorb(alphabetic, file, src, v[0], t, v[1..], "\n");
    assert [v[0]] + v[1..] == v;
    NewlineFinishes(alphabetic, file, src, v, t);
  }

  /** A one-character token. */
  lemma RelexSingle(alphabetic: char -> bool, file: string, c: char, t: TokenType)
    requires Classify(c) == SingleToken(t)
    ensures Run(alphabetic, Start0(file, [c] + "\n"), [c] + "\n") == Run(alphabetic, Finished(file, [c] + "\n", [c], t), "\n")
  {
    IdleSingle(alphabetic, file, [c] + "\n", c, t, "\n");
  }

  /** `/` and `=` on their own: tokens that wait for one more character. */
  lemma RelexOpen(alphabetic: char -> bool, file: string, c: char, t: TokenType)
    requires (c == '/' && t == Operator(Divide)) || (c == '=' && t == Equals)
    ensures Run(alphabetic, Start0(file, [c] + "\n"), [c] + "\n") == Run(alphabetic, Finished(file, [c] + "\n", [c], t), "\n")
  {
    IdleStart(alphabetic, file, [c] + "\n", c, t, "\n");
    NewlineFinishes(alphabetic, file, [c] + "\n", [c], t);
  }

  lemma RelexEquality(alphabetic: char -> bool, file: string)
    ensures Run(alphabetic, Start0(file, "==\n"), "==\n") == Run(alphabetic, Finished(file, "==\n", "==", Operator(Equality)), "\n")
  {
    assert "==\n" == ['='] + (['='] + "\n");
    IdleStart(alphabetic, file, "==\n", '=', Equals, ['='] + "\n");
    ReadingGrows(file, "==\n", "=", '=', Some(Equals));
    ReadingEmits(alphabetic, file, "==\n", "=", Equals, '=', Operator(Equality), "\n");
    assert "=" + ['='] == "==";
  }

  lemma RelexOperator(alphabetic: char -> bool, file: string, op: Operator, v: string)
    requires Lexeme(alphabetic, Operator(op), v)
    ensures Run(alphabetic, Start0(file, v + "\n"), v + "\n") == Run(alphabetic, Finished(file, v + "\n", v, Operator(op)), "\n")
  {
    match op {
    case Plus => RelexSingle(alphabetic, file, '+', Operator(op));
    case Minus => RelexSingle(alphabetic, file, '-', Operator(op));
    case Multiply => RelexSingle(alphabetic, file, '*', Operator(op));
    case Divide => RelexOpen(alphabetic, file, '/', Operator(op));
    case Equality =>
      assert v + "\n" == "==\n";
      RelexEquality(alphabetic, file);
    }
  }

  lemma RelexPunctuation(alphabetic: char -> bool, file: string, t: TokenType, v: string)
    requires t.LeftParen? || t.RightParen? || t.LeftBrace? || t.RightBrace? || t.Equals? || t.Newline?
    requires Lexeme(alphabetic, t, v)
    ensures Run(alphabetic, Start0(file, v + "\n"), v + "\n") == Run(alphabetic, Finished(file, v + "\n", v, t), "\n")
  {
    match t {
    case LeftParen => RelexSingle(alphabetic, file, '(', t);
    case RightParen => RelexSingle(alphabetic, file, ')', t);
    case LeftBrace => RelexSingle(alphabetic, file, '{', t);
    case RightBrace => RelexSingle(alphabetic, file, '}', t);
    case Equals => RelexOpen(alphabetic, file, '=', t);
    case Newline => RelexSingle(alphabetic, file, '\n', t);
    }
  }

  /** Reading a lexeme of any kind but the end of file from the start of a source leaves
      it as one finished token. */
  lemma RelexToken(alphabetic: char -> bool, file: string, t: TokenType, v: string)
    requires !alphabetic('\n')
    requires t != EndOfFile && Lexeme(alphabetic, t, v)
    ensures Run(alphabetic, Start0(file, v + "\n"), v + "\n") == Run(alphabetic, Finished(file, v + "\n", v, t), "\n")
  {
    match t {
    case BinLiteral => RelexRadix(alphabetic, file, v, t);
    case HexLiteral => RelexRadix(alphabetic, file, v, t);
    case DecimalLiteral(hasPoint) =>
      if hasPoint { RelexFraction(alphabetic, file, v); } else { RelexInteger(alphabetic, file, v); }
    case StringLiteral(_) => RelexString(alphabetic, file, v);
    case Operator(op) => RelexOperator(alphabetic, file, op, v);
    case LineComment => RelexComment(alphabetic, file, v);
    case Identifier => RelexRun(alphabetic, file, v, t);
    case Whitespace => RelexRun(alphabetic, file, v, t);
    case _ => RelexPunctuation(alphabetic, file, t, v);
    }
  }

  /** Lexing a lexeme of any kind but the end of file, followed by the newline every
      source must end with, gives back that lexeme as one token of its kind over the span
      it covers, then the newline and the end-of-file token. (`is_alphabetic` is false of
      the newline.) */
  lemma RelexLexeme(alphabetic: char -> bool, file: string, t: TokenType, v: string)
    requires !alphabetic('\n')
    requires t != EndOfFile && Lexeme(alphabetic, t, v)
    ensures var e := Advance(Origin, v);
      Lex(alphabetic, file, v + "\n") ==
      Ok([Token(t, v, 1, e.line, 0, e.index), Token(Newline, "\n", e.line, e.line + 1, e.index, 0), Token(EndOfFile, "", e.line + 1, e.line + 1, 0, 0)])
  {
    RelexToken(alphabetic, file, t, v);
    NewlineEnds(alphabetic, file, v + "\n", v, t);
  }
}
