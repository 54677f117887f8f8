/** The invariant the lexer keeps between two characters: the partial lexeme belongs to
    the pending kind, every finished token is a lexeme of its kind, the spans are
    contiguous from line 1, index 0, and each span is exactly what its text covers. */
module LexerInvariants {
  import opened LexerTypes
  import opened LexerSpec

  predicate IsBit(c: char) { c == '0' || c == '1' }

  /** The text of each operator token. */
  function OperatorText(op: Operator): string {
    match op
    case Plus => "+"
    case Minus => "-"
    case Multiply => "*"
    case Divide => "/"
    case Equality => "=="
  }

  /** Digits with a decimal point exactly when `hasPoint`, and never more than one. */
  ghost predicate DecimalDigits(v: string, hasPoint: bool) {
    && v != []
    && IsDigit(v[0])
    && (forall i :: 0 <= i < |v| ==> IsDigit(v[i]) || v[i] == '.')
    && multiset(v)['.'] == (if hasPoint then 1 else 0)
  }

  /** `v` is a complete lexeme of kind `t`. */
  ghost predicate Lexeme(alphabetic: char -> bool, t: TokenType, v: string) {
    match t
    case BinLiteral => |v| >= 3 && v[0] == '0' && v[1] == 'b' && forall i :: 2 <= i < |v| ==> IsBit(v[i])
    case HexLiteral => |v| >= 3 && v[0] == '0' && v[1] == 'x' && forall i :: 2 <= i < |v| ==> IsLowerHexDigit(v[i])
    case DecimalLiteral(hasPoint) => DecimalDigits(v, hasPoint) && v[|v| - 1] != '.'
    case StringLiteral(escaped) =>
      && !escaped && |v| >= 2 && v[0] == '"' && v[|v| - 1] == '"'
      && forall i :: 0 < i < |v| - 1 ==> v[i] != '"'
    case Operator(op) => v == OperatorText(op)
    case LineComment => |v| >= 2 && v[0] == '/' && v[1] == '/' && forall i :: 0 <= i < |v| ==> v[i] != '\n'
    case LeftParen => v == "("
    case RightParen => v == ")"
    case LeftBrace => v == "{"
    case RightBrace => v == "}"
    case Equals => v == "="
    case Identifier => v != [] && IsAsciiLetter(v[0]) && forall i :: 0 < i < |v| ==> alphabetic(v[i])
    case Whitespace => v != [] && forall i :: 0 <= i < |v| ==> v[i] == ' '
    case Newline => v == "\n"
    case EndOfFile => v == []
  }

  /** `buf` is a lexeme still being assembled while `pending` is the proposed kind. */
  ghost predicate PartialLexeme(alphabetic: char -> bool, pending: Option<TokenType>, buf: string) {
    match pending
    case None => buf == []
    case Some(t) =>
      match t
      case BinLiteral => |buf| >= 2 && buf[0] == '0' && buf[1] == 'b' && forall i :: 2 <= i < |buf| ==> IsBit(buf[i])
      case HexLiteral => |buf| >= 2 && buf[0] == '0' && buf[1] == 'x' && forall i :: 2 <= i < |buf| ==> IsLowerHexDigit(buf[i])
      case DecimalLiteral(hasPoint) => DecimalDigits(buf, hasPoint)
      case StringLiteral(escaped) => !escaped && buf != [] && buf[0] == '"' && forall i :: 0 < i < |buf| ==> buf[i] != '"'
      case Operator(op) => op == Divide && buf == "/"
      case LineComment => |buf| >= 2 && buf[0] == '/' && buf[1] == '/' && forall i :: 0 <= i < |buf| ==> buf[i] != '\n'
      case Equals => buf == "="
      case Identifier => buf != [] && IsAsciiLetter(buf[0]) && forall i :: 0 < i < |buf| ==> alphabetic(buf[i])
      case Whitespace => buf != [] && forall i :: 0 <= i < |buf| ==> buf[i] == ' '
      case _ => false
  }

  /** Finished tokens: the first starts at line 1, index 0, each starts where the previous
      one ends, each ends where its own text leads, and none is the end-of-file token. */
  ghost predicate Chained(alphabetic: char -> bool, tokens: seq<Token>) {
    && (tokens != [] ==> StartOf(tokens[0]) == Origin)
    && (forall i :: 0 < i < |tokens| ==> StartOf(tokens[i]) == EndOf(tokens[i - 1]))
    && (forall i :: 0 <= i < |tokens| ==> EndOf(tokens[i]) == Advance(StartOf(tokens[i]), tokens[i].value))
    && (forall i :: 0 <= i < |tokens| ==> tokens[i].tokenType != EndOfFile)
    && (forall i :: 0 <= i < |tokens| ==> Lexeme(alphabetic, tokens[i].tokenType, tokens[i].value))
  }

  /** The position bookkeeping: the pending span starts where the text of the finished
      tokens leads and ends where the partial lexeme leads from there. */
  ghost predicate Tracked(alphabetic: char -> bool, s: LexState) {
    && Chained(alphabetic, s.tokens)
    && Advance(Origin, Flatten(s.tokens)) == Start(s)
    && (s.tokens != [] ==> EndOf(s.tokens[|s.tokens| - 1]) == Start(s))
    && End(s) == Advance(Start(s), s.buf)
  }

  ghost predicate WellFormed(alphabetic: char -> bool, s: LexState) {
    Resumable(s) && PartialLexeme(alphabetic, s.pending, s.buf) && Tracked(alphabetic, s)
  }

  /** Every lexeme except that of the end-of-file token is non-empty. */
  lemma LexemeNonEmpty(alphabetic: char -> bool, t: TokenType, v: string)
    requires Lexeme(alphabetic, t, v)
    ensures v == [] <==> t == EndOfFile
  {
  }

  /** A new lexer satisfies the invariant. */
  lemma InitialWellFormed(alphabetic: char -> bool, file: string, contents: string)
    ensures WellFormed(alphabetic, Initial(file).(contents := contents))
  {
  }

  /** `push_char` keeps the position bookkeeping, whatever the pending kind. */
  lemma PushCharTracked(alphabetic: char -> bool, s: LexState, c: char)
    requires Tracked(alphabetic, s)
    ensures Tracked(alphabetic, PushChar(s, c))
  {
    AdvanceAppend(Start(s), s.buf, [c]);
  }

  /** A token that starts where the chain ends and ends where its own text leads
      extends the chain. */
  lemma ChainedSnoc(alphabetic: char -> bool, tokens: seq<Token>, t: Token)
    requires Chained(alphabetic, tokens)
    requires StartOf(t) == if tokens == [] then Origin else EndOf(tokens[|tokens| - 1])
    requires EndOf(t) == Advance(StartOf(t), t.value)
    requires t.tokenType != EndOfFile && Lexeme(alphabetic, t.tokenType, t.value)
    ensures Chained(alphabetic, tokens + [t])
  {
    var ts := tokens + [t];
    forall i | 0 < i < |ts| ensures StartOf(ts[i]) == EndOf(ts[i - 1]) {
      if i == |tokens| {
        assert ts[i] == t && ts[i - 1] == tokens[|tokens| - 1];
      } else {
        assert ts[i] == tokens[i] && ts[i - 1] == tokens[i - 1];
      }
    }
  }

  /** `push_token` keeps the position bookkeeping when what it finishes is a lexeme of
      the pending kind. */
  lemma PushTokenTracked(alphabetic: char -> bool, s: LexState)
    requires Tracked(alphabetic, s)
    requires s.pending.Some? && s.pending.value != EndOfFile
    requires Lexeme(alphabetic, s.pending.value, s.buf)
    ensures WellFormed(alphabetic, PushToken(s))
  {
    var t := Token(s.pending.value, s.buf, s.startLine, s.endLine, s.startIndex, s.endIndex);
    assert s.tokens == [] ==> Start(s) == Origin;
    ChainedSnoc(alphabetic, s.tokens, t);
    FlattenSnoc(s.tokens, t);
    AdvanceAppend(Origin, Flatten(s.tokens), s.buf);
  }

  /** Starting a token keeps the invariant when the new lexeme is a partial lexeme of
      the new kind. */
  lemma BeginWellFormed(alphabetic: char -> bool, s: LexState, c: char, t: TokenType)
    requires Tracked(alphabetic, s)
    requires PartialLexeme(alphabetic, Some(t), s.buf + [c])
    ensures WellFormed(alphabetic, Begin(s, c, t))
  {
    PushCharTracked(alphabetic, s, c);
  }

  /** Adding `c` to a lexeme as the pending token's own character, or as the one that
      completes it. */
  lemma EmitWellFormed(alphabetic: char -> bool, s: LexState, c: char, t: TokenType)
    requires Tracked(alphabetic, s)
    requires t != EndOfFile && Lexeme(alphabetic, t, s.buf + [c])
    ensures WellFormed(alphabetic, Emit(s, c, t))
  {
    PushCharTracked(alphabetic, s, c);
    PushTokenTracked(alphabetic, Begin(s, c, t));
  }

  /** Adding `c` to the partial lexeme without changing the pending kind keeps the
      invariant when the result is still a partial lexeme of that kind. */
  lemma PushCharWellFormed(alphabetic: char -> bool, s: LexState, c: char)
    requires Tracked(alphabetic, s) && s.pending.Some?
    requires PartialLexeme(alphabetic, s.pending, s.buf + [c])
    ensures WellFormed(alphabetic, PushChar(s, c))
  {
    assert PushChar(s, c) == Begin(s, c, s.pending.value);
    BeginWellFormed(alphabetic, s, c, s.pending.value);
  }

  /** The characters the idle arm accepts start a partial lexeme of the kind it proposes,
      or form a whole lexeme of the kind it emits. */
  lemma ClassifyShape(alphabetic: char -> bool, c: char)
    ensures Classify(c).StartToken? ==> PartialLexeme(alphabetic, Some(Classify(c).kind), [c])
    ensures Classify(c).SingleToken? ==> Classify(c).kind != EndOfFile && Lexeme(alphabetic, Classify(c).kind, [c])
  {
    assert multiset([c])['.'] == if c == '.' then 1 else 0;
  }

  /** A digit keeps a decimal literal's point count; a point raises it from zero to one. */
  lemma DecimalExtend(v: string, c: char, hasPoint: bool, hasPoint': bool)
    requires DecimalDigits(v, hasPoint)
    requires IsDigit(c) || c == '.'
    requires hasPoint' == (hasPoint || c == '.') && !(hasPoint && c == '.')
    ensures DecimalDigits(v + [c], hasPoint')
  {
    assert multiset(v + [c]) == multiset(v) + multiset{c};
    forall i | 0 <= i < |v + [c]| ensures IsDigit((v + [c])[i]) || (v + [c])[i] == '.' {
      if i < |v| { assert (v + [c])[i] == v[i]; }
    }
  }

  /** A bit extends a binary literal. */
  lemma BinExtend(alphabetic: char -> bool, v: string, c: char)
    requires PartialLexeme(alphabetic, Some(BinLiteral), v) && IsBit(c)
    ensures PartialLexeme(alphabetic, Some(BinLiteral), v + [c])
  {
    forall i | 2 <= i < |v + [c]| ensures IsBit((v + [c])[i]) {
      if i < |v| { assert (v + [c])[i] == v[i]; }
    }
  }

  /** A lower-case hexadecimal digit extends a hexadecimal literal. */
  lemma HexExtend(alphabetic: char -> bool, v: string, c: char)
    requires PartialLexeme(alphabetic, Some(HexLiteral), v) && IsLowerHexDigit(c)
    ensures PartialLexeme(alphabetic, Some(HexLiteral), v + [c])
  {
    forall i | 2 <= i < |v + [c]| ensures IsLowerHexDigit((v + [c])[i]) {
      if i < |v| { assert (v + [c])[i] == v[i]; }
    }
  }
}
