/**
 * The tokenizer of one line (`LineLexer` in src/lexer/line_lexer.rs): a
 * character-class state machine driving a scan cursor, with a sub-loop for
 * string literals.
 */
module LineLexing {
  import opened Wrappers
  import opened Cursor
  import opened PubTypes

  // ---------------------------------------------------------------------
  // Character classes

  /** Rust's `char::is_whitespace`: ASCII space and tab..carriage return, and the other Unicode White_Space characters. */
  predicate IsWhitespace(ch: char) {
    || ch == ' ' || ('\t' <= ch <= '\r')
    || ch == '\U{85}' || ch == '\U{A0}' || ch == '\U{1680}'
    || ('\U{2000}' <= ch <= '\U{200A}')
    || ch == '\U{2028}' || ch == '\U{2029}' || ch == '\U{202F}' || ch == '\U{205F}' || ch == '\U{3000}'
  }

  predicate IsAlpha(ch: char) {
    ('a' <= ch <= 'z') || ('A' <= ch <= 'Z')
  }

  predicate IsIdentInitial(ch: char) {
    IsAlpha(ch) || ch == '_'
  }

  predicate IsDigit(ch: char) {
    '0' <= ch <= '9'
  }

  predicate IsIdentChar(ch: char) {
    IsIdentInitial(ch) || IsDigit(ch)
  }

  /** One of the characters of `"+-=()"`. */
  predicate IsPunct(ch: char) {
    ch == '+' || ch == '-' || ch == '=' || ch == '(' || ch == ')'
  }

  predicate IsQuote(ch: char) {
    ch == '"' || ch == '\''
  }

  /** The characters a string segment runs over: anything but a backslash and the opening quote. */
  function InString(quote: char): char -> bool {
    c => c != '\\' && c != quote
  }

  // ---------------------------------------------------------------------
  // The pure step function that `Next` is proved against

  /** What the spelling of a token of each kind looks like. */
  predicate WellSpelled(t: Token) {
    var s := t.spelling;
    match t.kind
    case Ident => |s| >= 2 && IsIdentInitial(s[0]) && forall k :: 0 <= k < |s| ==> IsIdentChar(s[k])
    case LitInt => |s| >= 2 && forall k :: 0 <= k < |s| ==> IsDigit(s[k])
    case LitString => |s| >= 3 && IsQuote(s[0]) && s[|s| - 1] == s[0]
    case Punct => |s| == 1 && IsPunct(s[0])
  }

  /** The token `done` builds from a cursor: the consumed leader and spelling, on line `n`. */
  function MakeToken(kind: TokenKind, n: nat, lx: Lexing): (t: Token)
    requires Cursor.Valid(lx)
    ensures t.kind == kind && t.lineNum == n
    ensures t.leader + t.spelling == lx.line[..lx.end] && |t.leader| == lx.start
  {
    var m := Consume(lx).0;
    Token(kind, n, m.leader, m.spelling)
  }

  /** The whitespace skip at the start of `next`: past the run of whitespace, dropping it, or unchanged when there is none. */
  function SkipWhitespace(c: Lexing): (r: Lexing)
    requires Cursor.Valid(c)
    ensures Cursor.Valid(r) && r.line == c.line
    ensures r.end == RunEnd(c.line, c.end, IsWhitespace)
    ensures r.end == c.end ==> r == c
    ensures r.end != c.end ==> r.start == r.end
  {
    match TakeWhile(c, IsWhitespace)
    case Some(skipped) => Discard(skipped)
    case None => c
  }

  /** The end of the segment of ordinary string characters that starts at `i`. */
  function SegmentEnd(line: string, i: nat, quote: char): (j: nat)
    requires i <= |line|
    ensures i <= j <= |line|
    ensures j == |line| || line[j] == '\\' || line[j] == quote
    decreases |line| - i
  {
    if i < |line| && line[i] != '\\' && line[i] != quote then SegmentEnd(line, i + 1, quote) else i
  }

  /**
   * The loop that scans a string literal after its opening quote, one round
   * at a time: a segment of ordinary characters up to offset `j`, then
   * either the closing quote, or a backslash whose next character is skipped
   * before the next round. None when the line ends first, or when a segment
   * is empty.
   */
  function ScanString(lx: Lexing, quote: char): (r: Option<Lexing>)
    requires Cursor.Valid(lx)
    ensures r.Some? ==> Cursor.Valid(r.value) && r.value.line == lx.line && r.value.start == lx.start
                        && lx.end + 2 <= r.value.end && lx.line[r.value.end - 1] == quote
    decreases |lx.line| - lx.end
  {
    var line, j := lx.line, SegmentEnd(lx.line, lx.end, quote);
    if j == lx.end || j == |line| then None
    else if line[j] == quote then Some(lx.(end := j + 1))
    else if j + 1 == |line| then None
    else ScanString(lx.(end := j + 2), quote)
  }

  /** The segment end is where `take_while` over the string characters stops. */
  lemma {:induction false} SegmentEndIsRun(line: string, i: nat, quote: char)
    requires i <= |line|
    ensures SegmentEnd(line, i, quote) == RunEnd(line, i, InString(quote))
    decreases |line| - i
  {
    if i < |line| && InString(quote)(line[i]) {
      SegmentEndIsRun(line, i + 1, quote);
    }
  }

  /** A round whose segment is empty or runs into the end of the line leaves the literal unclosed. */
  lemma RoundUnclosed(lx: Lexing, quote: char, j: nat)
    requires Cursor.Valid(lx) && j == RunEnd(lx.line, lx.end, InString(quote))
    requires j == lx.end || j == |lx.line| || (lx.line[j] != quote && j + 1 == |lx.line|)
    ensures ScanString(lx, quote) == None
  {
    SegmentEndIsRun(lx.line, lx.end, quote);
  }

  /** A round whose segment stops at the quote closes the literal just past it. */
  lemma RoundCloses(lx: Lexing, quote: char, j: nat)
    requires Cursor.Valid(lx) && j == RunEnd(lx.line, lx.end, InString(quote))
    requires lx.end < j < |lx.line| && lx.line[j] == quote
    ensures ScanString(lx, quote) == Some(lx.(end := j + 1))
  {
    SegmentEndIsRun(lx.line, lx.end, quote);
  }

  /** A round whose segment stops at an escape goes on past the escaped character. */
  lemma RoundEscapes(lx: Lexing, quote: char, j: nat)
    requires Cursor.Valid(lx) && j == RunEnd(lx.line, lx.end, InString(quote))
    requires lx.end < j && j + 1 < |lx.line| && lx.line[j] != quote
    ensures ScanString(lx, quote) == ScanString(lx.(end := j + 2), quote)
  {
    SegmentEndIsRun(lx.line, lx.end, quote);
  }

  /**
   * One call of `next` on a line lexer whose cursor is `c` and whose line
   * number is `n`: the item it yields and the cursor it leaves behind.
   */
  function Step(c: Lexing, n: nat): (r: (Option<LexResult>, Lexing))
    requires Cursor.Valid(c)
    ensures Cursor.Valid(r.1) && r.1.line == c.line
    ensures c.start == c.end ==> r.1.start == r.1.end
    ensures r.0.Some? && r.0.value.Ok? ==>
              var t := r.0.value.value;
              && c.end < r.1.end && t.lineNum == n
              && t.leader + t.spelling == c.line[..r.1.end]
              && (c.start == c.end ==> c.end <= |t.leader|)
  {
    var c1 := SkipWhitespace(c);
    match Get(c1)
    case None => (None, c1)
    case Some((ch, lx)) =>
      if IsIdentInitial(ch) then
        match TakeWhile(lx, IsIdentChar)
        case None => (None, c1)
        case Some(run) => (Some(Ok(MakeToken(Ident, n, run))), Discard(run))
      else if IsDigit(ch) then
        match TakeWhile(lx, IsDigit)
        case None => (None, c1)
        case Some(run) => (Some(Ok(MakeToken(LitInt, n, run))), Discard(run))
      else if IsQuote(ch) then
        match ScanString(lx, ch)
        case None => (Some(Err(UnclosedString(ch))), c1)
        case Some(close) => (Some(Ok(MakeToken(LitString, n, close))), Discard(close))
      else if IsPunct(ch) then
        (Some(Ok(MakeToken(Punct, n, lx))), Discard(lx))
      else
        (Some(Err(BadCharacter(ch))), c1)
  }

  // ---------------------------------------------------------------------
  // The line lexer itself

  class LineLexer {
    var lexing: Lexing
    const lineNum: nat

    /** Between calls the cursor holds no pending match. */
    ghost predicate Valid()
      reads this
    {
      Cursor.Valid(lexing) && lexing.start == lexing.end
    }

    constructor (slice: string, line: nat)
      ensures Valid() && lexing == New(slice) && lineNum == line
    {
      lexing := New(slice);
      lineNum := line;
    }

    /** Ends a token at `lx`: moves the stored cursor past it and builds the token. */
    method Done(kind: TokenKind, lx: Lexing) returns (t: Token)
      requires Cursor.Valid(lx)
      modifies this
      ensures lexing == Discard(lx) && t == MakeToken(kind, lineNum, lx)
    {
      var (m, rest) := Consume(lx);
      lexing := rest;
      t := Token(kind, lineNum, m.leader, m.spelling);
    }

    /**
     * The closure that reads a string literal whose opening quote is
     * `openQuote` and whose contents start at `lx`: rounds of a segment and
     * then an escape, until the closing quote ends the token. None, with the
     * stored cursor untouched, when the literal does not close.
     */
    method StringLoop(openQuote: char, lx: Lexing) returns (t: Option<Token>)
      requires IsQuote(openQuote) && Cursor.Valid(lx)
      modifies this
      ensures match ScanString(lx, openQuote)
              case None => t.None? && lexing == old(lexing)
              case Some(close) => t == Some(MakeToken(LitString, lineNum, close)) && lexing == Discard(close)
    {
      var lexingString := lx;
      while true
        invariant Cursor.Valid(lexingString) && lexingString.line == lx.line
        invariant lexingString.start == lx.start
        invariant ScanString(lexingString, openQuote) == ScanString(lx, openQuote)
        invariant lexing == old(lexing)
        decreases |lexingString.line| - lexingString.end
      {
        ghost var j := RunEnd(lexingString.line, lexingString.end, InString(openQuote));
        var body := TakeWhileScan(lexingString, InString(openQuote));
        if body.None? {
          RoundUnclosed(lexingString, openQuote, j);
          return None;
        }
        assert body.value == lexingString.(end := j);
        var next := Get(body.value);
        if next.None? {
          RoundUnclosed(lexingString, openQuote, j);
          return None;
        }
        var (close, escapeOrEnd) := next.value;
        if close == '\\' {
          var pastEscape := Get(escapeOrEnd);
          if pastEscape.None? {
            RoundUnclosed(lexingString, openQuote, j);
            return None;
          }
          RoundEscapes(lexingString, openQuote, j);
          assert pastEscape.value.1 == lexingString.(end := j + 2);
          lexingString := pastEscape.value.1;
        } else if close == openQuote {
          RoundCloses(lexingString, openQuote, j);
          assert escapeOrEnd == lexingString.(end := j + 1);
          var token := Done(LitString, escapeOrEnd);
          return Some(token);
        } else {
          assert false;
        }
      }
    }

    /** `Iterator::next`: the next token of the line, an error, or None at the end. */
    method Next() returns (item: Option<LexResult>)
      requires Valid()
      modifies this
      ensures Valid()
      ensures (item, lexing) == Step(old(lexing), lineNum)
    {
      var skipped := TakeWhileScan(lexing, IsWhitespace);
      if skipped.Some? {
        lexing := Discard(skipped.value);
      }
      var got := Get(lexing);
      if got.None? {
        return None;
      }
      var (ch, lx) := got.value;
      if IsIdentInitial(ch) {
        var run := TakeWhileScan(lx, IsIdentChar);
        if run.None? {
          return None;
        }
        var t := Done(Ident, run.value);
        return Some(Ok(t));
      } else if IsDigit(ch) {
        var run := TakeWhileScan(lx, IsDigit);
        if run.None? {
          return None;
        }
        var t := Done(LitInt, run.value);
        return Some(Ok(t));
      } else if IsQuote(ch) {
        var t := StringLoop(ch, lx);
        return Some(if t.Some? then Ok(t.value) else Err(UnclosedString(ch)));
      } else if IsPunct(ch) {
        var t := Done(Punct, lx);
        return Some(Ok(t));
      } else {
        return Some(Err(BadCharacter(ch)));
      }
    }
  }

  // ---------------------------------------------------------------------
  // What one step does, by the class of the first non-blank character

  /** Where the next token of a cursor begins: past the whitespace after its end. */
  function TokenStart(c: Lexing): (i: nat)
    requires Cursor.Valid(c)
    ensures c.end <= i <= |c.line|
    ensures i == |c.line| || !IsWhitespace(c.line[i])
  {
    RunEnd(c.line, c.end, IsWhitespace)
  }

  /** A cursor with no pending match skips to a fresh cursor at its token start. */
  lemma SkipToTokenStart(c: Lexing)
    requires Cursor.Valid(c) && c.start == c.end
    ensures SkipWhitespace(c) == Lexing(c.line, TokenStart(c), TokenStart(c))
  {
  }

  /** Nothing but whitespace is left: the line ends, and the cursor is left at its end. */
  lemma StepAtEnd(c: Lexing, n: nat)
    requires Cursor.Valid(c) && c.start == c.end
    requires TokenStart(c) == |c.line|
    ensures Step(c, n) == (None, Lexing(c.line, |c.line|, |c.line|))
  {
  }

  /**
   * A letter or underscore followed by an identifier character gives one
   * identifier token over the maximal run of identifier characters, and the
   * cursor resumes right after it.
   */
  lemma StepIdent(c: Lexing, n: nat)
    requires Cursor.Valid(c) && c.start == c.end
    requires var line, i := c.line, TokenStart(c);
             i + 1 < |line| && IsIdentInitial(line[i]) && IsIdentChar(line[i + 1])
    ensures var line, i := c.line, TokenStart(c);
            var j := RunEnd(line, i + 1, IsIdentChar);
            Step(c, n) == (Some(Ok(Token(Ident, n, line[..i], line[i..j]))), Lexing(line, j, j))
  {
    var line, i := c.line, TokenStart(c);
    SkipToTokenStart(c);
    var lx := Lexing(line, i, i + 1);
    assert Get(Lexing(line, i, i)) == Some((line[i], lx));
    assert TakeWhile(lx, IsIdentChar) == Some(Lexing(line, i, RunEnd(line, i + 1, IsIdentChar)));
  }

  /** A one-character identifier is not a token: the line ends there. */
  lemma StepIdentAlone(c: Lexing, n: nat)
    requires Cursor.Valid(c) && c.start == c.end
    requires var line, i := c.line, TokenStart(c);
             i < |line| && IsIdentInitial(line[i]) && !(i + 1 < |line| && IsIdentChar(line[i + 1]))
    ensures Step(c, n) == (None, Lexing(c.line, TokenStart(c), TokenStart(c)))
  {
    var line, i := c.line, TokenStart(c);
    SkipToTokenStart(c);
    var lx := Lexing(line, i, i + 1);
    assert Get(Lexing(line, i, i)) == Some((line[i], lx));
    assert TakeWhile(lx, IsIdentChar) == None;
  }


  /**
   * A digit followed by a digit gives one integer token over the maximal run
   * of digits, and the cursor resumes right after it.
   */
  lemma StepInt(c: Lexing, n: nat)
    requires Cursor.Valid(c) && c.start == c.end
    requires var line, i := c.line, TokenStart(c);
             i + 1 < |line| && IsDigit(line[i]) && IsDigit(line[i + 1])
    ensures var line, i := c.line, TokenStart(c);
            var j := RunEnd(line, i + 1, IsDigit);
            Step(c, n) == (Some(Ok(Token(LitInt, n, line[..i], line[i..j]))), Lexing(line, j, j))
  {
    var line, i := c.line, TokenStart(c);
    SkipToTokenStart(c);
    var lx := Lexing(line, i, i + 1);
    assert Get(Lexing(line, i, i)) == Some((line[i], lx));
    assert TakeWhile(lx, IsDigit) == Some(Lexing(line, i, RunEnd(line, i + 1, IsDigit)));
  }

  /** A one-character integer is not a token: the line ends there. */
  lemma StepIntAlone(c: Lexing, n: nat)
    requires Cursor.Valid(c) && c.start == c.end
    requires var line, i := c.line, TokenStart(c);
             i < |line| && IsDigit(line[i]) && !(i + 1 < |line| && IsDigit(line[i + 1]))
    ensures Step(c, n) == (None, Lexing(c.line, TokenStart(c), TokenStart(c)))
  {
    var line, i := c.line, TokenStart(c);
    SkipToTokenStart(c);
    var lx := Lexing(line, i, i + 1);
    assert Get(Lexing(line, i, i)) == Some((line[i], lx));
    assert TakeWhile(lx, IsDigit) == None;
  }


  /** One of `+-=()` is a punctuation token of exactly that character. */
  lemma StepPunct(c: Lexing, n: nat)
    requires Cursor.Valid(c) && c.start == c.end
    requires TokenStart(c) < |c.line| && IsPunct(c.line[TokenStart(c)])
    ensures var line, i := c.line, TokenStart(c);
            Step(c, n) == (Some(Ok(Token(Punct, n, line[..i], [line[i]]))), Lexing(line, i + 1, i + 1))
  {
    var line, i := c.line, TokenStart(c);
    assert line[i..i + 1] == [line[i]];
  }

  /** Any other character is a `BadCharacter` error, and the cursor stays in front of it. */
  lemma StepBadCharacter(c: Lexing, n: nat)
    requires Cursor.Valid(c) && c.start == c.end
    requires var i := TokenStart(c);
             i < |c.line| && !IsIdentInitial(c.line[i]) && !IsDigit(c.line[i])
             && !IsQuote(c.line[i]) && !IsPunct(c.line[i])
    ensures var line, i := c.line, TokenStart(c);
            Step(c, n) == (Some(Err(BadCharacter(line[i]))), Lexing(line, i, i))
  {
  }

  /**
   * Where a string literal whose contents start at `i` closes, read one
   * character at a time: a backslash and the character after it are taken
   * verbatim, the opening quote closes the literal (the result is the offset
   * just past it), and a segment of ordinary characters that is empty (right
   * after the opening quote or after an escape) leaves the literal unclosed.
   */
  function StringClose(line: string, i: nat, quote: char, segmentStart: bool): (r: Option<nat>)
    requires i <= |line|
    ensures r.Some? ==> i < r.value <= |line| && line[r.value - 1] == quote
    decreases |line| - i
  {
    if i == |line| then None
    else if line[i] != '\\' && line[i] != quote then StringClose(line, i + 1, quote, false)
    else if segmentStart then None
    else if line[i] == quote then Some(i + 1)
    else if i + 1 < |line| then StringClose(line, i + 2, quote, true)
    else None
  }

  /** A non-empty segment is read over as a whole. */
  lemma {:induction false} StringCloseSkipsSegment(line: string, i: nat, quote: char, segmentStart: bool)
    requires i <= |line| && i < SegmentEnd(line, i, quote)
    ensures StringClose(line, i, quote, segmentStart) == StringClose(line, SegmentEnd(line, i, quote), quote, false)
    decreases |line| - i
  {
    if i + 1 < SegmentEnd(line, i + 1, quote) {
      StringCloseSkipsSegment(line, i + 1, quote, false);
    }
  }

  /** The cursor extended to the closing offset `close`, if there is one. */
  function ClosedAt(lx: Lexing, close: Option<nat>): Option<Lexing> {
    match close
    case None => None
    case Some(j) => Some(lx.(end := j))
  }

  /** The string loop closes exactly where the character-by-character reading does. */
  lemma {:induction false} ScanStringIsStringClose(lx: Lexing, quote: char)
    requires Cursor.Valid(lx) && IsQuote(quote)
    ensures ScanString(lx, quote) == ClosedAt(lx, StringClose(lx.line, lx.end, quote, true))
    decreases |lx.line| - lx.end
  {
    var line := lx.line;
    var j := SegmentEnd(line, lx.end, quote);
    if j < |line| && lx.end < j && line[j] != quote && j + 1 < |line| {
      var next := lx.(end := j + 2);
      ScanStringIsStringClose(next, quote);
      ScanStringEscape(lx, quote, j);
    } else {
      ScanStringLastRound(lx, quote, j);
    }
  }

  /** A round that ends the scan agrees with the character-by-character reading. */
  lemma ScanStringLastRound(lx: Lexing, quote: char, j: nat)
    requires Cursor.Valid(lx) && IsQuote(quote) && j == SegmentEnd(lx.line, lx.end, quote)
    requires !(j < |lx.line| && lx.end < j && lx.line[j] != quote && j + 1 < |lx.line|)
    ensures ScanString(lx, quote) == ClosedAt(lx, StringClose(lx.line, lx.end, quote, true))
  {
    var line := lx.line;
    if j == lx.end {
      StringCloseEmptySegment(line, j, quote);
    } else {
      StringCloseSkipsSegment(line, lx.end, quote, true);
      if j < |line| {
        StringCloseAtStop(line, j, quote);
      }
    }
  }

  /** A round that ends in an escape hands over to the next round on both sides. */
  lemma ScanStringEscape(lx: Lexing, quote: char, j: nat)
    requires Cursor.Valid(lx) && IsQuote(quote) && j == SegmentEnd(lx.line, lx.end, quote)
    requires j < |lx.line| && lx.end < j && lx.line[j] != quote && j + 1 < |lx.line|
    ensures ScanString(lx, quote) == ScanString(lx.(end := j + 2), quote)
    ensures StringClose(lx.line, lx.end, quote, true) == StringClose(lx.line, j + 2, quote, true)
  {
    StringCloseSkipsSegment(lx.line, lx.end, quote, true);
    StringCloseAtStop(lx.line, j, quote);
  }

  /** A segment that is empty leaves the literal unclosed. */
  lemma StringCloseEmptySegment(line: string, i: nat, quote: char)
    requires i <= |line| && (i == |line| || line[i] == '\\' || line[i] == quote)
    ensures StringClose(line, i, quote, true).None?
  {
  }

  /** After a segment: the quote closes the literal, a backslash skips the next character. */
  lemma StringCloseAtStop(line: string, j: nat, quote: char)
    requires j < |line| && (line[j] == '\\' || line[j] == quote)
    ensures StringClose(line, j, quote, false)
            == if line[j] == quote then Some(j + 1)
               else if j + 1 < |line| then StringClose(line, j + 2, quote, true)
               else None
  {
  }

  /**
   * A quote starts a string literal. Its token is spelled from the opening
   * quote through the closing one, both included; when the literal does not
   * close, the error names the opening quote and the cursor stays in front of
   * the literal.
   */
  lemma StepString(c: Lexing, n: nat)
    requires Cursor.Valid(c) && c.start == c.end
    requires TokenStart(c) < |c.line| && IsQuote(c.line[TokenStart(c)])
    ensures var line, i := c.line, TokenStart(c);
            match StringClose(line, i + 1, line[i], true)
            case None =>
              Step(c, n) == (Some(Err(UnclosedString(line[i]))), Lexing(line, i, i))
            case Some(j) =>
              Step(c, n) == (Some(Ok(Token(LitString, n, line[..i], line[i..j]))), Lexing(line, j, j))
  {
    var line, i := c.line, TokenStart(c);
    var c1 := Lexing(line, i, i);
    assert SkipWhitespace(c) == c1;
    assert Get(c1) == Some((line[i], Lexing(line, i, i + 1)));
    ScanStringIsStringClose(Lexing(line, i, i + 1), line[i]);
  }

  /**
   * Errors and the end of the line are not consumed: the next call yields the
   * same item again and leaves the cursor where it is.
   */
  lemma StepRepeats(c: Lexing, n: nat)
    requires Cursor.Valid(c) && c.start == c.end
    requires Step(c, n).0.None? || Step(c, n).0.value.Err?
    ensures Step(Step(c, n).1, n) == Step(c, n)
  {
    var c1 := SkipWhitespace(c);
    assert Step(c, n).1 == c1;
    assert SkipWhitespace(c1) == c1;
  }

  /** Every token a step yields is spelled as its kind demands. */
  lemma StepWellSpelled(c: Lexing, n: nat)
    requires Cursor.Valid(c) && c.start == c.end
    ensures var item := Step(c, n).0;
            item.Some? && item.value.Ok? ==> WellSpelled(item.value.value)
  {
    var line, i := c.line, TokenStart(c);
    if i == |line| {
      StepAtEnd(c, n);
    } else if IsIdentInitial(line[i]) {
      IdentWellSpelled(c, n);
    } else if IsDigit(line[i]) {
      IntWellSpelled(c, n);
    } else if IsQuote(line[i]) {
      StringWellSpelled(c, n);
    } else if IsPunct(line[i]) {
      StepPunct(c, n);
    } else {
      StepBadCharacter(c, n);
    }
  }

  lemma IdentWellSpelled(c: Lexing, n: nat)
    requires Cursor.Valid(c) && c.start == c.end
    requires TokenStart(c) < |c.line| && IsIdentInitial(c.line[TokenStart(c)])
    ensures var item := Step(c, n).0;
            item.Some? && item.value.Ok? ==> WellSpelled(item.value.value)
  {
    var line, i := c.line, TokenStart(c);
    if i + 1 < |line| && IsIdentChar(line[i + 1]) {
      var j := RunEnd(line, i + 1, IsIdentChar);
      StepIdent(c, n);
      RunSpelled(Ident, line, i, j, n);
      assert Step(c, n).0 == Some(Ok(Token(Ident, n, line[..i], line[i..j])));
    } else {
      StepIdentAlone(c, n);
      assert Step(c, n).0 == None;
    }
  }

  lemma IntWellSpelled(c: Lexing, n: nat)
    requires Cursor.Valid(c) && c.start == c.end
    requires TokenStart(c) < |c.line| && IsDigit(c.line[TokenStart(c)])
    ensures var item := Step(c, n).0;
            item.Some? && item.value.Ok? ==> WellSpelled(item.value.value)
  {
    var line, i := c.line, TokenStart(c);
    if i + 1 < |line| && IsDigit(line[i + 1]) {
      var j := RunEnd(line, i + 1, IsDigit);
      StepInt(c, n);
      RunSpelled(LitInt, line, i, j, n);
      assert Step(c, n).0 == Some(Ok(Token(LitInt, n, line[..i], line[i..j])));
    } else {
      StepIntAlone(c, n);
      assert Step(c, n).0 == None;
    }
  }

  lemma StringWellSpelled(c: Lexing, n: nat)
    requires Cursor.Valid(c) && c.start == c.end
    requires TokenStart(c) < |c.line| && IsQuote(c.line[TokenStart(c)])
    ensures var item := Step(c, n).0;
            item.Some? && item.value.Ok? ==> WellSpelled(item.value.value)
  {
    var line, i := c.line, TokenStart(c);
    StepString(c, n);
    var close := StringClose(line, i + 1, line[i], true);
    if close.Some? {
      StringCloseAfterSegment(line, i + 1, line[i]);
      StringSpelled(line, i, close.value, n);
      assert Step(c, n).0 == Some(Ok(Token(LitString, n, line[..i], line[i..close.value])));
    } else {
      assert Step(c, n).0 == Some(Err(UnclosedString(line[i])));
    }
  }

  /** A literal closes at least two characters after its contents start: an empty first segment leaves it unclosed. */
  lemma StringCloseAfterSegment(line: string, i: nat, quote: char)
    requires i <= |line|
    ensures StringClose(line, i, quote, true).Some? ==> i + 1 < StringClose(line, i, quote, true).value
  {
  }

  /** A run of two or more identifier (or digit) characters, starting with an initial, spells an identifier (or integer). */
  lemma RunSpelled(kind: TokenKind, line: string, i: nat, j: nat, n: nat)
    requires kind == Ident || kind == LitInt
    requires i + 2 <= j <= |line|
    requires kind == Ident ==> IsIdentInitial(line[i]) && forall k :: i <= k < j ==> IsIdentChar(line[k])
    requires kind == LitInt ==> forall k :: i <= k < j ==> IsDigit(line[k])
    ensures WellSpelled(Token(kind, n, line[..i], line[i..j]))
  {
    assert forall k :: 0 <= k < j - i ==> line[i..j][k] == line[i + k];
  }

  /** A literal from a quote to the same quote, at least three characters long, is spelled as a string. */
  lemma StringSpelled(line: string, i: nat, j: nat, n: nat)
    requires i + 3 <= j <= |line| && IsQuote(line[i]) && line[j - 1] == line[i]
    ensures WellSpelled(Token(LitString, n, line[..i], line[i..j]))
  {
    assert line[i..j][0] == line[i] && line[i..j][j - i - 1] == line[j - 1];
  }

  // ---------------------------------------------------------------------
  // The items of one line

  /**
   * The items a line lexer whose cursor is `c` yields, up to its first None
   * and cut after its first error (the lexer would repeat that error on every
   * further call, as StepRepeats shows).
   */
  function Items(c: Lexing, n: nat): (items: seq<LexResult>)
    requires Cursor.Valid(c)
    decreases |c.line| - c.end
  {
    var (item, rest) := Step(c, n);
    match item
    case None => []
    case Some(Err(e)) => [Err(e)]
    case Some(Ok(t)) => [Ok(t)] + Items(rest, n)
  }

  /** The items of line `line`, numbered `n`, from a fresh lexer. */
  function LineItems(line: string, n: nat): seq<LexResult> {
    Items(New(line), n)
  }

  /** A token of a line: it carries the line's number and is a non-empty piece of the line after its leader. */
  predicate TokenOfLine(t: Token, line: string, n: nat) {
    && t.lineNum == n
    && WellSpelled(t)
    && |t.leader| + |t.spelling| <= |line|
    && t.leader + t.spelling == line[..|t.leader| + |t.spelling|]
  }

  /** Items, one step at a time. */
  lemma ItemsUnfold(c: Lexing, n: nat)
    requires Cursor.Valid(c)
    ensures var (item, rest) := Step(c, n);
            Items(c, n) == if item.None? then []
                           else if item.value.Err? then [item.value]
                           else [item.value] + Items(rest, n)
  {
  }

  /** Only the last item can be an error. */
  predicate OnlyLastFails(items: seq<LexResult>) {
    forall k :: 0 <= k < |items| - 1 ==> items[k].Ok?
  }

  /** The tokens among `items` are tokens of line `line`, numbered `n`, that start at or after offset `from`. */
  predicate TokensOfLine(items: seq<LexResult>, line: string, n: nat, from: nat) {
    forall k :: 0 <= k < |items| && items[k].Ok? ==>
      TokenOfLine(items[k].value, line, n) && from <= |items[k].value.leader|
  }

  /** Each token ends before the next one begins. */
  predicate InOrder(items: seq<LexResult>) {
    forall k :: 0 <= k < |items| - 1 && items[k].Ok? && items[k + 1].Ok? ==>
      |items[k].value.leader| + |items[k].value.spelling| <= |items[k + 1].value.leader|
  }

  /** Only the last item of a line can be an error. */
  lemma {:induction false} ItemsErrorIsLast(c: Lexing, n: nat)
    requires Cursor.Valid(c) && c.start == c.end
    ensures OnlyLastFails(Items(c, n))
    decreases |c.line| - c.end
  {
    ItemsUnfold(c, n);
    var (item, rest) := Step(c, n);
    if item.Some? && item.value.Ok? {
      ItemsErrorIsLast(rest, n);
      OnlyLastFailsPrepend(item.value, Items(rest, n));
    }
  }

  lemma OnlyLastFailsPrepend(x: LexResult, tail: seq<LexResult>)
    requires x.Ok? && OnlyLastFails(tail)
    ensures OnlyLastFails([x] + tail)
  {
    var items := [x] + tail;
    forall k | 0 <= k < |items| - 1
      ensures items[k].Ok?
    {
      if k > 0 {
        assert items[k] == tail[k - 1];
      }
    }
  }

  /** A token one step yields is a token of the line, after the cursor, and ends where the new cursor is. */
  lemma StepTokenOfLine(c: Lexing, n: nat)
    requires Cursor.Valid(c) && c.start == c.end
    requires Step(c, n).0.Some? && Step(c, n).0.value.Ok?
    ensures var t := Step(c, n).0.value.value;
            && TokenOfLine(t, c.line, n) && c.end <= |t.leader|
            && |t.leader| + |t.spelling| == Step(c, n).1.end
  {
    StepWellSpelled(c, n);
  }

  /**
   * Every token a line yields lies inside that line, after the cursor it
   * started from, carries the line's number and is spelled as its kind
   * demands.
   */
  lemma {:induction false} ItemsInLine(c: Lexing, n: nat)
    requires Cursor.Valid(c) && c.start == c.end
    ensures TokensOfLine(Items(c, n), c.line, n, c.end)
    decreases |c.line| - c.end
  {
    ItemsUnfold(c, n);
    var (item, rest) := Step(c, n);
    if item.Some? && item.value.Ok? {
      ItemsInLine(rest, n);
      StepTokenOfLine(c, n);
      TokensOfLinePrepend(item.value.value, Items(rest, n), c.line, n, c.end, rest.end);
    }
  }

  lemma TokensOfLinePrepend(t: Token, tail: seq<LexResult>, line: string, n: nat, from: nat, next: nat)
    requires TokenOfLine(t, line, n) && from <= |t.leader| && from <= next
    requires TokensOfLine(tail, line, n, next)
    ensures TokensOfLine([Ok(t)] + tail, line, n, from)
  {
    var items := [Ok(t)] + tail;
    forall k | 0 <= k < |items| && items[k].Ok?
      ensures TokenOfLine(items[k].value, line, n) && from <= |items[k].value.leader|
    {
      if k > 0 {
        assert items[k] == tail[k - 1];
      }
    }
  }

  /** The tokens of a line come in order of position and do not overlap. */
  lemma {:induction false} ItemsInOrder(c: Lexing, n: nat)
    requires Cursor.Valid(c) && c.start == c.end
    ensures InOrder(Items(c, n))
    decreases |c.line| - c.end
  {
    ItemsUnfold(c, n);
    var (item, rest) := Step(c, n);
    if item.Some? && item.value.Ok? {
      ItemsInOrder(rest, n);
      ItemsInLine(rest, n);
      StepTokenOfLine(c, n);
      InOrderPrepend(item.value.value, Items(rest, n), c.line, n, rest.end);
    }
  }

  lemma InOrderPrepend(t: Token, tail: seq<LexResult>, line: string, n: nat, next: nat)
    requires |t.leader| + |t.spelling| <= next
    requires InOrder(tail) && TokensOfLine(tail, line, n, next)
    ensures InOrder([Ok(t)] + tail)
  {
    var items := [Ok(t)] + tail;
    forall k | 0 <= k < |items| - 1 && items[k].Ok? && items[k + 1].Ok?
      ensures |items[k].value.leader| + |items[k].value.spelling| <= |items[k + 1].value.leader|
    {
      assert items[k + 1] == tail[k];
      if k > 0 {
        assert items[k] == tail[k - 1];
      }
    }
  }

  // ---------------------------------------------------------------------
  // Lines the code treats differently from what one would expect

  /** `let x = 1` yields only `let`: the one-character identifier `x` ends the line. */
  lemma LetLine()
    ensures LineItems("let x = 1", 1) == [Ok(Token(Ident, 1, "", "let"))]
  {
    var line := "let x = 1";
    var c0 := New(line);
    assert TokenStart(c0) == 0;
    StepIdent(c0, 1);
    assert RunEnd(line, 1, IsIdentChar) == 3;
    var c1 := Lexing(line, 3, 3);
    assert line[..0] == "" && line[0..3] == "let";
    assert Step(c0, 1) == (Some(Ok(Token(Ident, 1, "", "let"))), c1);
    assert TokenStart(c1) == 4;
    StepIdentAlone(c1, 1);
    ItemsUnfold(c0, 1);
    ItemsUnfold(c1, 1);
  }

  /** A string token is spelled with its quotes, and an escaped quote does not close it. */
  lemma EscapedQuoteLine()
    ensures LineItems("'a\\'b'", 7) == [Ok(Token(LitString, 7, "", "'a\\'b'"))]
  {
    var line := "'a\\'b'";
    var c0 := New(line);
    assert TokenStart(c0) == 0;
    StepString(c0, 7);
    assert StringClose(line, 1, '\'', true) == Some(6);
    var c1 := Lexing(line, 6, 6);
    assert line[..0] == "" && line[0..6] == line;
    assert TokenStart(c1) == 6;
    StepAtEnd(c1, 7);
    ItemsUnfold(c0, 7);
    ItemsUnfold(c1, 7);
  }

  /** The empty string literal is reported unclosed, since its only segment is empty. */
  lemma EmptyStringLine()
    ensures LineItems("\"\"", 1) == [Err(UnclosedString('"'))]
  {
    var c0 := New("\"\"");
    assert TokenStart(c0) == 0;
    StepString(c0, 1);
    ItemsUnfold(c0, 1);
  }

  /**
   * An escaped character right before the closing quote leaves an empty
   * final segment, so the literal is reported unclosed.
   */
  lemma EscapeBeforeCloseLine()
    ensures LineItems("\"a\\\"\"", 1) == [Err(UnclosedString('"'))]
  {
    var c0 := New("\"a\\\"\"");
    assert TokenStart(c0) == 0;
    StepString(c0, 1);
    assert StringClose("\"a\\\"\"", 1, '"', true) == None;
    ItemsUnfold(c0, 1);
  }

  /** A literal the line ends inside is reported unclosed. */
  lemma UnterminatedStringLine()
    ensures LineItems("\"abc", 1) == [Err(UnclosedString('"'))]
  {
    var c0 := New("\"abc");
    assert TokenStart(c0) == 0;
    StepString(c0, 1);
    assert StringClose("\"abc", 1, '"', true) == None;
    ItemsUnfold(c0, 1);
  }

  /** An unknown character is a `BadCharacter` error naming it. */
  lemma BadCharacterLine()
    ensures LineItems("  @", 1) == [Err(BadCharacter('@'))]
  {
    var c0 := New("  @");
    assert TokenStart(c0) == 2;
    StepBadCharacter(c0, 1);
    ItemsUnfold(c0, 1);
  }
}
