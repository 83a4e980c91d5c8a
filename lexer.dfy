/**
 * The document-level token stream (src/lexer/mod.rs): the line lexers of all
 * lines, one after the other, and `lex`, which collects them or returns the
 * first error. The document is given as its sequence of lines.
 */
module Lexer {
  import opened Wrappers
  import opened Cursor
  import opened PubTypes
  import opened LineLexing

  /** A line's items end in an error. */
  predicate EndsInError(items: seq<LexResult>) {
    items != [] && items[|items| - 1].Err?
  }

  /** The items of each line; the line at index `i` is numbered `i + 1`. */
  function PerLine(lines: seq<string>): (groups: seq<seq<LexResult>>)
    ensures |groups| == |lines|
    ensures forall i :: 0 <= i < |lines| ==> groups[i] == LineItems(lines[i], i + 1)
  {
    seq(|lines|, i requires 0 <= i < |lines| => LineItems(lines[i], i + 1))
  }

  /** All groups, one after the other. */
  function Flatten(groups: seq<seq<LexResult>>): seq<LexResult> {
    if groups == [] then [] else groups[0] + Flatten(groups[1..])
  }

  /**
   * The flat-map of the line lexers: all groups one after the other, up to
   * and including the first group that ends in an error. A line lexer that
   * reports an error reports it again on every further call (StepRepeats),
   * so the flattened stream never gets past it.
   */
  function FlattenToError(groups: seq<seq<LexResult>>): seq<LexResult> {
    if groups == [] then []
    else if EndsInError(groups[0]) then groups[0]
    else groups[0] + FlattenToError(groups[1..])
  }

  /** `Tokens::new`, `tokens` and `Tokens::next`: the stream of the document's items. */
  function Tokens(lines: seq<string>): seq<LexResult> {
    FlattenToError(PerLine(lines))
  }

  /** `collect` into a Result: all tokens in order, or the first error. */
  function Collect(items: seq<LexResult>): (r: Result<seq<Token>, LexError>)
    ensures r.Ok? <==> forall k :: 0 <= k < |items| ==> items[k].Ok?
    ensures r.Ok? ==> |r.value| == |items| && forall k :: 0 <= k < |items| ==> items[k] == Ok(r.value[k])
    ensures r.Err? ==> exists k :: 0 <= k < |items| && items[k] == Err(r.error)
                                   && forall j :: 0 <= j < k ==> items[j].Ok?
  {
    if items == [] then Ok([])
    else match items[0]
      case Err(e) => Err(e)
      case Ok(t) =>
        match Collect(items[1..])
        case Err(e) =>
          assert exists k :: 0 <= k < |items| - 1 && items[1..][k] == Err(e)
                             && forall j :: 0 <= j < k ==> items[1..][j].Ok?;
          var k :| 0 <= k < |items| - 1 && items[1..][k] == Err(e)
                   && forall j :: 0 <= j < k ==> items[1..][j].Ok?;
          assert items[k + 1] == Err(e);
          Err(e)
        case Ok(ts) => Ok([t] + ts)
  }

  /** `lex`: the document's tokens, or the first error of its stream. */
  function Lex(lines: seq<string>): Result<seq<Token>, LexError> {
    Collect(Tokens(lines))
  }

  // ---------------------------------------------------------------------
  // The flattening, for any groups

  /** If only the last item of each group can be an error, only the last item of the stream can be. */
  lemma {:induction false} FlattenErrorIsLast(groups: seq<seq<LexResult>>)
    requires forall i, k :: 0 <= i < |groups| && 0 <= k < |groups[i]| - 1 ==> groups[i][k].Ok?
    ensures OnlyLastFails(FlattenToError(groups))
  {
    if groups != [] && !EndsInError(groups[0]) {
      var g, rest := groups[0], FlattenToError(groups[1..]);
      FlattenErrorIsLast(groups[1..]);
      var s := g + rest;
      forall k | 0 <= k < |s| - 1
        ensures s[k].Ok?
      {
        if k >= |g| {
          assert s[k] == rest[k - |g|];
        } else {
          assert s[k] == g[k];
          assert k < |g| - 1 || g[|g| - 1].Ok?;
        }
      }
    }
  }

  /** Every item of the stream is an item of one of the groups. */
  lemma {:induction false} FlattenKeeps(groups: seq<seq<LexResult>>, p: LexResult -> bool)
    requires forall i, k :: 0 <= i < |groups| && 0 <= k < |groups[i]| ==> p(groups[i][k])
    ensures forall k :: 0 <= k < |FlattenToError(groups)| ==> p(FlattenToError(groups)[k])
  {
    if groups != [] && !EndsInError(groups[0]) {
      var g, rest := groups[0], FlattenToError(groups[1..]);
      FlattenKeeps(groups[1..], p);
      var s := g + rest;
      forall k | 0 <= k < |s|
        ensures p(s[k])
      {
        if k >= |g| {
          assert s[k] == rest[k - |g|];
        } else {
          assert s[k] == g[k];
        }
      }
    }
  }

  /** The tokens among `items` carry line numbers `first` or above. */
  predicate NumberedFrom(items: seq<LexResult>, first: nat) {
    forall k :: 0 <= k < |items| && items[k].Ok? ==> first <= items[k].value.lineNum
  }

  /** Line numbers never decrease from one token to the next. */
  predicate NumbersInOrder(items: seq<LexResult>) {
    forall k :: 0 <= k < |items| - 1 && items[k].Ok? && items[k + 1].Ok? ==>
      items[k].value.lineNum <= items[k + 1].value.lineNum
  }

  /** If the tokens of group `i` all carry number `first + i`, numbers never decrease along the stream. */
  lemma {:induction false} FlattenInOrder(groups: seq<seq<LexResult>>, first: nat)
    requires forall i, k :: 0 <= i < |groups| && 0 <= k < |groups[i]| && groups[i][k].Ok? ==>
               groups[i][k].value.lineNum == first + i
    ensures NumberedFrom(FlattenToError(groups), first)
    ensures NumbersInOrder(FlattenToError(groups))
  {
    if groups != [] && !EndsInError(groups[0]) {
      var g, rest := groups[0], FlattenToError(groups[1..]);
      FlattenInOrder(groups[1..], first + 1);
      var s := g + rest;
      forall k | 0 <= k < |s| && s[k].Ok?
        ensures first <= s[k].value.lineNum
      {
        if k >= |g| {
          assert s[k] == rest[k - |g|];
        } else {
          assert s[k] == g[k];
        }
      }
      forall k | 0 <= k < |s| - 1 && s[k].Ok? && s[k + 1].Ok?
        ensures s[k].value.lineNum <= s[k + 1].value.lineNum
      {
        if k >= |g| {
          assert s[k] == rest[k - |g|] && s[k + 1] == rest[k + 1 - |g|];
        } else if k + 1 < |g| {
          assert s[k] == g[k] && s[k + 1] == g[k + 1];
        } else {
          assert s[k] == g[k] && s[k + 1] == rest[0];
        }
      }
    } else if groups != [] {
      var g := groups[0];
      assert forall k :: 0 <= k < |g| && g[k].Ok? ==> g[k].value.lineNum == first;
    }
  }

  /**
   * The stream is the in-order concatenation of the groups, cut after the
   * first group that ends in an error.
   */
  lemma {:induction false} FlattenToErrorIsCut(groups: seq<seq<LexResult>>)
    ensures (forall i :: 0 <= i < |groups| ==> !EndsInError(groups[i]))
            ==> FlattenToError(groups) == Flatten(groups)
    ensures forall e :: 0 <= e < |groups| && EndsInError(groups[e])
                        && (forall i :: 0 <= i < e ==> !EndsInError(groups[i]))
                        ==> FlattenToError(groups) == Flatten(groups[..e]) + groups[e]
  {
    if groups != [] {
      FlattenToErrorIsCut(groups[1..]);
      forall e | 0 <= e < |groups| && EndsInError(groups[e])
                 && (forall i :: 0 <= i < e ==> !EndsInError(groups[i]))
        ensures FlattenToError(groups) == Flatten(groups[..e]) + groups[e]
      {
        if e == 0 {
          assert Flatten(groups[..0]) == [];
        } else {
          assert groups[..e][1..] == groups[1..][..e - 1];
          assert !EndsInError(groups[0]);
          assert groups[1..][e - 1] == groups[e];
        }
      }
    }
  }

  // ---------------------------------------------------------------------
  // The document's stream and `lex`

  /** Only the last item of the stream can be an error. */
  lemma StreamErrorIsLast(lines: seq<string>)
    ensures OnlyLastFails(Tokens(lines))
  {
    var groups: seq<seq<LexResult>> := PerLine(lines);
    forall i | 0 <= i < |groups|
      ensures forall k :: 0 <= k < |groups[i]| - 1 ==> groups[i][k].Ok?
    {
      ItemsErrorIsLast(New(lines[i]), i + 1);
    }
    FlattenErrorIsLast(groups);
  }

  /** A token located in the document: the line it names exists and holds it. */
  predicate Located(item: LexResult, lines: seq<string>) {
    item.Ok? ==>
      var t := item.value;
      1 <= t.lineNum <= |lines| && TokenOfLine(t, lines[t.lineNum - 1], t.lineNum)
  }

  /**
   * The tokens of the line at index `i` carry the number `i + 1` and lie
   * inside that line, so no token spans two lines; line numbers never
   * decrease along the stream.
   */
  lemma StreamTokensLocated(lines: seq<string>)
    ensures forall k :: 0 <= k < |Tokens(lines)| ==> Located(Tokens(lines)[k], lines)
    ensures NumbersInOrder(Tokens(lines))
  {
    var groups: seq<seq<LexResult>> := PerLine(lines);
    forall i | 0 <= i < |groups|
      ensures forall k :: 0 <= k < |groups[i]| ==> Located(groups[i][k], lines)
      ensures forall k :: 0 <= k < |groups[i]| && groups[i][k].Ok? ==> groups[i][k].value.lineNum == 1 + i
    {
      ItemsInLine(New(lines[i]), i + 1);
    }
    FlattenKeeps(groups, item => Located(item, lines));
    FlattenInOrder(groups, 1);
  }

  /** The stream is the concatenation of the lines' items, cut after the first line that ends in an error. */
  lemma StreamIsFlatMap(lines: seq<string>)
    ensures (forall i :: 0 <= i < |lines| ==> !EndsInError(LineItems(lines[i], i + 1)))
            ==> Tokens(lines) == Flatten(PerLine(lines))
    ensures forall e :: 0 <= e < |lines| && EndsInError(LineItems(lines[e], e + 1))
                        && (forall i :: 0 <= i < e ==> !EndsInError(LineItems(lines[i], i + 1)))
                        ==> Tokens(lines) == Flatten(PerLine(lines)[..e]) + LineItems(lines[e], e + 1)
  {
    FlattenToErrorIsCut(PerLine(lines));
  }

  /**
   * `lex` succeeds exactly when the stream holds no error, and then returns
   * its tokens in order; otherwise it returns the error the stream ends in.
   */
  lemma LexIsFirstError(lines: seq<string>)
    ensures Lex(lines).Ok? <==> !EndsInError(Tokens(lines))
    ensures Lex(lines).Ok? ==> |Lex(lines).value| == |Tokens(lines)|
                               && forall k :: 0 <= k < |Tokens(lines)| ==> Tokens(lines)[k] == Ok(Lex(lines).value[k])
    ensures Lex(lines).Err? ==> Tokens(lines)[|Tokens(lines)| - 1] == Err(Lex(lines).error)
  {
    var s := Tokens(lines);
    StreamErrorIsLast(lines);
    if Lex(lines).Err? {
      var k :| 0 <= k < |s| && s[k] == Err(Lex(lines).error) && forall j :: 0 <= j < k ==> s[j].Ok?;
      assert k == |s| - 1;
    }
  }

  /**
   * The tokens `lex` returns each carry the 1-based number of the line they
   * come from and lie inside it; their line numbers never decrease.
   */
  lemma LexTokensLocated(lines: seq<string>)
    requires Lex(lines).Ok?
    ensures forall t :: t in Lex(lines).value ==> Located(Ok(t), lines)
    ensures forall k :: 0 <= k < |Lex(lines).value| - 1 ==>
              Lex(lines).value[k].lineNum <= Lex(lines).value[k + 1].lineNum
  {
    StreamTokensLocated(lines);
    CollectKeeps(Tokens(lines), lines);
  }

  /** Collecting keeps the tokens' locations and order. */
  lemma CollectKeeps(items: seq<LexResult>, lines: seq<string>)
    requires Collect(items).Ok?
    requires forall k :: 0 <= k < |items| ==> Located(items[k], lines)
    requires NumbersInOrder(items)
    ensures forall t :: t in Collect(items).value ==> Located(Ok(t), lines)
    ensures forall k :: 0 <= k < |Collect(items).value| - 1 ==>
              Collect(items).value[k].lineNum <= Collect(items).value[k + 1].lineNum
  {
    var ts := Collect(items).value;
    forall t | t in ts
      ensures Located(Ok(t), lines)
    {
      var k :| 0 <= k < |ts| && ts[k] == t;
      assert items[k] == Ok(t);
    }
    forall k | 0 <= k < |ts| - 1
      ensures ts[k].lineNum <= ts[k + 1].lineNum
    {
      assert items[k] == Ok(ts[k]) && items[k + 1] == Ok(ts[k + 1]);
    }
  }

  /** A line of whitespace yields nothing. */
  lemma BlankLineYieldsNothing(line: string, n: nat)
    requires forall k :: 0 <= k < |line| ==> IsWhitespace(line[k])
    ensures LineItems(line, n) == []
  {
    var c := New(line);
    assert TokenStart(c) == |line|;
    StepAtEnd(c, n);
    ItemsUnfold(c, n);
  }

  /** A document of whitespace and line breaks only lexes to no tokens. */
  lemma WhitespaceOnlyLexesEmpty(lines: seq<string>)
    requires forall i, k :: 0 <= i < |lines| && 0 <= k < |lines[i]| ==> IsWhitespace(lines[i][k])
    ensures Lex(lines) == Ok([])
  {
    var groups: seq<seq<LexResult>> := PerLine(lines);
    forall i | 0 <= i < |groups|
      ensures groups[i] == []
    {
      BlankLineYieldsNothing(lines[i], i + 1);
    }
    FlattenToErrorIsCut(groups);
    EmptyGroupsFlatten(groups);
  }

  lemma {:induction false} EmptyGroupsFlatten(groups: seq<seq<LexResult>>)
    requires forall i :: 0 <= i < |groups| ==> groups[i] == []
    ensures Flatten(groups) == []
  {
    if groups != [] {
      EmptyGroupsFlatten(groups[1..]);
    }
  }

  /** A one-line document's stream is that line's items. */
  lemma OneLineDocument(line: string)
    ensures Tokens([line]) == LineItems(line, 1)
  {
    var groups: seq<seq<LexResult>> := PerLine([line]);
    assert groups[1..] == [];
    if !EndsInError(groups[0]) {
      assert groups[0] + FlattenToError(groups[1..]) == groups[0];
    }
  }

  /** The document `let x = 1` lexes to the one token `let`: the one-character identifier `x` ends its line. */
  lemma LetDocument(line: string)
    requires line == "let x = 1"
    ensures Lex([line]) == Ok([Token(Ident, 1, "", "let")])
  {
    LetLine();
    OneLineDocument(line);
    var items := Tokens([line]);
    assert items == [Ok(Token(Ident, 1, "", "let"))];
    var r := Collect(items);
    assert r.Ok? && |r.value| == 1 && items[0] == Ok(r.value[0]);
    assert r.value == [r.value[0]];
  }
}
