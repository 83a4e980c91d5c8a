/**
 * The scan cursor of one line (`Lexing` in src/lexer/lexing.rs): the line,
 * the start of the current match and its end. Every character has width 1.
 */
module Cursor {
  import opened Wrappers

  /** The two halves `consume` splits a line into. */
  datatype LexMatch = LexMatch(leader: string, spelling: string)

  datatype Lexing = Lexing(line: string, start: nat, end: nat)

  /** The cursor invariant: the match lies inside the line. */
  predicate Valid(c: Lexing) {
    c.start <= c.end <= |c.line|
  }

  /** A fresh cursor at the beginning of `line`. */
  function New(line: string): (c: Lexing)
    ensures Valid(c) && c.line == line && c.start == 0 && c.end == 0
  {
    Lexing(line, 0, 0)
  }

  /**
   * Splits off the current match. The leader is everything before the match,
   * the spelling the match itself; the new cursor starts a fresh match where
   * the old one ended.
   */
  function Consume(c: Lexing): (r: (LexMatch, Lexing))
    requires Valid(c)
    ensures Valid(r.1) && r.1.line == c.line
    ensures r.1.start == c.end && r.1.end == c.end
    ensures r.0.leader + r.0.spelling == c.line[..c.end]
    ensures |r.0.leader| == c.start
  {
    var m := LexMatch(c.line[..c.start], c.line[c.start..c.end]);
    assert m.leader + m.spelling == c.line[..c.end] by {
      assert c.line[..c.end] == c.line[..c.start] + c.line[c.start..c.end];
    }
    (m, c.(start := c.end))
  }

  /** `consume` without the match. */
  function Discard(c: Lexing): (r: Lexing)
    requires Valid(c)
    ensures r == Consume(c).1
    ensures Valid(r) && r.line == c.line && r.start == c.end && r.end == c.end
  {
    Consume(c).1
  }

  /**
   * The character after the match, and the cursor whose match includes it;
   * None when the match already reaches the end of the line.
   */
  function Get(c: Lexing): (r: Option<(char, Lexing)>)
    requires Valid(c)
    ensures r.None? <==> c.end == |c.line|
    ensures r.Some? ==> r.value.0 == c.line[c.end] && Valid(r.value.1)
                        && r.value.1 == c.(end := c.end + 1)
  {
    if c.end == |c.line| then None else Some((c.line[c.end], c.(end := c.end + 1)))
  }

  /** Extends the match by exactly `n` characters, if the line is long enough. */
  function Take(c: Lexing, n: nat): (r: Option<Lexing>)
    requires Valid(c)
    ensures r.Some? <==> c.end + n <= |c.line|
    ensures r.Some? ==> Valid(r.value) && r.value == c.(end := c.end + n)
  {
    if c.end + n <= |c.line| then Some(c.(end := c.end + n)) else None
  }

  /**
   * The end of the longest run of `p`-characters of `line` starting at `i`:
   * every character in between satisfies `p` and the one at the end, if any,
   * does not.
   */
  function RunEnd(line: string, i: nat, p: char -> bool): (j: nat)
    requires i <= |line|
    ensures i <= j <= |line|
    ensures forall k :: i <= k < j ==> p(line[k])
    ensures j == |line| || !p(line[j])
    decreases |line| - i
  {
    if i < |line| && p(line[i]) then RunEnd(line, i + 1, p) else i
  }

  /**
   * `take_while`: extends the match over the maximal run of `p`-characters.
   * A run of length zero is reported as None, not as an unchanged cursor.
   */
  function TakeWhile(c: Lexing, p: char -> bool): (r: Option<Lexing>)
    requires Valid(c)
    ensures r.None? <==> (c.end == |c.line| || !p(c.line[c.end]))
    ensures r.Some? ==> Valid(r.value) && r.value.line == c.line && r.value.start == c.start
                        && c.end < r.value.end && r.value.end == RunEnd(c.line, c.end, p)
  {
    var j := RunEnd(c.line, c.end, p);
    if j == c.end then None else Some(c.(end := j))
  }

  /**
   * The loop of `take_while`: advance one character at a time while `p` holds,
   * remembering the last cursor taken.
   */
  method TakeWhileScan(c: Lexing, p: char -> bool) returns (taken: Option<Lexing>)
    requires Valid(c)
    ensures taken == TakeWhile(c, p)
  {
    var cur := c;
    taken := None;
    while true
      invariant Valid(cur) && cur.line == c.line && cur.start == c.start && c.end <= cur.end
      invariant RunEnd(c.line, c.end, p) == RunEnd(c.line, cur.end, p)
      invariant taken == if cur.end == c.end then None else Some(cur)
      decreases |cur.line| - cur.end
    {
      var next := Get(cur);
      if next.None? || !p(next.value.0) {
        break;
      }
      cur := next.value.1;
      taken := Some(cur);
    }
  }
}
