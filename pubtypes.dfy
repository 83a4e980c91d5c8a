/** Tokens, their locations and the lexical errors (src/lexer/pubtypes.rs). */
module PubTypes {
  import opened Wrappers

  /** A source location: 1-based line and column. */
  datatype SrcLoc = SrcLoc(line: nat, column: nat)

  datatype TokenKind = Ident | LitInt | LitString | Punct

  /**
   * A token: its kind, the number of the line it was read from, the text of
   * that line before it (the leader) and its own text (the spelling). The
   * fields are the constructor's arguments, so `kind()` and `spelling()` are
   * the field selectors `kind` and `spelling`.
   */
  datatype Token = Token(kind: TokenKind, lineNum: nat, leader: string, spelling: string)

  datatype LexError = BadCharacter(ch: char) | UnclosedString(quote: char)

  type LexResult = Result<Token, LexError>

  /** The column: one past the length of the leader, so never 0. */
  function Column(t: Token): (col: nat)
    ensures col >= 1
    ensures col - 1 == |t.leader|
  {
    |t.leader| + 1
  }

  /** The token's location: its line number and its column. */
  function Location(t: Token): (loc: SrcLoc)
    ensures loc.line == t.lineNum
    ensures loc.column >= 1 && loc.column == Column(t)
  {
    SrcLoc(t.lineNum, Column(t))
  }

  /** The token itself when it has kind `kind`, otherwise None. */
  function Expect(t: Token, kind: TokenKind): (r: Option<Token>)
    ensures r.Some? <==> t.kind == kind
    ensures r.Some? ==> r.value == t
  {
    if kind == t.kind then Some(t) else None
  }

  /** A token of a line at offset `start`: its leader is the line up to there, so its column is `start + 1`. */
  lemma ColumnIsOffset(line: string, start: nat, end: nat, kind: TokenKind, n: nat)
    requires start <= end <= |line|
    ensures Column(Token(kind, n, line[..start], line[start..end])) == start + 1
    ensures Location(Token(kind, n, line[..start], line[start..end])) == SrcLoc(n, start + 1)
  {
  }
}
