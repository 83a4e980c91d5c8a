# lark front end in Dafny

This project models the front end of the lark toy-language toolchain, with proofs:

- **The lexer.** A scan cursor over one line. A per-line tokenizer: a state machine on character classes, with a sub-loop for string literals. The document-level stream, which numbers lines from 1 and chains their tokenizers. And `lex`, which collects every token or returns the first error.
- **The parser-combinator engine.** Parsers run on a rewindable token sequence and fail with a single error value. It has:
  - the combinators `Map`, `OrElse`, `Within`, `List` and `FirstOf`;
  - the trivial parser of a type's own parse rule;
  - the zero-or-more rule of `Vec<T>`;
  - the parse rules for let bindings, functions, top-level items and files.

Modules, one per source file:

| module | file | source |
|---|---|---|
| `Cursor` | `cursor.dfy` | `src/lexer/lexing.rs` |
| `PubTypes` | `pubtypes.dfy` | `src/lexer/pubtypes.rs` |
| `LineLexing` | `line_lexer.dfy` | `src/lexer/line_lexer.rs` |
| `Lexer` | `lexer.dfy` | `src/lexer/mod.rs` |
| `Parse` | `parse.dfy` | `src/parse/mod.rs` |
| `Combinators` | `combinators.dfy` | `src/parse/combinators/mod.rs` |
| `Syn` | `syn.dfy` | `src/syn.rs` |

`Wrappers` (`wrappers.dfy`) holds `Option` and `Result`.

Shape of the model:
- The cursor's operations are pure functions on a value. Its `take_while` loop is also a method, `TakeWhileScan`, proved equal to the function.
- The line lexer is a class, `LineLexer`. Its `lexing` field is updated by `Next` and `Done`. `Next` is proved to do exactly what the pure step function `Step` describes, so the lemmas about `Step` hold for `Next`. The string sub-loop, a closure in the source, is the method `StringLoop`: a `while` loop proved to close exactly where the offset-level function `ScanString` says.
- A parser is a function value from the remaining tokens to a value and the tokens after it, or `ParseError`. Holding a copy of the sequence stands for holding a position.
- The loops of `Vec<T>::parse`, `List::parse` and `FirstOf::parse` are methods. Each is proved equal to a recursive specification function. The properties the source promises are then proved about those functions.

Where the code and the grammar comment at `src/syn.rs:4-23` or the evident expectation of a reader disagree, the model follows the code:

- **One-character identifiers and integers end the line.** An identifier or integer is read by `take_while` on the characters after its first one. That call reports a run of length zero as `None`, and `next` passes the `None` on with `?`. So `let x = 1` lexes to the single token `let` (`LineLexing.LetLine`, `Lexer.LetDocument`). The file parser then reads no item from it (`Syn.LetDocumentHoldsNoItem`).
- **A string token's spelling includes both quotes.** For example, `'a\'b'` is spelled with its quotes and its escape unresolved (`LineLexing.EscapedQuoteLine`).
- **An empty segment leaves a string unclosed.** The same `take_while` also reads each segment of a string. So a segment of length zero gives `UnclosedString`. This includes the empty literal `""` (`LineLexing.EmptyStringLine`), an escape right after the opening quote or right after another escape, and, most commonly, an escaped character right before the closing quote: `"a\""` is unclosed (`LineLexing.EscapeBeforeCloseLine`).
- **Errors are not consumed.** After an error, and at the end of the line, the cursor stays where it was, so the next call yields the same item again (`LineLexing.StepRepeats`). The stream of a line, and of the document, is therefore modelled up to and including its first error.
- **`List` keeps the value of a final unseparated element but not its tokens.** When an element parses and no separator follows it, the element is kept, but the remainder is rewound to before it. The remainder is always just after the last separator read (`Combinators.ListIsSeparatedChain`, `Combinators.ListLeavesUnseparatedElement`). So a list in the form of the comma-list rule at `src/syn.rs:22` without a trailing comma leaves its last element unread.
- **`,` is not a punctuation character** (`src/lexer/line_lexer.rs:100-102`). A comma in source text is therefore a `BadCharacter` error.
- **`Function::parse` reads neither the `fn` keyword nor the parentheses** that the grammar comment at `src/syn.rs:7` shows. It reads an identifier, the argument list and a block.
- **Two compile slips are modelled as evidently intended.** `FirstOf::parse` returns `Ok` of the first successful alternative's result. `List::parse` reassigns its `tokens`.

## Model

| member | source | states |
|---|---|---|
| Cursor.New | src/lexer/lexing.rs:16-18 | a fresh cursor is valid, covers the given line and has start = end = 0 |
| Cursor.Consume | src/lexer/lexing.rs:20-26 | the match's leader is the line before `start` and leader ++ spelling is the line up to `end`; the returned cursor keeps the line and has start = end = old end |
| Cursor.Discard | src/lexer/lexing.rs:28-31 | discarding is the cursor half of `consume`: start moves to end, nothing else changes |
| Cursor.Get | src/lexer/lexing.rs:33-38 | None exactly at the end of the line; otherwise the next character and the cursor one character further |
| Cursor.Take | src/lexer/lexing.rs:40-48 | succeeds exactly when `n` more characters fit in the line, and then extends the end by `n` |
| Cursor.RunEnd | src/lexer/lexing.rs:50-57 | the end of the maximal run of characters satisfying the predicate: all inside satisfy it, the one after does not |
| Cursor.TakeWhile | src/lexer/lexing.rs:50-57 | None exactly when the first character fails the predicate (or there is none); otherwise the end moves over the maximal run and line and start are kept |
| Cursor.TakeWhileScan | src/lexer/lexing.rs:50-57 | the `while let` loop returns exactly what `TakeWhile` specifies |
| PubTypes.Column | src/lexer/pubtypes.rs:31-34 | the column is one more than the leader's length, so at least 1 |
| PubTypes.Location | src/lexer/pubtypes.rs:36-38 | the location carries the token's line number and its column |
| PubTypes.Expect | src/lexer/pubtypes.rs:48-51 | Some exactly when the token has the expected kind, and then the token itself |
| PubTypes.ColumnIsOffset | src/lexer/pubtypes.rs:31-38 | a token whose leader is the line up to offset `start` is at column start + 1 of its line |
| LineLexing.IsWhitespace | src/lexer/line_lexer.rs:30 | Rust's `char::is_whitespace`: the Unicode White_Space characters, ASCII space and tab through carriage return included (no contract; `SkipWhitespace` and `TokenStart` state its use) |
| LineLexing.IsAlpha | src/lexer/line_lexer.rs:88-90 | an ASCII letter `a`-`z` or `A`-`Z` (no contract; `StepIdent` states its use) |
| LineLexing.IsIdentInitial | src/lexer/line_lexer.rs:84-86 | a letter or `_` (no contract; `StepIdent`, `StepIdentAlone` state its use) |
| LineLexing.IsIdentChar | src/lexer/line_lexer.rs:92-94 | an identifier initial or a digit (no contract; `StepIdent` states its use) |
| LineLexing.IsDigit | src/lexer/line_lexer.rs:96-98 | an ASCII digit `0`-`9` (no contract; `StepInt`, `StepIntAlone` state its use) |
| LineLexing.IsPunct | src/lexer/line_lexer.rs:100-102 | one of `+-=()`; `,` is not among them (no contract; `StepPunct` states its use) |
| LineLexing.IsQuote | src/lexer/line_lexer.rs:104-106 | `"` or `'` (no contract; `StepString` states its use) |
| LineLexing.InString | src/lexer/line_lexer.rs:52 | the closure of the segment `take_while`: neither a backslash nor the opening quote (no contract; `SegmentEndIsRun` ties it to `SegmentEnd`) |
| LineLexing.MakeToken | src/lexer/line_lexer.rs:19-23 | a token built from a match has the given kind and line number, leader ++ spelling is the line up to the match end, and the leader is the line before the match start |
| LineLexing.SkipWhitespace | src/lexer/line_lexer.rs:30-32 | the cursor moves past the whitespace run after its end; it is unchanged when there is none, and otherwise has no pending match |
| LineLexing.SegmentEnd | src/lexer/line_lexer.rs:52 | a segment of a string runs up to a backslash, the opening quote or the end of the line, whichever comes first |
| LineLexing.SegmentEndIsRun | src/lexer/line_lexer.rs:52 | the segment end is exactly where `take_while` over the string characters stops |
| LineLexing.ScanString | src/lexer/line_lexer.rs:51-65 | a closed string ends at least two characters after its contents start, on the opening quote, on the same line |
| LineLexing.Step | src/lexer/line_lexer.rs:29-81 | one call of `next` as a function of the cursor: the result cursor is valid on the same line with no pending match; a token lies strictly ahead of the old end, carries the line number, and its leader ++ spelling is the line up to the new end |
| LineLexing.LineLexer.constructor | src/lexer/line_lexer.rs:14-17 | a new lexer holds a fresh cursor over the line and the line's number |
| LineLexing.LineLexer.Done | src/lexer/line_lexer.rs:19-23 | stores the cursor past the match and returns the token of the match |
| LineLexing.LineLexer.StringLoop | src/lexer/line_lexer.rs:47-67 | the string closure: when `ScanString` closes the literal it returns the literal's token and stores the cursor past it; otherwise it returns None and leaves the lexer unchanged |
| LineLexing.RoundUnclosed | src/lexer/line_lexer.rs:52-58 | a round whose segment is empty, or that reaches the end of the line before closing or completing an escape, leaves the literal unclosed |
| LineLexing.RoundCloses | src/lexer/line_lexer.rs:52-62 | a round whose segment stops at the opening quote closes the literal just past that quote |
| LineLexing.RoundEscapes | src/lexer/line_lexer.rs:52-59 | a round whose segment stops at a backslash with a character after it continues the scan past that character |
| LineLexing.LineLexer.Next | src/lexer/line_lexer.rs:29-81 | the imperative `next`, calling `StringLoop` for a quote, yields exactly the item and new cursor that `Step` gives and keeps the lexer valid |
| LineLexing.TokenStart | src/lexer/line_lexer.rs:30-32 | where the next token begins: at or after the cursor end, at the end of the line or on a character that is not whitespace |
| LineLexing.SkipToTokenStart | src/lexer/line_lexer.rs:30-32 | a lexer between calls skips to a cursor with no pending match at the token start |
| LineLexing.StepAtEnd | src/lexer/line_lexer.rs:30-34 | with only whitespace left, `next` yields None and leaves the cursor at the end of the line |
| LineLexing.StepIdent | src/lexer/line_lexer.rs:37-40 | a letter or `_` followed by an identifier character gives one Ident token over the maximal run of identifier characters and resumes after it |
| LineLexing.StepIdentAlone | src/lexer/line_lexer.rs:37-38 | a letter or `_` not followed by an identifier character yields None: the line ends there |
| LineLexing.StepInt | src/lexer/line_lexer.rs:42-45 | two or more digits give one LitInt token over the maximal digit run and resume after it |
| LineLexing.StepIntAlone | src/lexer/line_lexer.rs:42-43 | a single digit yields None: the line ends there |
| LineLexing.StepPunct | src/lexer/line_lexer.rs:70-73 | one of `+-=()` gives a one-character Punct token and resumes right after it |
| LineLexing.StepBadCharacter | src/lexer/line_lexer.rs:75-77 | any other character gives BadCharacter of that character and the cursor stays in front of it |
| LineLexing.StringClose | src/lexer/line_lexer.rs:47-68 | a character-by-character reading of a string literal: where it closes, just past a character equal to the opening quote |
| LineLexing.StringCloseSkipsSegment | src/lexer/line_lexer.rs:52 | a non-empty run of ordinary string characters is read over as a whole |
| LineLexing.ScanStringIsStringClose | src/lexer/line_lexer.rs:47-68 | the string loop closes exactly where the character-by-character reading does |
| LineLexing.StepString | src/lexer/line_lexer.rs:47-68 | a quote gives a LitString token spelled from the opening quote through the closing one, or UnclosedString of the opening quote with the cursor left in front of the literal |
| LineLexing.StepRepeats | src/lexer/line_lexer.rs:29-81 | an error or the end of the line is not consumed: the next call yields the same item and the same cursor |
| LineLexing.StepWellSpelled | src/lexer/line_lexer.rs:29-81 | every token `next` yields is spelled as its kind demands: identifiers and integers of two or more characters of their class, strings quote to the same quote, punctuation one character of `+-=()` |
| LineLexing.Items | src/lexer/line_lexer.rs:26-81 | the items of a line lexer driven until it yields None, cut after its first error (no contract; `ItemsUnfold`, `ItemsErrorIsLast`, `ItemsInLine`, `ItemsInOrder` state it) |
| LineLexing.LineItems | src/lexer/line_lexer.rs:14-17 | the items of a fresh line lexer over a line (no contract; the example-line lemmas state it) |
| LineLexing.ItemsUnfold | src/lexer/line_lexer.rs:26-81 | a line's item sequence is the first item followed, after a token, by the items from the new cursor |
| LineLexing.ItemsErrorIsLast | src/lexer/line_lexer.rs:29-81 | in a line's items only the last can be an error |
| LineLexing.ItemsInLine | src/lexer/line_lexer.rs:29-81 | every token of a line carries the line's number, is well spelled, and its leader ++ spelling is a prefix of the line |
| LineLexing.ItemsInOrder | src/lexer/line_lexer.rs:29-81 | each token of a line ends before the next one begins |
| LineLexing.LetLine | src/lexer/line_lexer.rs:37-40 | the line `let x = 1` yields only the token `let`: the one-character `x` ends the line |
| LineLexing.EscapedQuoteLine | src/lexer/line_lexer.rs:47-68 | the line `'a\'b'` yields one string token spelled by the whole line, quotes and escape included |
| LineLexing.EscapeBeforeCloseLine | src/lexer/line_lexer.rs:52-58 | the line `"a\""` yields UnclosedString of `"`: the escape leaves an empty final segment |
| LineLexing.EmptyStringLine | src/lexer/line_lexer.rs:51-67 | the line `""` yields UnclosedString of `"` |
| LineLexing.UnterminatedStringLine | src/lexer/line_lexer.rs:51-67 | the line `"abc` yields UnclosedString of `"` |
| LineLexing.BadCharacterLine | src/lexer/line_lexer.rs:75-77 | the line `  @` yields BadCharacter of `@` |
| Lexer.Flatten | src/lexer/mod.rs:14-16 | all lines' items chained in order (no contract; `Lexer.FlattenToErrorIsCut` relates it to the stream) |
| Lexer.FlattenToError | src/lexer/mod.rs:14-16 | the flat-map of the line lexers, cut after the first line that ends in an error (no contract; `Lexer.FlattenErrorIsLast`, `Lexer.FlattenKeeps`, `Lexer.FlattenInOrder`, `Lexer.FlattenToErrorIsCut` state it) |
| Lexer.Tokens | src/lexer/mod.rs:13-31 | `Tokens::new`, `tokens` and `Tokens::next`: the document's stream (no contract; `Lexer.StreamIsFlatMap`, `Lexer.StreamErrorIsLast`, `Lexer.StreamTokensLocated` state it) |
| Lexer.Lex | src/lexer/mod.rs:33-35 | `lex`: the stream collected into a Result (no contract; `Lexer.LexIsFirstError` and `Lexer.LexTokensLocated` state it) |
| Lexer.PerLine | src/lexer/mod.rs:13-18 | line `i` of the document is lexed with line number `i + 1` |
| Lexer.Collect | src/lexer/mod.rs:33-35 | Ok exactly when no item is an error, and then the tokens in order; otherwise the first error |
| Lexer.FlattenErrorIsLast | src/lexer/mod.rs:13-18 | chaining lines whose errors come last gives a stream whose only error is its last item |
| Lexer.FlattenKeeps | src/lexer/mod.rs:13-18 | a property of every item of every line holds for every item of the stream |
| Lexer.FlattenInOrder | src/lexer/mod.rs:13-18 | the stream's line numbers start at the first line's and never decrease |
| Lexer.FlattenToErrorIsCut | src/lexer/mod.rs:13-18 | without errors the stream is all lines chained; otherwise it is the lines before the first failing one followed by that line's items |
| Lexer.StreamErrorIsLast | src/lexer/mod.rs:13-26 | in a document's stream only the last item can be an error |
| Lexer.StreamTokensLocated | src/lexer/mod.rs:13-26 | every token of the stream lies on the document line its number names, and line numbers never decrease |
| Lexer.StreamIsFlatMap | src/lexer/mod.rs:13-31 | the stream is the flat-map of the line lexers over the lines, cut after the first line that fails |
| Lexer.LexIsFirstError | src/lexer/mod.rs:33-35 | `lex` succeeds exactly when the stream has no error, then returns the stream's tokens; otherwise the stream's last item is its error |
| Lexer.LexTokensLocated | src/lexer/mod.rs:33-35 | every token `lex` returns lies on the line it names, in non-decreasing line order |
| Lexer.CollectKeeps | src/lexer/mod.rs:33-35 | collecting keeps the location and order facts of the items |
| Lexer.BlankLineYieldsNothing | src/lexer/line_lexer.rs:30-34 | a whitespace-only line yields no items |
| Lexer.WhitespaceOnlyLexesEmpty | src/lexer/mod.rs:33-35 | a document of whitespace only lexes to no tokens |
| Lexer.EmptyGroupsFlatten | src/lexer/mod.rs:13-18 | chaining lines that yield nothing yields nothing |
| Lexer.OneLineDocument | src/lexer/mod.rs:13-18 | the stream of a one-line document is that line's items, numbered 1 |
| Lexer.LetDocument | src/lexer/mod.rs:33-35 | the document `let x = 1` lexes to the single token `let` |
| Parse.ParseErrorIsUnique | src/parse/mod.rs:4-7 | there is exactly one parse error value |
| Parse.Trivial | src/parse/mod.rs:43-55 | the trivial parser of a type parses exactly as its parse rule on every input |
| Parse.Many | src/parse/mod.rs:57-71 | zero-or-more reads from the front, stops where the element first fails, returns no values and the unchanged input when it fails at once, and returns at most as many values as tokens it consumed |
| Parse.ManyIsMaximalChain | src/parse/mod.rs:57-71 | zero-or-more returns (values, rest) exactly when values are a chain of successive element parses from the input ending at rest and the element fails at rest |
| Parse.ManyIsChain | src/parse/mod.rs:60-69 | what zero-or-more returns is such a chain |
| Parse.MaximalChainIsMany | src/parse/mod.rs:60-69 | any such chain that ends where the element fails is what zero-or-more returns |
| Parse.ParseMany | src/parse/mod.rs:57-71 | the loop of `Vec<T>::parse` never fails and returns exactly zero-or-more's values and remainder |
| Combinators.MapParse | src/parse/combinators/mod.rs:20-23 | succeeds exactly when the inner parser does, with the function applied to its value and its remainder unchanged |
| Combinators.Map | src/parse/mod.rs:15-19 | the built Map consumes no more than the inner parser: it keeps reading forward, and keeps consuming at least one token on success |
| Combinators.MapIdentity | src/parse/combinators/mod.rs:20-23 | mapping the identity changes nothing |
| Combinators.MapFusion | src/parse/combinators/mod.rs:20-23 | two maps are one map of the composed function |
| Combinators.OrElseParse | src/parse/combinators/mod.rs:44-47 | the left result when the left parser succeeds, otherwise the right parser on the original tokens; fails exactly when both fail |
| Combinators.OrElse | src/parse/mod.rs:21-25 | an alternation of forward-reading (progressing) parsers is forward-reading (progressing) |
| Combinators.OrElseAssociative | src/parse/combinators/mod.rs:44-47 | alternation is associative |
| Combinators.OrElseFailIdentity | src/parse/combinators/mod.rs:44-47 | an always-failing alternative on either side changes nothing |
| Combinators.WithinParse | src/parse/combinators/mod.rs:70-75 | succeeds exactly when open, inner and close succeed in sequence; the value is inner's and the remainder is after close |
| Combinators.Within | src/parse/mod.rs:27-32 | the built Within reads forward when its parts do, and consumes at least one token when its opening parser does |
| Combinators.ListResult | src/parse/combinators/mod.rs:96-113 | a list reads from the front; when the first element fails it is empty and consumes nothing |
| Combinators.ListUnfold | src/parse/combinators/mod.rs:99-110 | an element followed by a separator is one list entry followed by the list after the separator |
| Combinators.ListOfEquivalent | src/parse/combinators/mod.rs:96-113 | a list depends only on what its element parser does, not on how that parser is built |
| Combinators.List | src/parse/mod.rs:34-38 | the built List never fails and reads forward |
| Combinators.ParseList | src/parse/combinators/mod.rs:96-113 | the loop of `List::parse` never fails and returns exactly `ListResult` |
| Combinators.ListIsSeparatedChain | src/parse/combinators/mod.rs:99-112 | a list is element/separator pairs run back to back from the input to the returned remainder, then either a failing element or one element with no separator after it: as many elements as separators, or one more |
| Combinators.SeparatedChainIsList | src/parse/combinators/mod.rs:99-112 | conversely, any such pairs and stop are exactly what `List` returns |
| Combinators.ListLeavesUnseparatedElement | src/parse/combinators/mod.rs:100-108 | an element not followed by a separator is returned while the remainder rewinds to before it |
| Combinators.FirstOfResult | src/parse/combinators/mod.rs:132-140 | succeeds exactly when some alternative succeeds on the original tokens, and then returns the result of the first that does; fails on an empty list |
| Combinators.ParseFirstOf | src/parse/combinators/mod.rs:132-140 | the loop of `FirstOf::parse` returns exactly `FirstOfResult` |
| Combinators.FirstOfIsOrElseChain | src/parse/combinators/mod.rs:132-140 | `FirstOf` is `OrElse` folded over its alternatives, ending in failure |
| Syn.Expect | src/syn.rs:85-93 | fails on exhausted input; succeeds exactly when the next token has the kind and spelling, and then consumes exactly that token |
| Syn.ParseLetBinding | src/syn.rs:99-107 | `LetBinding::parse`: `let`, identifier, `=`, expression, each `?` passing a failure on (no contract; `Syn.LetBindingShape` and `Syn.LetBindingFails` state it) |
| Syn.LetBindingShape | src/syn.rs:100-106 | a let binding starts with `let`, its name is what the identifier parser reads next, the token after it is `=`, its value is what the expression parser reads after that, and it consumes at least four tokens |
| Syn.LetBindingFails | src/syn.rs:100-106 | a let binding fails exactly when one of its four steps fails |
| Syn.LetBindingParser | src/syn.rs:99-107 | the let-binding rule consumes at least one token when it succeeds |
| Syn.Arguments | src/syn.rs:112-114 | the argument list is `List` of the argument parser separated by `,` |
| Syn.ParseFunction | src/syn.rs:109-118 | `Function::parse`: identifier, argument list, block (no contract; `Syn.FunctionShape` states it) |
| Syn.FunctionShape | src/syn.rs:110-117 | a function is an identifier read from the first token, the argument list after it, and a block after the list; it fails exactly when the identifier or the block does, and consumes at least two tokens |
| Syn.FunctionParser | src/syn.rs:109-118 | the function rule consumes at least one token when it succeeds |
| Syn.TopLevelParser | src/syn.rs:120-130 | the top-level rule consumes at least one token when it succeeds |
| Syn.TopLevelChoice | src/syn.rs:120-130 | a function is tried first; a let binding is tried on the same tokens only when it fails; each is wrapped in its variant; the item fails exactly when both do |
| Syn.ParseFile | src/syn.rs:132-137 | a file never fails: its items are a chain of successive top-level parses and the remainder is where the next one fails |
| Syn.EmptyFile | src/syn.rs:132-137 | no tokens give an empty file |
| Syn.OneTokenHoldsNoItem | src/syn.rs:100-137 | a single token is neither a let binding nor any item; the file read from it is empty and leaves it unread |
| Syn.LetDocumentHoldsNoItem | src/syn.rs:100-137 | the tokens of the document `let x = 1` are not a let binding, and the file read from them is empty |

## Left out

- `src/main.rs` is not part of this model. It loads a file and unwraps the result, which is I/O and glue.
- Splitting the document into lines (`str::lines`) is not modelled. The document is given as its sequence of lines.
- `Cursor.Take`: the sum `end + n` is unbounded, so it does not model the `usize` overflow of that sum in the source (a panic in a debug build, a wrap-around in a release build, which could pass the length check and give a cursor whose end is before its start). Nothing in the lexer calls `take`.
- Offsets count characters, not UTF-8 bytes. A character is one unit wide, where `get` advances by `len_utf8`.
- Lifetimes, borrowing, `PhantomData`, boxed iterators and `&dyn Parser` dispatch are not modelled. Token sequences are Dafny sequences and parsers are function values.
- The plain constructors (`Token::new`, `Function::new`, `File::new`) and the accessors `kind` and `spelling` are not separate members. They are the datatype constructors and fields.
- `Lexer.Tokens`: models the document's stream up to and including its first error. The source's lazy stream would repeat that error forever (`LineLexing.StepRepeats`).
- `LineLexing.Items`: same cut as `Lexer.Tokens`, for a single line.
- The identifier, expression, block and argument parsers and `punct` are not defined in the source. They are parameters (`Syn.Rules`), assumed only to read forward and take at least one token on success (`Syn.WellFormed`).
- `Parse.ParseMany`, `Parse.Many`: require the element parser to consume at least one token whenever it succeeds. The source loops forever otherwise.
- `Combinators.ParseList`, `Combinators.ListResult`: same requirement on the element parser, and the separator parser must read forward.
- The syntax tree's `Expr`, `Statement` and `Block` shapes are declared, but nothing is proved about them. Their parsers are not part of the source.
