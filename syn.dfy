/**
 * The syntax tree and the parse rules of src/syn.rs. The parsers for
 * identifiers, expressions, blocks, arguments and punctuation are not
 * defined by the source; they are parameters here (`Rules`), each known only
 * to consume at least one token when it succeeds.
 */
module Syn {
  import opened Wrappers
  import opened PubTypes
  import opened Parse
  import opened Combinators
  import Lexer

  datatype Ident = Ident(token: Token)
  datatype Argument = Argument(token: Token)

  datatype Expr =
    | Call(callee: Ident, args: seq<Expr>)
    | Name(name: Ident)
    | LitInt(literal: Token)
    | LitString(literal: Token)

  datatype LetBinding = LetBinding(name: Ident, value: Expr)

  datatype Statement = LetStatement(binding: LetBinding) | Return(value: Expr)

  datatype Block = Block(statements: seq<Statement>)

  datatype Function = Function(name: Ident, arguments: seq<Argument>, body: Block)

  datatype TopLevel = TopFunction(item: Function) | TopLetBinding(binding: LetBinding)

  datatype File = File(toplevels: seq<TopLevel>)

  /** The parsers the rules below are built on, which the source uses but does not define. */
  datatype Rules = Rules(
    ident: Parser<Ident>,
    expr: Parser<Expr>,
    block: Parser<Block>,
    argument: Parser<Argument>,
    punct: char -> Parser<Token>)

  /** Every one of them reads forward and takes at least one token when it succeeds. */
  ghost predicate WellFormed(rules: Rules) {
    && Progressing(rules.ident)
    && Progressing(rules.expr)
    && Progressing(rules.block)
    && Progressing(rules.argument)
    && Progressing(rules.punct(','))
  }

  /**
   * `TokenIteratorExt::expect`: the tokens after the next one, when the next
   * one has the given kind and spelling. Fails on exhausted input.
   */
  function Expect(ts: seq<Token>, kind: TokenKind, spelling: string): (r: Result<seq<Token>, ParseError>)
    ensures ts == [] ==> r.Err?
    ensures r.Ok? <==> ts != [] && ts[0].kind == kind && ts[0].spelling == spelling
    ensures r.Ok? ==> r.value == ts[1..] && IsSuffix(r.value, ts) && |r.value| + 1 == |ts|
  {
    if ts == [] then Err(ParseError)
    else if ts[0].kind == kind && ts[0].spelling == spelling then Ok(ts[1..])
    else Err(ParseError)
  }

  /** `LetBinding::parse`: `let`, an identifier, `=`, an expression, in that order; any failure fails it. */
  function ParseLetBinding(rules: Rules, ts: seq<Token>): (r: ParseResult<LetBinding>)
  {
    match Expect(ts, TokenKind.Ident, "let")
    case Err(e) => Err(e)
    case Ok(afterLet) =>
      match rules.ident(afterLet)
      case Err(e) => Err(e)
      case Ok((name, afterName)) =>
        match Expect(afterName, Punct, "=")
        case Err(e) => Err(e)
        case Ok(afterEquals) =>
          match rules.expr(afterEquals)
          case Err(e) => Err(e)
          case Ok((value, rest)) => Ok((LetBinding(name, value), rest))
  }

  /**
   * A let binding is read from the front of the tokens: it starts with the
   * `let` keyword, its name is what the identifier parser reads after it, the
   * token after the name is `=`, and its value is what the expression parser
   * reads after that. At least four tokens are consumed.
   */
  lemma LetBindingShape(rules: Rules, ts: seq<Token>)
    requires WellFormed(rules)
    requires ParseLetBinding(rules, ts).Ok?
    ensures ts != [] && ts[0].kind == TokenKind.Ident && ts[0].spelling == "let"
    ensures rules.ident(ts[1..]).Ok?
      && ParseLetBinding(rules, ts).value.0.name == rules.ident(ts[1..]).value.0
    ensures var afterName := rules.ident(ts[1..]).value.1;
      afterName != [] && afterName[0].kind == Punct && afterName[0].spelling == "="
      && rules.expr(afterName[1..]) == Ok((ParseLetBinding(rules, ts).value.0.value, ParseLetBinding(rules, ts).value.1))
    ensures IsSuffix(ParseLetBinding(rules, ts).value.1, ts)
    ensures |ParseLetBinding(rules, ts).value.1| + 4 <= |ts|
  {
    var afterName := rules.ident(ts[1..]).value.1;
    IsSuffixTransitive(afterName, ts[1..], ts);
    IsSuffixTransitive(afterName[1..], afterName, ts);
    IsSuffixTransitive(ParseLetBinding(rules, ts).value.1, afterName[1..], ts);
  }

  /** Any failure along the way fails the let binding. */
  lemma LetBindingFails(rules: Rules, ts: seq<Token>)
    ensures ParseLetBinding(rules, ts).Err? <==>
      || Expect(ts, TokenKind.Ident, "let").Err?
      || rules.ident(ts[1..]).Err?
      || Expect(rules.ident(ts[1..]).value.1, Punct, "=").Err?
      || rules.expr(rules.ident(ts[1..]).value.1[1..]).Err?
  {
  }

  /** The let-binding rule as a parser; it consumes at least one token when it succeeds. */
  function LetBindingParser(rules: Rules): (p: Parser<LetBinding>)
    requires WellFormed(rules)
    ensures Progressing(p)
  {
    var p := ts => ParseLetBinding(rules, ts);
    assert Progressing(p) by {
      forall ts | p(ts).Ok? ensures IsSuffix(p(ts).value.1, ts) && |p(ts).value.1| < |ts| {
        LetBindingShape(rules, ts);
      }
    }
    p
  }

  /** The argument list of a function: arguments separated by `,`. */
  function Arguments(rules: Rules): (p: Parser<seq<Argument>>)
    requires WellFormed(rules)
    ensures forall ts :: p(ts) == Ok(ListResult(rules.argument, rules.punct(','), ts))
  {
    var argument := Trivial(rules.argument);
    ListOfEquivalent(rules.argument, argument, rules.punct(','), []);
    assert forall ts :: ListResult(argument, rules.punct(','), ts) == ListResult(rules.argument, rules.punct(','), ts) by {
      forall ts {
        ListOfEquivalent(rules.argument, argument, rules.punct(','), ts);
      }
    }
    List(argument, rules.punct(','))
  }

  /**
   * `Function::parse`: an identifier, the argument list, a block. Neither
   * the `fn` keyword nor parentheses around the arguments are read.
   */
  function ParseFunction(rules: Rules, ts: seq<Token>): (r: ParseResult<Function>)
    requires WellFormed(rules)
  {
    match rules.ident(ts)
    case Err(e) => Err(e)
    case Ok((name, afterName)) =>
      match Arguments(rules)(afterName)
      case Err(e) => Err(e)
      case Ok((arguments, afterArguments)) =>
        match rules.block(afterArguments)
        case Err(e) => Err(e)
        case Ok((body, rest)) => Ok((Function(name, arguments, body), rest))
  }

  /**
   * A function is read from the very first token by the identifier parser,
   * followed by whatever argument list `List` returns there and a block
   * read from where that list stops; it fails exactly when the identifier
   * or the block does. It consumes at least two tokens.
   */
  lemma FunctionShape(rules: Rules, ts: seq<Token>)
    requires WellFormed(rules)
    ensures ParseFunction(rules, ts).Ok? <==>
      rules.ident(ts).Ok?
      && rules.block(ListResult(rules.argument, rules.punct(','), rules.ident(ts).value.1).1).Ok?
    ensures ParseFunction(rules, ts).Ok? ==>
      && ParseFunction(rules, ts).value.0.name == rules.ident(ts).value.0
      && ParseFunction(rules, ts).value.0.arguments
         == ListResult(rules.argument, rules.punct(','), rules.ident(ts).value.1).0
      && (ParseFunction(rules, ts).value.0.body, ParseFunction(rules, ts).value.1)
         == rules.block(ListResult(rules.argument, rules.punct(','), rules.ident(ts).value.1).1).value
    ensures ParseFunction(rules, ts).Ok? ==>
      IsSuffix(ParseFunction(rules, ts).value.1, ts) && |ParseFunction(rules, ts).value.1| + 2 <= |ts|
  {
    if ParseFunction(rules, ts).Ok? {
      var afterName := rules.ident(ts).value.1;
      var afterArguments := ListResult(rules.argument, rules.punct(','), afterName).1;
      IsSuffixTransitive(afterArguments, afterName, ts);
      IsSuffixTransitive(ParseFunction(rules, ts).value.1, afterArguments, ts);
    }
  }

  /** The function rule as a parser; it consumes at least one token when it succeeds. */
  function FunctionParser(rules: Rules): (p: Parser<Function>)
    requires WellFormed(rules)
    ensures Progressing(p)
  {
    var p := ts => ParseFunction(rules, ts);
    assert Progressing(p) by {
      forall ts | p(ts).Ok? ensures IsSuffix(p(ts).value.1, ts) && |p(ts).value.1| < |ts| {
        FunctionShape(rules, ts);
      }
    }
    p
  }

  /** `TopLevel::parse`: a function, or else a let binding from the same start, in the matching variant. */
  function TopLevelParser(rules: Rules): (p: Parser<TopLevel>)
    requires WellFormed(rules)
    ensures Progressing(p)
  {
    OrElse(
      Map(FunctionParser(rules), (f: Function) => TopFunction(f)),
      Map(LetBindingParser(rules), (b: LetBinding) => TopLetBinding(b)))
  }

  /** A function wins over a let binding; the let binding is tried on the same tokens; it fails only when both do. */
  lemma TopLevelChoice(rules: Rules, ts: seq<Token>)
    requires WellFormed(rules)
    ensures ParseFunction(rules, ts).Ok? ==>
      TopLevelParser(rules)(ts)
      == Ok((TopFunction(ParseFunction(rules, ts).value.0), ParseFunction(rules, ts).value.1))
    ensures ParseFunction(rules, ts).Err? && ParseLetBinding(rules, ts).Ok? ==>
      TopLevelParser(rules)(ts)
      == Ok((TopLetBinding(ParseLetBinding(rules, ts).value.0), ParseLetBinding(rules, ts).value.1))
    ensures TopLevelParser(rules)(ts).Err? <==>
      ParseFunction(rules, ts).Err? && ParseLetBinding(rules, ts).Err?
  {
  }

  /**
   * `File::parse`: zero or more top-level items. It never fails; the items
   * are a chain of successful top-level parses and the remainder is where
   * the next one fails.
   */
  function ParseFile(rules: Rules, ts: seq<Token>): (r: ParseResult<File>)
    requires WellFormed(rules)
    ensures r.Ok?
    ensures Chain(TopLevelParser(rules), ts, r.value.0.toplevels, r.value.1)
    ensures TopLevelParser(rules)(r.value.1).Err?
    ensures IsSuffix(r.value.1, ts)
  {
    var (toplevels, rest) := Many(TopLevelParser(rules), ts);
    ManyIsMaximalChain(TopLevelParser(rules), ts, toplevels, rest);
    Ok((File(toplevels), rest))
  }

  /** Nothing to read is an empty file. */
  lemma EmptyFile(rules: Rules)
    requires WellFormed(rules)
    ensures ParseFile(rules, []) == Ok((File([]), []))
  {
    var r := ParseFile(rules, []);
    assert IsSuffix(r.value.1, []);
    assert r.value.1 == [];
  }

  /** One token is too few for any top-level item: the file read from it is empty and leaves it unread. */
  lemma OneTokenHoldsNoItem(rules: Rules, t: Token)
    requires WellFormed(rules)
    ensures ParseLetBinding(rules, [t]).Err?
    ensures ParseFile(rules, [t]) == Ok((File([]), [t]))
  {
    var ts := [t];
    if ParseLetBinding(rules, ts).Ok? {
      LetBindingShape(rules, ts);
    }
    FunctionShape(rules, ts);
    TopLevelChoice(rules, ts);
    assert TopLevelParser(rules)(ts).Err?;
    var r := ParseFile(rules, ts);
    assert r.value.0.toplevels == [];
  }

  /**
   * End to end: the tokens of the document `let x = 1` are not a let
   * binding, whatever the abstract parsers, and the file read from them holds
   * no item and leaves the `let` token unread.
   */
  lemma LetDocumentHoldsNoItem(rules: Rules, line: string)
    requires WellFormed(rules) && line == "let x = 1"
    ensures Lexer.Lex([line]).Ok?
    ensures ParseLetBinding(rules, Lexer.Lex([line]).value).Err?
    ensures ParseFile(rules, Lexer.Lex([line]).value) == Ok((File([]), Lexer.Lex([line]).value))
  {
    Lexer.LetDocument(line);
    OneTokenHoldsNoItem(rules, Token(TokenKind.Ident, 1, "", "let"));
  }
}
