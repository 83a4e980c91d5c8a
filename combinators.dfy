/**
 * The parser combinators (src/parse/combinators/mod.rs) and the builder
 * methods of the `Parser` trait (src/parse/mod.rs) that construct them.
 * Each combinator's `parse` is a function of the parsers it holds and the
 * tokens; the two that loop, `List` and `FirstOf`, are also given as loop
 * methods proved equal to those functions.
 */
module Combinators {
  import opened Wrappers
  import opened PubTypes
  import opened Parse

  // ---------------------------------------------------------------------
  // Map

  /** `Map::parse`: the inner parse with its value passed through `func`; the same tokens are consumed. */
  function MapParse<A, B>(inner: Parser<A>, func: A -> B, ts: seq<Token>): (r: ParseResult<B>)
    ensures r.Ok? <==> inner(ts).Ok?
    ensures r.Ok? ==> r.value.0 == func(inner(ts).value.0) && r.value.1 == inner(ts).value.1
  {
    match inner(ts)
    case Ok((v, rest)) => Ok((func(v), rest))
    case Err(e) => Err(e)
  }

  /** `Parser::map`: builds the `Map` combinator; it consumes exactly what `inner` consumes. */
  function Map<A, B>(inner: Parser<A>, func: A -> B): (p: Parser<B>)
    ensures Suffixing(inner) ==> Suffixing(p)
    ensures Progressing(inner) ==> Progressing(p)
  {
    ts => MapParse(inner, func, ts)
  }

  /** Mapping the identity changes nothing. */
  lemma MapIdentity<A>(inner: Parser<A>, ts: seq<Token>)
    ensures MapParse(inner, x => x, ts) == inner(ts)
  {
  }

  /** Two maps in a row are one map of the composed function. */
  lemma MapFusion<A, B, C>(inner: Parser<A>, f: A -> B, g: B -> C, ts: seq<Token>)
    ensures MapParse(Map(inner, f), g, ts) == MapParse(inner, x => g(f(x)), ts)
  {
  }

  // ---------------------------------------------------------------------
  // OrElse

  /** `OrElse::parse`: the left result if it succeeds, otherwise the right parser run on the original tokens. */
  function OrElseParse<O>(left: Parser<O>, right: Parser<O>, ts: seq<Token>): (r: ParseResult<O>)
    ensures left(ts).Ok? ==> r == left(ts)
    ensures left(ts).Err? ==> r == right(ts)
    ensures r.Ok? <==> left(ts).Ok? || right(ts).Ok?
  {
    match left(ts)
    case Ok(tup) => Ok(tup)
    case Err(_) => right(ts)
  }

  /** `Parser::or_else`: builds the `OrElse` combinator. */
  function OrElse<O>(left: Parser<O>, right: Parser<O>): (p: Parser<O>)
    ensures Suffixing(left) && Suffixing(right) ==> Suffixing(p)
    ensures Progressing(left) && Progressing(right) ==> Progressing(p)
  {
    ts => OrElseParse(left, right, ts)
  }

  /** Alternation is associative. */
  lemma OrElseAssociative<O>(a: Parser<O>, b: Parser<O>, c: Parser<O>, ts: seq<Token>)
    ensures OrElseParse(OrElse(a, b), c, ts) == OrElseParse(a, OrElse(b, c), ts)
  {
  }

  /** The parser that always fails. */
  function Fail<O>(): (p: Parser<O>)
    ensures forall ts :: p(ts).Err?
  {
    ts => Err(ParseError)
  }

  /** A failing alternative on either side changes nothing. */
  lemma OrElseFailIdentity<O>(p: Parser<O>, ts: seq<Token>)
    ensures OrElseParse(Fail(), p, ts) == p(ts)
    ensures OrElseParse(p, Fail(), ts) == p(ts)
  {
    if p(ts).Err? {
      assert p(ts).error.ParseError?;
    }
  }

  // ---------------------------------------------------------------------
  // Within

  /**
   * `Within::parse`: `open`, `inner` and `close` in sequence, each from
   * where the previous stopped; the value is `inner`'s and the remainder is
   * what `close` leaves. Any failure is the failure of the whole.
   */
  function WithinParse<I, P, C>(inner: Parser<I>, open: Parser<P>, close: Parser<C>, ts: seq<Token>): (r: ParseResult<I>)
    ensures r.Ok? <==>
      open(ts).Ok? && inner(open(ts).value.1).Ok? && close(inner(open(ts).value.1).value.1).Ok?
    ensures r.Ok? ==>
      r.value == (inner(open(ts).value.1).value.0, close(inner(open(ts).value.1).value.1).value.1)
  {
    match open(ts)
    case Err(e) => Err(e)
    case Ok((_, afterOpen)) =>
      match inner(afterOpen)
      case Err(e) => Err(e)
      case Ok((result, afterInner)) =>
        match close(afterInner)
        case Err(e) => Err(e)
        case Ok((_, afterClose)) => Ok((result, afterClose))
  }

  /** `Parser::within`: builds the `Within` combinator. */
  function Within<I, P, C>(inner: Parser<I>, open: Parser<P>, close: Parser<C>): (p: Parser<I>)
    ensures Suffixing(inner) && Suffixing(open) && Suffixing(close) ==> Suffixing(p)
    ensures Suffixing(inner) && Progressing(open) && Suffixing(close) ==> Progressing(p)
  {
    ts => WithinParse(inner, open, close, ts)
  }

  // ---------------------------------------------------------------------
  // List

  /**
   * `List::parse`: elements separated by separators. An element that is
   * not followed by a separator is still returned, but the tokens it took
   * are not: the remainder is just after the last separator read, or the
   * input when there was none. Never fails.
   */
  function ListResult<E, S>(element: Parser<E>, separator: Parser<S>, ts: seq<Token>): (r: (seq<E>, seq<Token>))
    requires Progressing(element) && Suffixing(separator)
    ensures IsSuffix(r.1, ts)
    ensures element(ts).Err? ==> r == ([], ts)
    decreases |ts|
  {
    match element(ts)
    case Err(_) => ([], ts)
    case Ok((e, rest)) =>
      match separator(rest)
      case Err(_) => ([e], ts)
      case Ok((_, after)) =>
        IsSuffixTransitive(after, rest, ts);
        var (es, last) := ListResult(element, separator, after);
        IsSuffixTransitive(last, after, ts);
        ([e] + es, last)
  }

  /** One element and one separator, then the rest of the list. */
  lemma ListUnfold<E, S>(element: Parser<E>, separator: Parser<S>, ts: seq<Token>)
    requires Progressing(element) && Suffixing(separator)
    requires element(ts).Ok? && separator(element(ts).value.1).Ok?
    ensures ListResult(element, separator, ts) ==
      ([element(ts).value.0] + ListResult(element, separator, separator(element(ts).value.1).value.1).0,
       ListResult(element, separator, separator(element(ts).value.1).value.1).1)
  {
  }

  /** `List` depends only on what its parsers do, not on how they are built. */
  lemma {:induction false} ListOfEquivalent<E, S>(element: Parser<E>, same: Parser<E>, separator: Parser<S>, ts: seq<Token>)
    requires Progressing(element) && Suffixing(separator)
    requires forall t :: same(t) == element(t)
    ensures Progressing(same)
    ensures ListResult(same, separator, ts) == ListResult(element, separator, ts)
    decreases |ts|
  {
    if element(ts).Ok? && separator(element(ts).value.1).Ok? {
      var after := separator(element(ts).value.1).value.1;
      ListOfEquivalent(element, same, separator, after);
      ListUnfold(element, separator, ts);
      ListUnfold(same, separator, ts);
    }
  }

  /** `Parser::list`: builds the `List` combinator, which never fails. */
  function List<E, S>(element: Parser<E>, separator: Parser<S>): (p: Parser<seq<E>>)
    requires Progressing(element) && Suffixing(separator)
    ensures forall ts :: p(ts).Ok?
    ensures Suffixing(p)
  {
    ts => Ok(ListResult(element, separator, ts))
  }

  /** The loop of `List::parse`. */
  method ParseList<E, S>(element: Parser<E>, separator: Parser<S>, tokens: seq<Token>) returns (r: ParseResult<seq<E>>)
    requires Progressing(element) && Suffixing(separator)
    ensures r == Ok(ListResult(element, separator, tokens))
  {
    var elements: seq<E> := [];
    var rest := tokens;
    assert elements + ListResult(element, separator, rest).0 == ListResult(element, separator, rest).0;
    while true
      invariant ListResult(element, separator, tokens)
        == (elements + ListResult(element, separator, rest).0, ListResult(element, separator, rest).1)
      decreases |rest|
    {
      var first := element(rest);
      if first.Err? {
        assert elements + ListResult(element, separator, rest).0 == elements;
        break;
      }
      var (e, afterElement) := first.value;
      ghost var before := elements;
      elements := elements + [e];
      var sep := separator(afterElement);
      if sep.Err? {
        break;
      }
      var afterSeparator := sep.value.1;
      ListUnfold(element, separator, rest);
      ghost var tail := ListResult(element, separator, afterSeparator).0;
      AppendAssociative(before, [e], tail);
      rest := afterSeparator;
    }
    return Ok((elements, rest));
  }

  lemma AppendAssociative<T>(a: seq<T>, b: seq<T>, c: seq<T>)
    ensures a + (b + c) == (a + b) + c
  {
  }

  /** `values` came from element, separator pairs run back to back from `ts` to `rest`. */
  ghost predicate SeparatedChain<E, S>(element: Parser<E>, separator: Parser<S>, ts: seq<Token>, values: seq<E>, rest: seq<Token>)
    decreases |values|
  {
    if values == [] then rest == ts
    else element(ts).Ok? && element(ts).value.0 == values[0]
         && separator(element(ts).value.1).Ok?
         && SeparatedChain(element, separator, separator(element(ts).value.1).value.1, values[1..], rest)
  }

  /** How a list ends at `rest`: the element fails (`tail` empty), or it parses but no separator follows (`tail` is that one value). */
  ghost predicate ListStop<E, S>(element: Parser<E>, separator: Parser<S>, rest: seq<Token>, tail: seq<E>) {
    if element(rest).Err? then tail == []
    else separator(element(rest).value.1).Err? && tail == [element(rest).value.0]
  }

  /** A list is separated pairs followed by a stop, so it holds as many elements as separators, or one more. */
  lemma {:induction false} ListIsSeparatedChain<E, S>(element: Parser<E>, separator: Parser<S>, ts: seq<Token>)
    requires Progressing(element) && Suffixing(separator)
    ensures exists pairs, tail ::
      ListResult(element, separator, ts).0 == pairs + tail
      && SeparatedChain(element, separator, ts, pairs, ListResult(element, separator, ts).1)
      && ListStop(element, separator, ListResult(element, separator, ts).1, tail)
    decreases |ts|
  {
    var r := ListResult(element, separator, ts);
    if element(ts).Err? {
      assert r.0 == [] + [];
      assert SeparatedChain(element, separator, ts, [], r.1);
    } else if separator(element(ts).value.1).Err? {
      assert r == ([element(ts).value.0], ts);
      assert r.0 == [] + [element(ts).value.0];
      assert SeparatedChain(element, separator, ts, [], r.1);
      assert ListStop(element, separator, r.1, [element(ts).value.0]);
    } else {
      var e := element(ts).value.0;
      var after := separator(element(ts).value.1).value.1;
      ListUnfold(element, separator, ts);
      ListIsSeparatedChain(element, separator, after);
      var sub := ListResult(element, separator, after);
      var pairs, tail :| sub.0 == pairs + tail
        && SeparatedChain(element, separator, after, pairs, sub.1)
        && ListStop(element, separator, sub.1, tail);
      assert ([e] + pairs)[1..] == pairs;
      assert SeparatedChain(element, separator, ts, [e] + pairs, r.1);
      AppendAssociative([e], pairs, tail);
    }
  }

  /** Conversely, any separated chain followed by a stop is what `List` returns. */
  lemma {:induction false} SeparatedChainIsList<E, S>(element: Parser<E>, separator: Parser<S>, ts: seq<Token>, pairs: seq<E>, tail: seq<E>, rest: seq<Token>)
    requires Progressing(element) && Suffixing(separator)
    requires SeparatedChain(element, separator, ts, pairs, rest) && ListStop(element, separator, rest, tail)
    ensures ListResult(element, separator, ts) == (pairs + tail, rest)
    decreases |pairs|
  {
    if pairs == [] {
      assert pairs + tail == tail;
    } else {
      var after := separator(element(ts).value.1).value.1;
      ListUnfold(element, separator, ts);
      SeparatedChainIsList(element, separator, after, pairs[1..], tail, rest);
      AppendAssociative([pairs[0]], pairs[1..], tail);
      assert [pairs[0]] + pairs[1..] == pairs;
    }
  }

  /** A list whose last element has no separator after it leaves that element's tokens unread. */
  lemma ListLeavesUnseparatedElement<E, S>(element: Parser<E>, separator: Parser<S>, ts: seq<Token>)
    requires Progressing(element) && Suffixing(separator)
    requires element(ts).Ok? && separator(element(ts).value.1).Err?
    ensures ListResult(element, separator, ts) == ([element(ts).value.0], ts)
    ensures |ListResult(element, separator, ts).1| > |element(ts).value.1|
  {
  }

  // ---------------------------------------------------------------------
  // FirstOf

  /**
   * `FirstOf::parse`: the result of the first alternative, in order, that
   * succeeds on the original tokens; the failure when none does, an empty
   * list of alternatives included.
   */
  function FirstOfResult<O>(alternatives: seq<Parser<O>>, ts: seq<Token>): (r: ParseResult<O>)
    ensures r.Ok? <==> exists i :: 0 <= i < |alternatives| && alternatives[i](ts).Ok?
    ensures r.Ok? ==> exists i :: 0 <= i < |alternatives| && r == alternatives[i](ts) &&
                                  forall j :: 0 <= j < i ==> alternatives[j](ts).Err?
    decreases |alternatives|
  {
    if alternatives == [] then Err(ParseError)
    else if alternatives[0](ts).Ok? then alternatives[0](ts)
    else
      var r := FirstOfResult(alternatives[1..], ts);
      assert forall i :: 1 <= i < |alternatives| ==> alternatives[i] == alternatives[1..][i - 1];
      r
  }

  /** The loop of `FirstOf::parse`, returning as soon as an alternative succeeds. */
  method ParseFirstOf<O>(alternatives: seq<Parser<O>>, tokens: seq<Token>) returns (r: ParseResult<O>)
    ensures r == FirstOfResult(alternatives, tokens)
  {
    for i := 0 to |alternatives|
      invariant FirstOfResult(alternatives, tokens) == FirstOfResult(alternatives[i..], tokens)
    {
      var attempt := alternatives[i](tokens);
      if attempt.Ok? {
        return attempt;
      }
      assert alternatives[i..][1..] == alternatives[i + 1..];
    }
    return Err(ParseError);
  }

  /** The alternatives folded with `OrElse`, ending in the failing parser. */
  function OrElseChain<O>(alternatives: seq<Parser<O>>): Parser<O>
    decreases |alternatives|
  {
    if alternatives == [] then Fail() else OrElse(alternatives[0], OrElseChain(alternatives[1..]))
  }

  /** `FirstOf` is `OrElse` over its alternatives. */
  lemma {:induction false} FirstOfIsOrElseChain<O>(alternatives: seq<Parser<O>>, ts: seq<Token>)
    ensures FirstOfResult(alternatives, ts) == OrElseChain(alternatives)(ts)
    decreases |alternatives|
  {
    if alternatives != [] {
      FirstOfIsOrElseChain(alternatives[1..], ts);
    }
  }
}
