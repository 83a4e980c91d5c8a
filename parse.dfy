/**
 * The parser engine (src/parse/mod.rs): the single parse error, parsers as
 * functions from the remaining tokens to a value and the tokens after it, the
 * trivial parser of a type's own parse rule, and the zero-or-more rule of
 * `Vec<T>`.
 */
module Parse {
  import opened Wrappers
  import opened PubTypes

  /** The one parse failure: it carries nothing. */
  datatype ParseError = ParseError

  /** A value and the tokens left after it, or the failure. */
  type ParseResult<O> = Result<(O, seq<Token>), ParseError>

  /**
   * A parser. The token sequence stands for the rewindable iterator of the
   * source: keeping a copy of it is keeping the position.
   */
  type Parser<O> = seq<Token> -> ParseResult<O>

  /** `rest` is what is left of `ts` after reading some of it from the front. */
  predicate IsSuffix(rest: seq<Token>, ts: seq<Token>) {
    |rest| <= |ts| && rest == ts[|ts| - |rest|..]
  }

  /** A parser that only reads forward: on success, what is left is a suffix of its input. */
  ghost predicate Suffixing<O>(p: Parser<O>) {
    forall ts :: p(ts).Ok? ==> IsSuffix(p(ts).value.1, ts)
  }

  /** A parser that reads forward and consumes at least one token whenever it succeeds. */
  ghost predicate Progressing<O>(p: Parser<O>) {
    forall ts :: p(ts).Ok? ==> IsSuffix(p(ts).value.1, ts) && |p(ts).value.1| < |ts|
  }

  lemma IsSuffixTransitive(a: seq<Token>, b: seq<Token>, c: seq<Token>)
    requires IsSuffix(a, b) && IsSuffix(b, c)
    ensures IsSuffix(a, c)
  {
    assert c[|c| - |b|..][|b| - |a|..] == c[|c| - |a|..];
  }

  /** There is only one parse error. */
  lemma ParseErrorIsUnique(a: ParseError, b: ParseError)
    ensures a == b
  {
  }

  /** `Parse::parser()`: the parser object of a type whose own parse rule is `parse`; it parses exactly as the rule does. */
  function Trivial<O>(parse: Parser<O>): (p: Parser<O>)
    ensures forall ts :: p(ts) == parse(ts)
  {
    ts => parse(ts)
  }

  // ---------------------------------------------------------------------
  // Zero or more: `Vec<T>::parse`

  /**
   * The results of running `element` back to back from `ts` for as long as
   * it succeeds, and the tokens where it first fails.
   */
  function Many<T>(element: Parser<T>, ts: seq<Token>): (r: (seq<T>, seq<Token>))
    requires Progressing(element)
    ensures IsSuffix(r.1, ts) && element(r.1).Err?
    ensures element(ts).Err? ==> r == ([], ts)
    ensures |r.0| <= |ts| - |r.1|
    decreases |ts|
  {
    match element(ts)
    case Err(_) => ([], ts)
    case Ok((v, rest)) =>
      var (vs, last) := Many(element, rest);
      IsSuffixTransitive(last, rest, ts);
      ([v] + vs, last)
  }

  /** `values` are the results of `element` run back to back from `ts`, and `rest` is where the last run stopped. */
  ghost predicate Chain<T>(element: Parser<T>, ts: seq<Token>, values: seq<T>, rest: seq<Token>)
    decreases |values|
  {
    if values == [] then rest == ts
    else element(ts).Ok? && element(ts).value.0 == values[0]
         && Chain(element, element(ts).value.1, values[1..], rest)
  }

  /**
   * What zero-or-more returns is characterised without reference to its
   * loop: the values are a chain of successful element parses, and the
   * remainder is where the element parser first fails. Both directions: any
   * such chain is the one it returns.
   */
  lemma {:induction false} ManyIsMaximalChain<T>(element: Parser<T>, ts: seq<Token>, values: seq<T>, rest: seq<Token>)
    requires Progressing(element)
    ensures Many(element, ts) == (values, rest) <==> Chain(element, ts, values, rest) && element(rest).Err?
  {
    ManyIsChain(element, ts);
    if Chain(element, ts, values, rest) && element(rest).Err? {
      MaximalChainIsMany(element, ts, values, rest);
    }
  }

  lemma {:induction false} ManyIsChain<T>(element: Parser<T>, ts: seq<Token>)
    requires Progressing(element)
    ensures Chain(element, ts, Many(element, ts).0, Many(element, ts).1)
    decreases |ts|
  {
    var r := element(ts);
    if r.Ok? {
      var next := r.value.1;
      ManyIsChain(element, next);
      var (vs, last) := Many(element, next);
      assert Many(element, ts) == ([r.value.0] + vs, last);
      assert ([r.value.0] + vs)[1..] == vs;
    }
  }

  lemma {:induction false} MaximalChainIsMany<T>(element: Parser<T>, ts: seq<Token>, values: seq<T>, rest: seq<Token>)
    requires Progressing(element)
    requires Chain(element, ts, values, rest) && element(rest).Err?
    ensures Many(element, ts) == (values, rest)
    decreases |values|
  {
    if values != [] {
      var next := element(ts).value.1;
      MaximalChainIsMany(element, next, values[1..], rest);
      assert values == [values[0]] + values[1..];
    }
  }

  /** `Vec<T>::parse`: never fails; returns the values of zero-or-more and the tokens after them. */
  method ParseMany<T>(element: Parser<T>, tokens: seq<Token>) returns (r: ParseResult<seq<T>>)
    requires Progressing(element)
    ensures r == Ok(Many(element, tokens))
  {
    var vec: seq<T> := [];
    var rest := tokens;
    assert vec + Many(element, rest).0 == Many(element, rest).0;
    while true
      invariant Many(element, tokens) == (vec + Many(element, rest).0, Many(element, rest).1)
      decreases |rest|
    {
      var attempt := element(rest);
      if attempt.Err? {
        assert vec + Many(element, rest).0 == vec;
        break;
      }
      var (v, after) := attempt.value;
      ghost var tail := Many(element, after);
      assert Many(element, rest) == ([v] + tail.0, tail.1);
      assert vec + ([v] + tail.0) == (vec + [v]) + tail.0;
      vec := vec + [v];
      rest := after;
    }
    return Ok((vec, rest));
  }
}

