/**
 * The argument coercion of `asyevent/utils/parser.py`: like the one callbacks use, except
 * that a `None` hint passes the value through, surplus positional arguments are padded with
 * `Any` hints instead of failing, and every class with a `__parse__` counts as parsable.
 */
module Parser {
  import opened Wrappers
  import opened PyRuntime
  import opened Exceptions
  import opened Coercion
  import Parsing

  /**
   * `_parse_parameter(cls, value)` of this variant, whose `IParsable` is a runtime-checkable
   * protocol: any class providing `__parse__` passes `issubclass`.
   */
  function ParseParameter(rt: Runtime, h: Hint, v: PyObject): (r: Result<PyObject, Error>)
    ensures r.Ok? ==> || r.value == v
                      || (h.Builtin? && rt.construct(h.kind, v) == Converted(r.value))
                      || (IsParsable(Structural, h) && rt.parse(h.cls, v) == Converted(r.value))
    ensures r.Err? ==> IsCoercionError(r.error) && r.error != TypeError(HintNotAClass)
    ensures h == AnyHint || h == NoneHint ==> r == Ok(v)
  {
    if h == AnyHint || h == NoneHint then Ok(v)
    else if rt.isInstance(v, ClassOf(rt, h)) then Ok(v)
    else ConvertByClass(rt, Structural, h, v)
  }

  /**
   * The two variants coerce alike except on a `None` hint, which only this one passes, and on
   * a class that provides `__parse__` without deriving from `IParsable`, which only this one
   * parses: the other gives up with ParsingNotImplemented.
   */
  lemma AgreesWithParsing(rt: Runtime, h: Hint, v: PyObject)
    ensures h != NoneHint && !(h.Parsable? && !h.derivesIParsable) ==>
      ParseParameter(rt, h, v) == Parsing.ParseParameter(rt, h, v)
    ensures h == NoneHint ==>
      ParseParameter(rt, h, v) == Ok(v) && Parsing.ParseParameter(rt, h, v) == Err(TypeError(HintNotAClass))
    ensures h.Parsable? && !h.derivesIParsable && !rt.isInstance(v, h.cls) ==>
      && Parsing.ParseParameter(rt, h, v) == Err(ParsingNotImplemented(v, h))
      && ParseParameter(rt, h, v) == ConvertByClass(rt, Structural, h, v)
    ensures h.Parsable? && !h.derivesIParsable && rt.isInstance(v, h.cls) ==>
      ParseParameter(rt, h, v) == Parsing.ParseParameter(rt, h, v) == Ok(v)
  {
  }

  /** `hints + [Any] * max(0, len(args) - len(hints))` */
  function Padded(hints: seq<Hint>, count: nat): (r: seq<Hint>)
    ensures |r| >= count && |r| >= |hints|
    ensures forall i :: 0 <= i < |hints| ==> r[i] == hints[i]
    ensures forall i :: |hints| <= i < |r| ==> r[i] == AnyHint
  {
    hints + seq(if count > |hints| then count - |hints| else 0, _ => AnyHint)
  }

  /** `parse_parameters(f, *args, **kwargs)` of this variant. */
  function ParseParameters(rt: Runtime, s: Signature, args: seq<PyObject>, kwargs: seq<(string, PyObject)>)
    : Result<(seq<PyObject>, seq<(string, PyObject)>), Error>
  {
    ParseArguments(rt, HintsOf(s), args, kwargs)
  }

  /** The coercion of this variant against the merged hint dictionary `hints`. */
  function ParseArguments(rt: Runtime, hints: HintDict, args: seq<PyObject>, kwargs: seq<(string, PyObject)>)
    : (r: Result<(seq<PyObject>, seq<(string, PyObject)>), Error>)
    ensures var padded := Padded(Values(hints), |args|);
      r.Ok? <==> && (forall i :: 0 <= i < |args| ==> ParseParameter(rt, padded[i], args[i]).Ok?)
                 && (forall i :: 0 <= i < |kwargs| ==> ParseParameter(rt, KeywordHint(hints, kwargs[i].0), kwargs[i].1).Ok?)
    ensures r.Ok? ==> var values := Values(hints);
      && |r.value.0| == |args|
      && (forall i :: 0 <= i < |args| && i < |values| ==> r.value.0[i] == ParseParameter(rt, values[i], args[i]).value)
      && (forall i :: |values| <= i < |args| ==> r.value.0[i] == args[i])
      && |r.value.1| == |kwargs|
      && (forall i :: 0 <= i < |kwargs| ==>
            r.value.1[i] == (kwargs[i].0, ParseParameter(rt, KeywordHint(hints, kwargs[i].0), kwargs[i].1).value))
      && (forall i :: 0 <= i < |kwargs| && kwargs[i].0 !in Keys(hints) ==> r.value.1[i] == kwargs[i])
    ensures r.Err? ==> IsCoercionError(r.error)
  {
    var parse := (h: Hint, v: PyObject) => ParseParameter(rt, h, v);
    var padded := Padded(Values(hints), |args|);
    var kw :- ParseKeywords(parse, hints, kwargs);
    var pos :- ParsePositional(parse, padded, args);
    assert forall i :: 0 <= i < |args| ==> ParseAt(parse, padded, args, i) == ParseParameter(rt, padded[i], args[i]);
    assert forall i :: 0 <= i < |kwargs| && kwargs[i].0 !in Keys(hints) ==> KeywordHint(hints, kwargs[i].0) == NoneHint;
    Ok((pos, kw))
  }

  /** Surplus positional arguments never make this variant fail: they pass unchanged. */
  lemma SurplusPositionalPassThrough(rt: Runtime, s: Signature, args: seq<PyObject>, kwargs: seq<(string, PyObject)>, i: nat)
    requires |Values(HintsOf(s))| <= i < |args|
    ensures ParseParameter(rt, Padded(Values(HintsOf(s)), |args|)[i], args[i]) == Ok(args[i])
  {
  }
}
