/** The argument coercion of `asyevent/tools/parsing.py`, the variant callbacks use. */
module Parsing {
  import opened Wrappers
  import opened PyRuntime
  import opened Exceptions
  import opened Coercion

  /**
   * `_parse_parameter(cls, value)`. There is no pass-through for a `None` hint: it reaches
   * `isinstance(value, None)`, which raises TypeError. A class counts as parsable only when it
   * derives from the `IParsable` base class.
   */
  function ParseParameter(rt: Runtime, h: Hint, v: PyObject): (r: Result<PyObject, Error>)
    ensures r.Ok? ==> || r.value == v
                      || (h.Builtin? && rt.construct(h.kind, v) == Converted(r.value))
                      || (IsParsable(Nominal, h) && rt.parse(h.cls, v) == Converted(r.value))
    ensures r.Err? ==> IsCoercionError(r.error)
    ensures h == NoneHint <==> r == Err(TypeError(HintNotAClass))
  {
    match h
    case AnyHint => Ok(v)
    case NoneHint => Err(TypeError(HintNotAClass))
    case _ => if rt.isInstance(v, ClassOf(rt, h)) then Ok(v) else ConvertByClass(rt, Nominal, h, v)
  }

  /** A value that is already an instance of its hint's class, or has no hint, is returned as is. */
  lemma InstancesPassUnchanged(rt: Runtime, h: Hint, v: PyObject)
    requires h == AnyHint || ((h.Builtin? || h.Parsable? || h.Other?) && rt.isInstance(v, ClassOf(rt, h)))
    ensures ParseParameter(rt, h, v) == Ok(v)
  {
  }

  /**
   * Coercing twice changes nothing more, provided constructors and `__parse__` return
   * instances of their class.
   */
  lemma ParseParameterIdempotent(rt: Runtime, h: Hint, v: PyObject)
    requires Sound(rt)
    requires ParseParameter(rt, h, v).Ok?
    ensures ParseParameter(rt, h, ParseParameter(rt, h, v).value) == ParseParameter(rt, h, v)
  {
    var w := ParseParameter(rt, h, v).value;
    if h.Builtin? && !rt.isInstance(v, ClassOf(rt, h)) {
      assert rt.construct(h.kind, v) == Converted(w);
      assert rt.isInstance(w, rt.builtinClass(h.kind));
    } else if h.Parsable? && !rt.isInstance(v, ClassOf(rt, h)) {
      assert rt.parse(h.cls, v) == Converted(w);
      assert rt.isInstance(w, h.cls);
    }
  }

  /**
   * `parse_parameters(f, *args, **kwargs)`: the arguments coerced against the merged hint
   * dictionary of `f`'s signature.
   */
  function ParseParameters(rt: Runtime, s: Signature, args: seq<PyObject>, kwargs: seq<(string, PyObject)>)
    : Result<(seq<PyObject>, seq<(string, PyObject)>), Error>
  {
    ParseArguments(rt, HintsOf(s), args, kwargs)
  }

  /**
   * The coercion `parse_parameters` runs against the merged hint dictionary `hints`: keywords
   * first, each against the hint of the same name, then positional argument `i` against
   * entry `i` of the hint list.
   */
  function ParseArguments(rt: Runtime, hints: HintDict, args: seq<PyObject>, kwargs: seq<(string, PyObject)>)
    : (r: Result<(seq<PyObject>, seq<(string, PyObject)>), Error>)
    ensures var values := Values(hints);
      r.Ok? <==> && |args| <= |values|
                 && (forall i :: 0 <= i < |args| ==> ParseParameter(rt, values[i], args[i]).Ok?)
                 && (forall i :: 0 <= i < |kwargs| ==> ParseParameter(rt, KeywordHint(hints, kwargs[i].0), kwargs[i].1).Ok?)
    ensures r.Ok? ==> var values := Values(hints);
      && |r.value.0| == |args|
      && (forall i :: 0 <= i < |args| ==> r.value.0[i] == ParseParameter(rt, values[i], args[i]).value)
      && |r.value.1| == |kwargs|
      && (forall i :: 0 <= i < |kwargs| ==>
            r.value.1[i] == (kwargs[i].0, ParseParameter(rt, KeywordHint(hints, kwargs[i].0), kwargs[i].1).value))
    ensures r.Err? ==> IsCoercionError(r.error)
  {
    var parse := (h: Hint, v: PyObject) => ParseParameter(rt, h, v);
    var values := Values(hints);
    var kw :- ParseKeywords(parse, hints, kwargs);
    var pos :- ParsePositional(parse, values, args);
    assert |args| > |values| ==> ParseAt(parse, values, args, |values|).Err?;
    assert forall i :: 0 <= i < |args| && i < |values| ==> ParseAt(parse, values, args, i) == ParseParameter(rt, values[i], args[i]);
    Ok((pos, kw))
  }

  /** A keyword argument with no parameter of its name fails the whole coercion. */
  lemma UnknownKeywordRefused(rt: Runtime, s: Signature, args: seq<PyObject>, kwargs: seq<(string, PyObject)>, k: nat)
    requires k < |kwargs| && kwargs[k].0 !in Keys(HintsOf(s))
    ensures ParseParameters(rt, s, args, kwargs).Err?
  {
    assert KeywordHint(HintsOf(s), kwargs[k].0) == NoneHint;
  }

  /** More positional arguments than hints fail the whole coercion. */
  lemma SurplusPositionalRefused(rt: Runtime, s: Signature, args: seq<PyObject>, kwargs: seq<(string, PyObject)>)
    requires |args| > |Values(HintsOf(s))|
    ensures ParseParameters(rt, s, args, kwargs).Err?
  {
  }
}
