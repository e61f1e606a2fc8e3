/**
 * What the two argument-coercion variants share: the conversion of a value to a class it is
 * not an instance of, the ordered hint dictionary (`types | get_type_hints(f)`) and the two
 * traversals, positional and keyword, that line the arguments of a call up with it.
 */
module Coercion {
  import opened Wrappers
  import opened PyRuntime
  import opened Exceptions

  /**
   * How a variant recognises a parsable class. `tools/parsing.py` asks `issubclass(cls, IParsable)`
   * of an abstract base class, which only classes deriving from it pass (`Nominal`);
   * `utils/parser.py` asks it of a runtime-checkable protocol, which every class providing
   * `__parse__` passes (`Structural`).
   */
  datatype ParsableTest = Nominal | Structural

  predicate IsParsable(test: ParsableTest, h: Hint) {
    h.Parsable? && (test == Structural || h.derivesIParsable)
  }

  /**
   * The guard before `__parse__` as the code writes it: the TYPE of the first annotation of
   * `__parse__` against the type of the value. For a class annotation that is its metaclass;
   * for a postponed annotation (a string) it is `str`.
   */
  predicate AnnotationMatchesAsWritten(rt: Runtime, cls: PyObject, value: PyObject) {
    rt.typeOf(rt.parseAnnotation(cls)) == rt.typeOf(value)
  }

  /** The guard as intended ("type hinting forces a match"): the annotation is the value's type. */
  predicate AnnotationMatches(rt: Runtime, cls: PyObject, value: PyObject) {
    rt.parseAnnotation(cls) == rt.typeOf(value)
  }

  /**
   * The written guard refuses every value whose type is exactly the annotated class, as soon
   * as that class is not its own metaclass (every class but `type`).
   */
  lemma AnnotationGuardRefusesMatchingValues(rt: Runtime, cls: PyObject, value: PyObject)
    requires rt.typeOf(value) == rt.parseAnnotation(cls)
    requires rt.typeOf(rt.parseAnnotation(cls)) != rt.parseAnnotation(cls)
    ensures AnnotationMatches(rt, cls, value)
    ensures !AnnotationMatchesAsWritten(rt, cls, value)
  {
  }

  /** `cls.__parse__(value)`: its result, or the exception it raised. */
  function CallParse(rt: Runtime, cls: PyObject, v: PyObject): (r: Result<PyObject, Error>)
    ensures r.Ok? <==> rt.parse(cls, v).Converted?
    ensures r.Ok? ==> r.value == rt.parse(cls, v).result
    ensures r.Err? ==> r.error == Raised(rt.parse(cls, v).exception)
  {
    match rt.parse(cls, v)
    case Converted(w) => Ok(w)
    case Threw(e, _) => Err(Raised(e))
  }

  /**
   * The conversion `_parse_parameter` attempts once the value is not already an instance of
   * its hint's class: call the builtin class; or, for a class the variant takes for parsable,
   * call `__parse__` after the annotation guard as written; or give up with
   * ParsingNotImplemented.
   */
  function ConvertByClass(rt: Runtime, test: ParsableTest, h: Hint, v: PyObject): (r: Result<PyObject, Error>)
    requires h.Builtin? || h.Parsable? || h.Other?
    ensures r.Ok? ==> || (h.Builtin? && rt.construct(h.kind, v) == Converted(r.value))
                      || (IsParsable(test, h) && rt.parse(h.cls, v) == Converted(r.value))
    ensures r.Err? ==> IsCoercionError(r.error)
    ensures r == Err(ParsingError(v, h)) <==>
      || (h.Builtin? && rt.construct(h.kind, v).Threw? && rt.construct(h.kind, v).isValueError)
      || (IsParsable(test, h) && !AnnotationMatchesAsWritten(rt, h.cls, v))
    ensures IsParsable(test, h) && AnnotationMatchesAsWritten(rt, h.cls, v) ==> r == CallParse(rt, h.cls, v)
    ensures !h.Builtin? && !IsParsable(test, h) <==> r == Err(ParsingNotImplemented(v, h))
  {
    match h
    case Builtin(k) =>
      (match rt.construct(k, v)
       case Converted(w) => Ok(w)
       case Threw(e, isValueError) => if isValueError then Err(ParsingError(v, h)) else Err(Raised(e)))
    case Parsable(c, _) =>
      if !IsParsable(test, h) then Err(ParsingNotImplemented(v, h))
      else if !AnnotationMatchesAsWritten(rt, c, v) then Err(ParsingError(v, h))
      else CallParse(rt, c, v)
    case Other(_) => Err(ParsingNotImplemented(v, h))
  }

  /**
   * The conversion with the guard as intended: for a parsable class, `__parse__` is called
   * exactly when the value's type is the annotated class, and ParsingError raised otherwise.
   */
  function ConvertByClassIntended(rt: Runtime, test: ParsableTest, h: Hint, v: PyObject): (r: Result<PyObject, Error>)
    requires h.Builtin? || h.Parsable? || h.Other?
    ensures IsParsable(test, h) ==> (r == CallParse(rt, h.cls, v) <==> AnnotationMatches(rt, h.cls, v))
    ensures IsParsable(test, h) && !AnnotationMatches(rt, h.cls, v) ==> r == Err(ParsingError(v, h))
    ensures !IsParsable(test, h) ==> r == ConvertByClass(rt, test, h, v)
  {
    if !IsParsable(test, h) then ConvertByClass(rt, test, h, v)
    else if AnnotationMatches(rt, h.cls, v) then CallParse(rt, h.cls, v)
    else Err(ParsingError(v, h))
  }

  /** The written and the intended conversion differ only where the two guards disagree. */
  lemma ConvertByClassDiffersOnlyAtGuard(rt: Runtime, test: ParsableTest, h: Hint, v: PyObject)
    requires h.Builtin? || h.Parsable? || h.Other?
    ensures ConvertByClassIntended(rt, test, h, v) != ConvertByClass(rt, test, h, v) ==>
      IsParsable(test, h) && AnnotationMatches(rt, h.cls, v) != AnnotationMatchesAsWritten(rt, h.cls, v)
  {
  }

  /**
   * A runtime with `str` (object 1), `type` (object 2), the string "abc" (object 3) and a
   * parsable class (object 4) whose `__parse__(cls, value: str)` is annotated with the class
   * `str`, as it is without postponed annotations.
   */
  function ExampleRuntime(): Runtime {
    Runtime(
      isInstance := (v: PyObject, c: PyObject) => v == PyObject(3) && c == PyObject(1),
      typeOf := (v: PyObject) => if v == PyObject(3) then PyObject(1) else PyObject(2),
      builtinClass := (k: BuiltinKind) => if k == Str then PyObject(1) else PyObject(10),
      construct := (k: BuiltinKind, v: PyObject) => Converted(v),
      parseAnnotation := (c: PyObject) => PyObject(1),
      parse := (c: PyObject, v: PyObject) => Converted(PyObject(5)))
  }

  /** In that runtime the written guard refuses "abc" for a `__parse__` that takes a `str`. */
  lemma AnnotationGuardExample()
    ensures !AnnotationMatchesAsWritten(ExampleRuntime(), PyObject(4), PyObject(3))
    ensures AnnotationMatches(ExampleRuntime(), PyObject(4), PyObject(3))
    ensures ConvertByClass(ExampleRuntime(), Nominal, Parsable(PyObject(4), true), PyObject(3))
            == Err(ParsingError(PyObject(3), Parsable(PyObject(4), true)))
    ensures ConvertByClassIntended(ExampleRuntime(), Nominal, Parsable(PyObject(4), true), PyObject(3))
            == Ok(PyObject(5))
  {
  }

  /**
   * A runtime where the annotation of `__parse__` on class 4 is postponed: it is the string
   * object 6 (such as `'Union[int, float, str]'`), whose type is `str` (object 1), the type of
   * the string value 3 too.
   */
  function PostponedRuntime(): Runtime {
    Runtime(
      isInstance := (v: PyObject, c: PyObject) => v == PyObject(3) && c == PyObject(1),
      typeOf := (v: PyObject) => if v == PyObject(3) || v == PyObject(6) then PyObject(1) else PyObject(2),
      builtinClass := (k: BuiltinKind) => if k == Str then PyObject(1) else PyObject(10),
      construct := (k: BuiltinKind, v: PyObject) => Converted(v),
      parseAnnotation := (c: PyObject) => PyObject(6),
      parse := (c: PyObject, v: PyObject) => Converted(PyObject(5)))
  }

  /**
   * With a postponed annotation the written guard passes every string value: a string is
   * handed to `__parse__` whatever the annotation says, where the intended guard refuses it.
   * A class that provides `__parse__` without deriving from `IParsable` is parsed only by the
   * structural test; the nominal one gives up on it.
   */
  lemma AnnotationGuardPostponedExample()
    ensures AnnotationMatchesAsWritten(PostponedRuntime(), PyObject(4), PyObject(3))
    ensures !AnnotationMatches(PostponedRuntime(), PyObject(4), PyObject(3))
    ensures ConvertByClass(PostponedRuntime(), Nominal, Parsable(PyObject(4), true), PyObject(3)) == Ok(PyObject(5))
    ensures ConvertByClassIntended(PostponedRuntime(), Nominal, Parsable(PyObject(4), true), PyObject(3))
            == Err(ParsingError(PyObject(3), Parsable(PyObject(4), true)))
    ensures ConvertByClass(PostponedRuntime(), Structural, Parsable(PyObject(4), false), PyObject(3)) == Ok(PyObject(5))
    ensures ConvertByClass(PostponedRuntime(), Nominal, Parsable(PyObject(4), false), PyObject(3))
            == Err(ParsingNotImplemented(PyObject(3), Parsable(PyObject(4), false)))
  {
  }

  /** An insertion-ordered dictionary from names to hints, as Python's `dict`. */
  type HintDict = seq<(string, Hint)>

  /** What reflection (`inspect.signature`, `typing.get_type_hints`) reports of a coroutine. */
  datatype Signature = Signature(parameters: seq<string>, typeHints: HintDict)

  function Keys(d: HintDict): (ks: seq<string>)
    ensures |ks| == |d| && forall i :: 0 <= i < |d| ==> ks[i] == d[i].0
  {
    if d == [] then [] else [d[0].0] + Keys(d[1..])
  }

  function Values(d: HintDict): (vs: seq<Hint>)
    ensures |vs| == |d| && forall i :: 0 <= i < |d| ==> vs[i] == d[i].1
  {
    if d == [] then [] else [d[0].1] + Values(d[1..])
  }

  /** `d.get(k)`: the entry for `k`, the first one if there were several. */
  function Get(d: HintDict, k: string): (r: Option<Hint>)
    ensures r.None? <==> k !in Keys(d)
    ensures r.Some? ==> exists i :: 0 <= i < |d| && d[i] == (k, r.value)
  {
    if d == [] then None
    else if d[0].0 == k then Some(d[0].1)
    else Get(d[1..], k)
  }

  /** The entries of `a`, each with its value replaced by `b`'s when `b` has the key. */
  function Overlay(a: HintDict, b: HintDict): (r: HintDict)
    ensures Keys(r) == Keys(a)
    ensures forall i :: 0 <= i < |a| ==> r[i].1 == Get(b, a[i].0).GetOr(a[i].1)
  {
    if a == [] then [] else [(a[0].0, Get(b, a[0].0).GetOr(a[0].1))] + Overlay(a[1..], b)
  }

  /** The entries of `b` whose keys are not among `ks`, in `b`'s order. */
  function Fresh(b: HintDict, ks: seq<string>): (r: HintDict)
    ensures forall e :: e in r <==> e in b && e.0 !in ks
  {
    if b == [] then []
    else if b[0].0 in ks then Fresh(b[1..], ks)
    else [b[0]] + Fresh(b[1..], ks)
  }

  /** Python's `a | b` on dictionaries. */
  function Union(a: HintDict, b: HintDict): HintDict {
    Overlay(a, b) + Fresh(b, Keys(a))
  }

  lemma {:induction false} GetAppend(a: HintDict, b: HintDict, k: string)
    ensures Get(a + b, k) == if k in Keys(a) then Get(a, k) else Get(b, k)
  {
    if a != [] {
      assert (a + b)[1..] == a[1..] + b;
      GetAppend(a[1..], b, k);
    } else {
      assert a + b == b;
    }
  }

  lemma {:induction false} GetOverlay(a: HintDict, b: HintDict, k: string)
    requires k in Keys(a)
    ensures Get(Overlay(a, b), k) == Some(Get(b, k).GetOr(Get(a, k).value))
  {
    if a[0].0 != k {
      GetOverlay(a[1..], b, k);
    }
  }

  lemma {:induction false} GetFresh(b: HintDict, ks: seq<string>, k: string)
    requires k !in ks
    ensures Get(Fresh(b, ks), k) == Get(b, k)
  {
    if b != [] {
      GetFresh(b[1..], ks, k);
    }
  }

  /** `a | b` keeps `a`'s key order, appends `b`'s new keys, and lets `b` win on shared keys. */
  lemma UnionGet(a: HintDict, b: HintDict, k: string)
    ensures Get(Union(a, b), k) == if Get(b, k).Some? then Get(b, k) else Get(a, k)
  {
    GetAppend(Overlay(a, b), Fresh(b, Keys(a)), k);
    if k in Keys(a) {
      GetOverlay(a, b, k);
    } else {
      GetFresh(b, Keys(a), k);
    }
  }

  /** `{k: Any for k in signature(f).parameters}` with the key `self` deleted. */
  function UntypedParameters(parameters: seq<string>): (r: HintDict)
    ensures forall e :: e in r <==> e.1 == AnyHint && e.0 in parameters && e.0 != "self"
  {
    if parameters == [] then []
    else if parameters[0] == "self" then UntypedParameters(parameters[1..])
    else [(parameters[0], AnyHint)] + UntypedParameters(parameters[1..])
  }

  /** The merged hint dictionary `types | get_type_hints(f)`. */
  function HintsOf(s: Signature): HintDict {
    Union(UntypedParameters(s.parameters), s.typeHints)
  }

  /**
   * The positional hint list of a signature: one entry per parameter other than `self`, in
   * declaration order, holding its type hint or `Any`; after them, the hints whose names are
   * not parameters (such as `return`).
   */
  lemma PositionalHints(s: Signature)
    ensures |Values(HintsOf(s))| >= |UntypedParameters(s.parameters)|
    ensures forall i :: 0 <= i < |UntypedParameters(s.parameters)| ==>
      var name := UntypedParameters(s.parameters)[i].0;
      Values(HintsOf(s))[i] == Get(s.typeHints, name).GetOr(AnyHint)
    ensures Values(HintsOf(s))[|UntypedParameters(s.parameters)|..]
            == Values(Fresh(s.typeHints, Keys(UntypedParameters(s.parameters))))
  {
    var a := UntypedParameters(s.parameters);
    var o := Overlay(a, s.typeHints);
    var f := Fresh(s.typeHints, Keys(a));
    assert |Keys(o)| == |Keys(a)|;
    assert HintsOf(s) == o + f;
    assert Values(o + f)[|a|..] == Values(f) by {
      forall j | 0 <= j < |f| ensures Values(o + f)[|a| + j] == Values(f)[j] {
        assert (o + f)[|a| + j] == f[j];
      }
    }
  }

  /** Hint `i` applied to argument `i`, or the IndexError of `list(...)[i]` past the end. */
  function ParseAt(parse: (Hint, PyObject) -> Result<PyObject, Error>, hints: seq<Hint>, args: seq<PyObject>, i: nat): Result<PyObject, Error>
    requires i < |args|
  {
    if i < |hints| then parse(hints[i], args[i]) else Err(IndexError)
  }

  /** `tuple(parse(hints[i], arg) for i, arg in enumerate(args))`, stopping at the first exception. */
  function ParsePositional(parse: (Hint, PyObject) -> Result<PyObject, Error>, hints: seq<Hint>, args: seq<PyObject>): (r: Result<seq<PyObject>, Error>)
    ensures r.Ok? <==> forall i :: 0 <= i < |args| ==> ParseAt(parse, hints, args, i).Ok?
    ensures r.Ok? ==> |r.value| == |args| && forall i :: 0 <= i < |args| ==> r.value[i] == ParseAt(parse, hints, args, i).value
    ensures r.Err? ==> exists k :: 0 <= k < |args| && ParseAt(parse, hints, args, k) == Err(r.error)
                               && forall i :: 0 <= i < k ==> ParseAt(parse, hints, args, i).Ok?
  {
    if args == [] then Ok([])
    else if hints == [] then
      assert ParseAt(parse, hints, args, 0) == Err(IndexError);
      Err(IndexError)
    else
      var rest := ParsePositional(parse, hints[1..], args[1..]);
      assert forall i :: 0 < i < |args| ==> ParseAt(parse, hints, args, i) == ParseAt(parse, hints[1..], args[1..], i - 1);
      assert ParseAt(parse, hints, args, 0) == parse(hints[0], args[0]);
      match parse(hints[0], args[0])
      case Err(e) => Err(e)
      case Ok(v) =>
        match rest
        case Err(e) =>
          var k :| 0 <= k < |args[1..]| && ParseAt(parse, hints[1..], args[1..], k) == Err(e)
                   && forall i :: 0 <= i < k ==> ParseAt(parse, hints[1..], args[1..], i).Ok?;
          assert ParseAt(parse, hints, args, k + 1) == Err(e);
          assert forall i :: 0 <= i < k + 1 ==> ParseAt(parse, hints, args, i).Ok?;
          Err(e)
        case Ok(vs) => Ok([v] + vs)
  }

  /** The hint a keyword argument is parsed against: `hints.get(k)`, None when absent. */
  function KeywordHint(hints: HintDict, k: string): Hint {
    Get(hints, k).GetOr(NoneHint)
  }

  /** `{k: parse(hints.get(k), v) for k, v in kwargs.items()}`, stopping at the first exception. */
  function ParseKeywords(parse: (Hint, PyObject) -> Result<PyObject, Error>, hints: HintDict, kwargs: seq<(string, PyObject)>): (r: Result<seq<(string, PyObject)>, Error>)
    ensures r.Ok? <==> forall i :: 0 <= i < |kwargs| ==> parse(KeywordHint(hints, kwargs[i].0), kwargs[i].1).Ok?
    ensures r.Ok? ==> |r.value| == |kwargs| && forall i :: 0 <= i < |kwargs| ==>
      r.value[i] == (kwargs[i].0, parse(KeywordHint(hints, kwargs[i].0), kwargs[i].1).value)
    ensures r.Err? ==> exists k :: 0 <= k < |kwargs| && parse(KeywordHint(hints, kwargs[k].0), kwargs[k].1) == Err(r.error)
                                 && forall i :: 0 <= i < k ==> parse(KeywordHint(hints, kwargs[i].0), kwargs[i].1).Ok?
  {
    if kwargs == [] then Ok([])
    else
      var rest := ParseKeywords(parse, hints, kwargs[1..]);
      match parse(KeywordHint(hints, kwargs[0].0), kwargs[0].1)
      case Err(e) => Err(e)
      case Ok(v) =>
        match rest
        case Err(e) => Err(e)
        case Ok(vs) => Ok([(kwargs[0].0, v)] + vs)
  }
}
