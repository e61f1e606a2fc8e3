/**
 * The parts of the Python runtime the coercion code consults. Objects are known only by
 * identity; `isinstance`, `type`, the builtin constructors, the annotation of `__parse__`
 * and `__parse__` itself are fields of a `Runtime`, a record of total functions that the
 * model treats as given.
 */
module PyRuntime {

  /** A Python object (a value, a class or an exception), known only by identity. */
  datatype PyObject = PyObject(id: nat)

  /** The builtin classes a value is converted to by calling the class (`__builtin_parsable__`). */
  datatype BuiltinKind = Str | Int | Float | Dict | List | Tuple | Set | FrozenSet

  /** A parameter's type hint as `_parse_parameter` receives it. */
  datatype Hint =
    | AnyHint                   // typing.Any: the hint of a parameter without annotation
    | NoneHint                  // None: what `hints.get(k)` gives for an unknown keyword
    | Builtin(kind: BuiltinKind)
    | Parsable(cls: PyObject, derivesIParsable: bool)
      // a class that provides `__parse__`; `derivesIParsable` tells whether it also derives from
      // the `IParsable` base class, which `tools/parsing.py` asks for and `utils/parser.py` does not
    | Other(cls: PyObject)      // any other class

  /** What calling a constructor or `__parse__` did: returned a result or raised an exception. */
  datatype Conversion =
    | Converted(result: PyObject)
    | Threw(exception: PyObject, isValueError: bool)

  datatype Runtime = Runtime(
    isInstance: (PyObject, PyObject) -> bool,      // isinstance(value, cls)
    typeOf: PyObject -> PyObject,                  // type(value)
    builtinClass: BuiltinKind -> PyObject,         // the class object str, int, ...
    construct: (BuiltinKind, PyObject) -> Conversion,  // str(value), int(value), ...
    parseAnnotation: PyObject -> PyObject,         // annotation of the first parameter of cls.__parse__
    parse: (PyObject, PyObject) -> Conversion)     // cls.__parse__(value)

  /** The class object a hint stands for, when it stands for one. */
  function ClassOf(rt: Runtime, h: Hint): PyObject
    requires h.Builtin? || h.Parsable? || h.Other?
  {
    match h
    case Builtin(k) => rt.builtinClass(k)
    case Parsable(c, _) => c
    case Other(c) => c
  }

  /**
   * The runtime keeps the promises the coercion code relies on: a builtin constructor
   * returns an instance of its class, and `__parse__` returns an instance of the class
   * it is defined on (its declared return type).
   */
  ghost predicate Sound(rt: Runtime) {
    && (forall k, v :: rt.construct(k, v).Converted? ==> rt.isInstance(rt.construct(k, v).result, rt.builtinClass(k)))
    && (forall c, v :: rt.parse(c, v).Converted? ==> rt.isInstance(rt.parse(c, v).result, c))
  }
}
