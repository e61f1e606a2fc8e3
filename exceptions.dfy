/** The exceptions the core raises, as kinds; their message texts are not modelled. */
module Exceptions {
  import opened PyRuntime

  datatype TypeErrorReason =
    | NotACoroutine             // Callback of a plain function
    | HintNotAClass             // isinstance(value, None) for an unknown keyword
    | WrappedNotClassmethod     // EventWrapper holding a callback that is not a classmethod

  datatype ValueErrorReason =
    | MultipleCallbacksRefused  // add_callback on a single-callback event that has one
    | CallbackAlreadyRegistered
    | CallbackNotRegistered
    | MissingSelfParameter      // classmethod callback without a `self` parameter
    | MissingWrapper            // classmethod callback invoked before a wrapper was set
    | NotInList                 // list.remove of an absent element

  datatype Error =
    | ParsingError(value: PyObject, expected: Hint)
    | ParsingNotImplemented(value: PyObject, expected: Hint)
    | IndexError                // more positional arguments than hints
    | TypeError(typeReason: TypeErrorReason)
    | ValueError(valueReason: ValueErrorReason)
    | AttributeError            // an attribute looked up on None
    | Raised(exception: PyObject)  // raised by user code or a builtin, propagated as is
    | EventNotFound(eventName: string)
    | EventAlreadyExists(eventName: string)
    | EventAlreadyRegistered(eventName: string)
    | CommandNotFound(commandName: string)
    | CommandAlreadyExists(commandName: string)
    | CommandAlreadyRegistered(commandName: string)

  /** The errors `_parse_parameter` and `parse_parameters` can raise. */
  predicate IsCoercionError(e: Error) {
    e.ParsingError? || e.ParsingNotImplemented? || e.IndexError? || e.Raised?
    || e == TypeError(HintNotAClass)
  }
}
