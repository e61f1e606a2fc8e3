# asyevent, modelled in Dafny

asyevent is a small Python library of asynchronous events. An `EventManager` owns two ordered
registries: events and commands. It also owns an `<error_handler>` event.

An `Event` keeps its callbacks in buckets keyed by an integer priority. Raising it does three
things:

- it raises its `<before:…>` sibling;
- it schedules one invocation per callback, highest priority first;
- it awaits them and then raises its `<after:…>` sibling.

A `Command` is an event named `<command:…>` that is created around one initial callback. It is
kept in the command registry, not in the event registry.

A `Callback` wraps a coroutine with options: active, start delay, repeat count, loop delay,
continue-on-error and refuse-handling. Invoking it runs a loop of iterations. Each iteration
coerces the arguments against the coroutine's type hints and calls the coroutine. An exception
is either routed to the error-handler event or re-raised.

An `EventWrapper` hands its instance to its classmethod callbacks and switches them on and off
together. Two variants of the argument coercion exist: `tools/parsing.py`, which callbacks use,
and `utils/parser.py`. The first takes a class for parsable only when it derives from the
abstract base class `IParsable`. The second asks a runtime-checkable protocol, which every class
with a `__parse__` method satisfies.

The model has one module per concern:

- `Wrappers`: `Option` and `Result`.
- `Collections`: the list operations the code uses, `[y for y in s if y != x]` and
  `list.remove`.
- `PyRuntime`: Python objects as identities. `isinstance`, `type`, the builtin constructors and
  `__parse__` are given as a `Runtime` record of functions.
- `Exceptions`: the raised exceptions, as kinds.
- `Names`: ASCII case folding, the derived names and first-match lookup.
- `Coercion`, `Parsing` and `Parser`: the coercion shared by both variants, then each variant.
- `Callbacks`: `callback.py`.
- `EventWrappers`: `event_wrapper.py`.
- `Buckets`: the priority buckets of `event.py`, as values.
- `Events`: `event.py`, `command.py` and `event_manager.py`. They share one module because they
  refer to each other.

Objects the code updates in place are classes with those fields: `Event`, `Command`,
`EventManager`, `Callback`, `EventWrapper` and the scheduled `Task`. Their methods state the
whole new state. The pure parts are functions, with lemmas about them: the callback order, the
bucket filtering, name lookup, coercion, and the iteration trace of an invocation.

Time and concurrency are abstracted away:

- an invocation is a trace of `Sleep`, `Call` and `Dispatch` steps;
- what the coroutine does on its i-th call is an input `attempts(i)`;
- a raise records the sibling raises and the awaited `gather` as steps;
- the elapsed time, and what the awaited work lets escape, are an `Environment` input.

Where the docstrings and the code disagree, the model follows the code:

- `callbacks` lists buckets from the highest priority down. The docstrings at
  `asyevent/event.py:132` and `:148` say "ascending".
- `continue_on_error=False` does not stop the loop of `invoke`. After a handled error, `return`
  leaves only the inner `iterate`, so the coroutine is still called `repeat_times` times
  (`Callbacks.HandledRunCallsEveryIteration`). What the flag does decide is whether the loop
  delay follows that iteration.
- The loop delay follows every iteration when `repeat_times > 1`, including the last one. In
  the endless mode (`repeat_times <= 0`) it never happens, since `repeat_times > 1` is false
  there.
- `create_command` lists the command, but never its event, among the manager's events.
- `add_event` and `add_command` do not check names against the registry they join.
  `replace_command_name` does not check the new name either. So the name uniqueness that
  creation keeps (`Events.EventManager.Valid`) is not kept by these three operations, and the
  model does not claim it for them.
- `add_event` on an event whose manager was cleared by `remove_event` fails with
  `AttributeError`. It reads `remove_event` off `None`.
- `raise_event` awaits every task the event ever scheduled, not only the new ones. `_tasks` is
  never cleared.

## Model

| member | source | states |
|---|---|---|
| `Collections.Filter` | asyevent/event.py:173-175 | `[c for c in cs if c != x]` removes exactly the occurrences of `x` (multiset), keeps the rest, leaves the list unchanged iff `x` is absent, never grows it, and keeps it free of repeats |
| `Collections.RemoveFirst` | asyevent/event_manager.py:222 | `list.remove(x)` on a present element removes one occurrence; on a repeat-free list the element is gone afterwards and the list stays repeat-free |
| `Names.CommandName` | asyevent/command.py:37 | the command name is the given name, or the coroutine's `__name__` when the given one is empty or missing |
| `Names.CommandEventNameInjective` | asyevent/command.py:18 | `<command:{}>` is injective: distinct command names give distinct event names |
| `Names.CommandEventNameCasefold` | asyevent/command.py:42-47 | two command event names clash up to case exactly when their command names do |
| `Names.FindName` | asyevent/event_manager.py:159-165 | `next(filter(checker, registry), None)`: none iff no name matches; otherwise the position of a matching name with no match before it |
| `Names.ExistingNameAsWrittenMissesCaseVariant` | asyevent/event.py:39-40 | as written: with `Foo` listed, creating `foo` is detected as a clash, but the exception's own case-sensitive lookup finds nothing |
| `Names.ExistingName` | asyevent/event.py:39-40 | corrected: the clash carries a listed name that matches up to case, and exists iff some listed name matches up to case |
| `Names.ExistingNameRefinesAsWritten` | asyevent/command.py:39-40 | whenever the as-written lookup does find an entry, the corrected one finds an entry equal to it up to case |
| `Buckets.FlattenMembers` | asyevent/event.py:102-106 | a callback is listed by `callbacks` iff it sits in some bucket |
| `Buckets.FlattenOrder` | asyevent/event.py:104-105 | a callback in a higher-priority bucket is listed before one in a lower-priority bucket |
| `Buckets.AppendAddsOne` | asyevent/event.py:160-163 | appending to the bucket of `priority`, created if absent, adds exactly one occurrence of the callback to `callbacks` |
| `Buckets.AppendKeepsDistinct` | asyevent/event.py:157-163 | appending a callback found in no bucket keeps `callbacks` free of repeats |
| `Buckets.Without` | asyevent/event.py:173-175 | the filtered dictionary keeps every priority key, emptied buckets included |
| `Buckets.FlattenWithout` | asyevent/event.py:173-180 | after the filtering, `callbacks` is the old `callbacks` without the callback, the others in their old order |
| `Buckets.WithoutUnchanged` | asyevent/event.py:177-178 | `new == self._callbacks` holds iff the callback was registered in no bucket |
| `Coercion.AnnotationGuardRefusesMatchingValues` | asyevent/tools/parsing.py:63-67 | as written: the guard refuses a value whose type is exactly the annotated class, whenever that class is not its own metaclass |
| `Coercion.AnnotationGuardExample` | asyevent/utils/parser.py:50-51 | as written: with `__parse__(cls, value: str)`, the conversion raises `ParsingError` for the string `"abc"`, which the intended conversion hands to `__parse__` |
| `Coercion.AnnotationGuardPostponedExample` | asyevent/tools/parsing.py:59-69 | as written: with a postponed (string) annotation, a string value reaches `__parse__` whatever the annotation says, where the intended guard refuses it; a class with `__parse__` that does not derive from `IParsable` is parsed under the structural test and refused with `ParsingNotImplemented` under the nominal one |
| `Coercion.ConvertByClass` | asyevent/tools/parsing.py:49-74 | as written: a builtin hint gives the constructor's result, and a `ValueError` becomes `ParsingError`; a class the variant takes for parsable gives `ParsingError` iff the type of `__parse__`'s annotation differs from the value's type, else `__parse__`'s result or exception; any other hint gives `ParsingNotImplemented` |
| `Coercion.ConvertByClassIntended` | asyevent/tools/parsing.py:36-37 | corrected: for a parsable class, `__parse__` is called exactly when the value's type is the annotated class, and `ParsingError` is raised otherwise; other hints convert as written |
| `Coercion.ConvertByClassDiffersOnlyAtGuard` | asyevent/tools/parsing.py:63-69 | the written and the corrected conversion can differ only on a parsable class where the two guards disagree |
| `Coercion.Get` | asyevent/tools/parsing.py:94 | `hints.get(k)`: none iff `k` is not a key; otherwise a value stored under `k` |
| `Coercion.UnionGet` | asyevent/tools/parsing.py:92 | merging the parameter dictionary with `get_type_hints(f)`: a key takes its type hint when there is one, else the `Any` of the parameter list |
| `Coercion.UntypedParameters` | asyevent/tools/parsing.py:85-89 | the parameter dictionary maps every parameter except `self`, and nothing else, to `Any` |
| `Coercion.PositionalHints` | asyevent/tools/parsing.py:85-97 | positional hint `i` is the type hint, or `Any`, of the i-th parameter other than `self`; after the parameters come exactly the hints whose names are not parameters (such as `return`), in `get_type_hints` order |
| `Coercion.ParsePositional` | asyevent/tools/parsing.py:95-100 | positional output has the input's length, element `i` parsed against hint `i`; it fails with the first failing element's exception, and with `IndexError` past the end of the hints |
| `Coercion.ParseKeywords` | asyevent/tools/parsing.py:94 | keyword output keeps the keys in order, each value parsed against the hint of the same name; it fails with the first failing keyword's exception |
| `Parsing.ParseParameter` | asyevent/tools/parsing.py:44-76 | the result is the value itself, a constructor's result, or `__parse__`'s result for a class deriving from `IParsable` (`issubclass` on an abstract base class); errors are coercion errors; a `None` hint always fails, with the `TypeError` of `isinstance(value, None)` |
| `Parsing.InstancesPassUnchanged` | asyevent/tools/parsing.py:45-47 | a value with an `Any` hint, or already an instance of its hint, is returned unchanged |
| `Parsing.ParseParameterIdempotent` | asyevent/tools/parsing.py:44-76 | coercing a coerced value changes nothing more, given that constructors and `__parse__` return instances of their class |
| `Parsing.ParseArguments` | asyevent/tools/parsing.py:79-102 | against the merged hint dictionary (which `Parsing.ParseParameters` builds from the signature): succeeds iff there are no more positional arguments than hints and every argument coerces; then positional `i` is argument `i` coerced against hint `i`, and keyword `i` keeps its name and is its value coerced against the hint of that name |
| `Parsing.UnknownKeywordRefused` | asyevent/tools/parsing.py:94 | a keyword naming no parameter and no hint makes the coercion fail |
| `Parsing.SurplusPositionalRefused` | asyevent/tools/parsing.py:95-100 | more positional arguments than hints make the coercion fail |
| `Parser.ParseParameter` | asyevent/utils/parser.py:14-55 | an `Any` or `None` hint returns the value unchanged; otherwise the value, a constructor's result, or `__parse__`'s result for any class providing `__parse__` (a runtime-checkable protocol); never the `TypeError` |
| `Parser.AgreesWithParsing` | asyevent/utils/parser.py:33-55 | the two variants agree except on a `None` hint, which this one passes and the other refuses with `TypeError`, and on a class with `__parse__` that does not derive from `IParsable`, which this one converts and the other, for a value not already an instance, refuses with `ParsingNotImplemented` |
| `Parser.Padded` | asyevent/utils/parser.py:73-74 | the hint list is kept and padded with `Any` up to the number of positional arguments |
| `Parser.ParseArguments` | asyevent/utils/parser.py:58-80 | against the merged hint dictionary (which `Parser.ParseParameters` builds from the signature): succeeds iff every argument coerces against its padded hint; then positional `i` is argument `i` coerced against its hint, surplus positional arguments and unknown keywords pass unchanged, and keyword `i` keeps its name and is its value coerced against the hint of that name |
| `Parser.SurplusPositionalPassThrough` | asyevent/utils/parser.py:73-78 | a positional argument beyond the hint list is returned unchanged |
| `Callbacks.RepeatTimesOption` | asyevent/callback.py:60 | `repeat_times` comes from the `repeat_times` option, else from `loop`, else it is 1 |
| `Callbacks.RunStable` | asyevent/callback.py:105-106 | once an exception escaped an iteration, later iterations add no step |
| `Callbacks.RunAllReturned` | asyevent/callback.py:104-106 | when every call returns, `n` iterations are `n` calls, each followed by the loop delay when `repeat_times > 1` |
| `Callbacks.HandledOnce` | asyevent/callback.py:115-126 | with a handler and handling not refused, an iteration lets nothing escape, calls the coroutine once if the arguments coerced, and dispatches exactly the failure it met |
| `Callbacks.HandledRunCallsEveryIteration` | asyevent/callback.py:93-106 | with a handler and handling not refused, nothing escapes, the coroutine is called exactly `n` times, and there are as many dispatches as raising calls, whatever `continue_on_error` says |
| `Callbacks.UnhandledStopsAtFirstFailure` | asyevent/callback.py:115-123 | without a handler, or with handling refused, the invocation ends at the first raising call: the clean iterations before it, then that call, and its exception escapes |
| `Callbacks.CoercionErrorRouted` | asyevent/callback.py:111-123 | an argument coercion error is routed like an exception of the coroutine: when handled, every iteration dispatches it and the coroutine is never called; otherwise it escapes the first iteration |
| `Callbacks.Callback.constructor` | asyevent/callback.py:44-64 | option defaults: active, no start delay, handling accepted, loop delay 0, `continue_on_error` false; not running and no wrapper |
| `Callbacks.Callback.Create` | asyevent/callback.py:27-64 | fails iff the function is not a coroutine (`TypeError`) or is a classmethod without `self` (`ValueError`), checked in that order; otherwise a new object: given an existing callback, one carrying that callback's attributes (`SameAttributes`), else one with the options or their defaults |
| `Callbacks.Callback.PrepareArguments` | asyevent/callback.py:128-143 | coercion errors pass through; a classmethod callback without a wrapper fails with `ValueError`; otherwise the coerced arguments, with the wrapper in front for a classmethod |
| `Callbacks.Callback.Invoke` | asyevent/callback.py:78-108 | an inactive callback does nothing and leaves `is_running` alone; otherwise the start delay, then the iteration trace of `repeat_times` iterations; `is_running` is reset only when no exception escaped |
| `Callbacks.Callback.Iterate` | asyevent/callback.py:100-106 | the loop's trace and escaping exception are those of the iteration specification |
| `Callbacks.Callback.InvokeOnce` | asyevent/callback.py:110-126 | one iteration's steps and escaping exception are those of the iteration specification for the current options and arguments |
| `Callbacks.Callback.Enable` | asyevent/callback.py:145-149 | sets `is_active` and nothing else |
| `Callbacks.Callback.Disable` | asyevent/callback.py:151-155 | clears `is_active` and nothing else |
| `Callbacks.Callback.Loop` | asyevent/callback.py:157-165 | sets `repeat_times` and `loop_delay` and nothing else |
| `EventWrappers.FirstNonClassmethod` | asyevent/event_wrapper.py:32-36 | the position where `_init_callbacks` stops: every callback before it is a classmethod, and the one at it, if any, is not |
| `EventWrappers.EventWrapper.Create` | asyevent/event_wrapper.py:13-17 | a new wrapper lists the collected callbacks; it fails with `TypeError` iff one of them is not a classmethod; those before the first such one get the wrapper and the others keep theirs; only the callbacks' `wrapper` field can change |
| `EventWrappers.EventWrapper.InitCallbacks` | asyevent/event_wrapper.py:19-36 | appends the collected callbacks without resetting the list; gives this wrapper to each listed callback up to the first non-classmethod, where it fails with `TypeError`; nothing but the list and the callbacks' `wrapper` field changes |
| `EventWrappers.EventWrapper.Load` | asyevent/event_wrapper.py:38-43 | every listed callback is active afterwards; nothing but their `is_active` changes |
| `EventWrappers.EventWrapper.Unload` | asyevent/event_wrapper.py:45-50 | every listed callback is inactive afterwards; nothing but their `is_active` changes |
| `Events.AppendUniqueName` | asyevent/event_manager.py:137-145 | a name that clashes with no listed name up to case keeps the registry's names unique when appended |
| `Events.Event.Create` | asyevent/event.py:19-51 | fails with `EventAlreadyExists` iff the manager lists an event of that name up to case; otherwise a fresh event with no siblings, tasks or buckets |
| `Events.Event.AddCallback` | asyevent/event.py:143-163 | refused when single-callback and non-empty, then when already registered; otherwise appended to its priority's bucket; no repeats and the single-callback bound are kept |
| `Events.Event.RemoveCallback` | asyevent/event.py:165-180 | fails iff the callback is not registered; otherwise every bucket loses it, all keys kept, and `callbacks` keeps the others in order |
| `Events.Event.CreateCallback` | asyevent/event.py:125-141 | a refused coroutine fails as `Callback(...)` does; then `ValueError` for a second callback on a single-callback event; never the already-registered `ValueError`, since the callback is always a new object; otherwise that new callback, configured with the options and their defaults (or carrying a given callback's attributes), is appended to its priority's bucket and returned; a failure leaves the buckets unchanged |
| `Events.Event.InPlaceAdd` | asyevent/event.py:53-57 | `add_callback` at priority 1, with the same two `ValueError` cases in the same order |
| `Events.Event.InPlaceSubtract` | asyevent/event.py:59-62 | `remove_callback`: every bucket loses the callback; `ValueError` iff it was not registered |
| `Events.Event.Before` | asyevent/event.py:67-78 | the first access creates and lists `<before:name>` with the event's `handle_errors`; later accesses return the same event; the creation can fail on a name clash, or for an event without a manager; the manager's events change only by that one append |
| `Events.Event.After` | asyevent/event.py:80-92 | the same for `<after:name>` |
| `Events.Event.RaiseEvent` | asyevent/event.py:182-212 | the before event is raised first when it exists and has callbacks; one fresh task per callback is appended in `callbacks` order, with the error handler iff `handle_errors`; all tasks are awaited; the after event is raised last, with the elapsed time in front, when it exists and has callbacks |
| `Events.Event.Cancel` | asyevent/event.py:214-219 | every task the event ever scheduled is asked to cancel |
| `Events.Command.Create` | asyevent/command.py:20-62 | fails iff a listed command clashes up to case, then a listed event clashes with `<command:name>`, then the callback is refused; otherwise (`Seeded`) the command's event belongs to the manager, carries the given options and holds just the initial callback in its priority's bucket, a new object that carries a given callback's attributes or is configured with every default option |
| `Events.EventManager.constructor` | asyevent/event_manager.py:23-35 | no commands, and one event, `<error_handler>`, which handles no errors and is the error handler |
| `Events.EventManager.GetEvent` | asyevent/event_manager.py:167-183 | the first listed event whose name matches, exactly or up to case; none iff no event matches |
| `Events.EventManager.GetCommand` | asyevent/event_manager.py:147-165 | the first listed command whose name matches, exactly or up to case; none iff no command matches |
| `Events.EventManager.CreateEvent` | asyevent/event_manager.py:125-145 | appends the new event only after the uniqueness check passes; keeps the registry invariant |
| `Events.EventManager.CreateCommand` | asyevent/event_manager.py:89-123 | appends the new command to the commands, never its event to the events; keeps the registry invariant |
| `Events.EventManager.ReplaceCommandName` | asyevent/event_manager.py:185-199 | `CommandNotFound` when no command is named exactly so; otherwise only that command's name changes, with no uniqueness check |
| `Events.EventManager.RemoveEvent` | asyevent/event_manager.py:216-223 | removes the event and clears its manager; `ValueError` when it is not listed; keeps the registry invariant |
| `Events.EventManager.RemoveEventByName` | asyevent/event_manager.py:225-238 | `EventNotFound` on a case-sensitive miss; otherwise removes the first event of that name and clears its manager; every other listed event keeps its manager; keeps the registry invariant |
| `Events.EventManager.AddEvent` | asyevent/event_manager.py:201-214 | `EventAlreadyRegistered` when listed already, `AttributeError` without a previous manager, `ValueError` when not listed there; otherwise removed from its previous manager, appended here, and managed here; a failure leaves both registries and the event unchanged |
| `Events.EventManager.RemoveCommand` | asyevent/event_manager.py:255-262 | removes the command and clears its manager; `ValueError` when it is not listed; keeps the registry invariant |
| `Events.EventManager.RemoveCommandByName` | asyevent/event_manager.py:264-277 | `CommandNotFound` on a case-sensitive miss; otherwise removes the first command of that name and clears its event's manager; every other listed command's event keeps its manager; keeps the registry invariant |
| `Events.EventManager.AddCommand` | asyevent/event_manager.py:240-253 | `CommandAlreadyRegistered` when listed already, `AttributeError` without a previous manager, `ValueError` when not listed there; otherwise moved from its previous manager to this one; a failure leaves both registries unchanged |
| `Events.EventManager.RaiseEventByName` | asyevent/event_manager.py:299-317 | `EventNotFound` when the lookup misses; otherwise exactly one raise of the event found; only the events' task lists can change |
| `Events.EventManager.InvokeCommand` | asyevent/event_manager.py:279-297 | `CommandNotFound` when the lookup misses; otherwise exactly one raise of the command's event; only the command events' task lists can change |

## Left out

- Concurrency. The asyncio machinery is left out: `create_task`, `gather`, `sleep` and task
  cancellation. Sleeps and handler dispatches are trace steps. Scheduling a task records its
  arguments, and cancelling sets a flag on it. What escapes an awaited `gather`, or a sibling's
  raise, is an input of the raise.
- Events.Event.RaiseEvent: a sibling's raise and a task's run are recorded as steps. They are
  not unfolded into the sibling's own raise or into `Callback.invoke`, because siblings can
  chain without bound. `Callbacks.Callback.Invoke` describes what each task runs. The link
  between a task and that run is not stated.
- Time. `time.time()` and the elapsed time passed to the after event are an opaque value.
  Delays are `real` numbers that are recorded, not waited for.
- Reflection is taken as input:
  - `inspect.iscoroutinefunction` is an input;
  - the signature's parameter names and `get_type_hints` are an input;
  - `dir`/`getattr` discovery of a wrapper's callbacks is an input, the collected list.
  `isinstance`, `type`, the builtin constructors, `issubclass`, `__parse__` and its annotation
  are functions of a given `Runtime`.
- Hints the coercion cannot classify are left out: `issubclass` on something that is not a
  class raises a `TypeError`, which is not modelled. Every hint is one of `Any`, `None`, a
  builtin class, a parsable class or another class.
- Names.Casefold: only ASCII letters are folded. Python's `str.casefold` applies the full
  Unicode case-folding rules.
- Callbacks.Callback.Create: a `Callback` built from a `Callback` shares that callback's
  attribute dictionary. The model gives the new object a copy of the attributes, so a later
  change made through one object (`enable`, `disable`, `loop`, `is_running`, `wrapper`) is not
  seen through the other.
- Events.Event.CreateCallback and Events.Command.Create inherit that gap. A callback passed in is
  registered as a new object, as in Python. Its attributes are tied to the given callback's only
  at creation.
- Callbacks.Callback.Invoke: the endless loop of `repeat_times <= 0` is cut after `fuel`
  iterations, which is reported as still looping. What happens beyond them is not stated.
- `Callback.__call__` and `Event.__call__` are thin aliases of `invoke` and `raise_event`, and
  are not modelled separately.
- The decorators `as_callback` and `as_command` only call `create_callback` and
  `create_command`, and are not modelled.
- The read-only properties `events`, `commands` and `initial_callback` are not modelled. The
  registries and the initial callback are fields of the model.
- `Command` subclasses `Event` in Python. Here a command holds its event, and the event fields
  of a command are those of `Command.event`.
- Exception messages are left out, because they depend on Python's `repr`. Exceptions are kinds
  that carry the names involved.
- The example programs, packaging files and `asyevent/utils/checker.py` are not part of this
  model.

## Findings

| source | as written | input that shows it | evidently intended | confidence | as-written member | corrected member |
|---|---|---|---|---|---|---|
| asyevent/tools/parsing.py:63 | `type(params[0]) is not type(value)` compares the value's type with the type of `__parse__`'s annotation. For a class annotation, the type of the annotation is its metaclass. The same guard is at asyevent/utils/parser.py:50. | A parsable class with `__parse__(cls, value: str)`, in a module without postponed annotations, given `"abc"`. `type(str)` is `type` but `type("abc")` is `str`, so `ParsingError` is raised. | Parse when the value's type is the annotated class, as the docstring says: "type hinting forces a match". | not executed; medium (with postponed annotations, as in examples/usecase_1.py, the annotation is a string, and the guard then passes every string value and no other; the coercion of the model keeps the written guard for that reason) | `Coercion.AnnotationGuardExample` | `Coercion.ConvertByClassIntended` |
| asyevent/event.py:39-40 | The clash is found case-insensitively, but `EventAlreadyExists(event_manager.get_event(name))` looks the clashing event up again case-sensitively and reads its name. The same pattern is at asyevent/command.py:39-40. | The manager lists `Foo`, and `create_event("foo")` is called. The second lookup returns `None`, so `AttributeError` is raised instead of `EventAlreadyExists`. | `EventAlreadyExists` for the clashing event, found with the same case-insensitive test. | not executed; high | `Names.ExistingNameAsWrittenMissesCaseVariant` | `Names.ExistingName` |
