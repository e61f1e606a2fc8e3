/**
 * `asyevent/event.py`, `asyevent/command.py` and `asyevent/event_manager.py`: events holding
 * prioritised callbacks, commands (events created around an initial callback and kept in a
 * registry of their own) and the manager owning both registries and the error handler event.
 * The three refer to each other, so they share one module.
 *
 * Raising an event schedules one task per callback and awaits all of the event's tasks; the
 * tasks' own runs (described by `Callbacks.Callback.Invoke`), the elapsed time and what the
 * awaited work lets escape are given as an `Environment`.
 */
module Events {
  import opened Wrappers
  import opened PyRuntime
  import opened Exceptions
  import opened Names
  import opened Collections
  import opened Buckets
  import opened Callbacks

  /** What one `raise_event` learns from outside: the elapsed time and the awaited outcomes. */
  datatype Environment = Environment(
    elapsed: PyObject,            // `time.time() - start_time`
    beforeOutcome: Option<Error>, // what escaped the before event's raise
    gatherOutcome: Option<Error>, // the first exception of a gathered task
    afterOutcome: Option<Error>)  // what escaped the after event's raise

  /** The awaited steps of `raise_event`, besides the invocations it schedules. */
  datatype RaiseStep =
    | RaisedSibling(sibling: Event, args: seq<PyObject>, kwargs: seq<(string, PyObject)>)
    | Gathered(count: nat)

  /** An asyncio task running `callback.invoke(*args, **kwargs, _event=event, _handler=handler)`. */
  class Task {
    const callback: Callback
    const args: seq<PyObject>
    const kwargs: seq<(string, PyObject)>
    const event: Event
    const handler: Option<Event>
    var cancelRequested: bool

    constructor (callback: Callback, args: seq<PyObject>, kwargs: seq<(string, PyObject)>, event: Event, handler: Option<Event>)
      ensures this.callback == callback && this.args == args && this.kwargs == kwargs
      ensures this.event == event && this.handler == handler && !cancelRequested
    {
      this.callback := callback;
      this.args := args;
      this.kwargs := kwargs;
      this.event := event;
      this.handler := handler;
      cancelRequested := false;
    }
  }

  /** `e and e.callbacks`: the sibling exists and has something to run. */
  predicate HasCallbacks(e: Event?)
    reads e
  {
    e != null && Flatten(e.buckets) != []
  }

  function EventNames(s: seq<Event>): seq<string> {
    if s == [] then [] else [s[0].name] + EventNames(s[1..])
  }

  function CommandNames(s: seq<Command>): seq<string>
    reads set c | c in s
  {
    if s == [] then [] else [s[0].commandName] + CommandNames(s[1..])
  }

  lemma {:induction false} EventNamesAt(s: seq<Event>)
    ensures |EventNames(s)| == |s|
    ensures forall i :: 0 <= i < |s| ==> EventNames(s)[i] == s[i].name
  {
    if s != [] {
      EventNamesAt(s[1..]);
    }
  }

  lemma {:induction false} CommandNamesAt(s: seq<Command>)
    ensures |CommandNames(s)| == |s|
    ensures forall i :: 0 <= i < |s| ==> CommandNames(s)[i] == s[i].commandName
  {
    if s != [] {
      CommandNamesAt(s[1..]);
    }
  }

  /** Listing one more event lists one more name, at the end. */
  lemma {:induction false} EventNamesAppend(s: seq<Event>, e: Event)
    ensures EventNames(s + [e]) == EventNames(s) + [e.name]
  {
    if s != [] {
      assert (s + [e])[1..] == s[1..] + [e];
      EventNamesAppend(s[1..], e);
    }
  }

  /** Listing one more command lists one more name, at the end. */
  lemma {:induction false} CommandNamesAppend(s: seq<Command>, c: Command)
    ensures CommandNames(s + [c]) == CommandNames(s) + [c.commandName]
  {
    if s != [] {
      assert (s + [c])[1..] == s[1..] + [c];
      CommandNamesAppend(s[1..], c);
    }
  }

  /** No two names of a registry are equal up to case. */
  predicate UniqueNames(names: seq<string>) {
    forall i, j :: 0 <= i < j < |names| ==> !NameMatches(names[i], names[j], false)
  }

  /** A name clashing with none of a registry keeps the registry's names unique. */
  lemma AppendUniqueName(names: seq<string>, name: string)
    requires UniqueNames(names)
    requires ExistingName(names, name).None?
    ensures UniqueNames(names + [name])
  {
    forall i, j | 0 <= i < j < |names + [name]|
      ensures !NameMatches((names + [name])[i], (names + [name])[j], false)
    {
      if j == |names| {
        assert !NameMatches(names[i], name, false);
      }
    }
  }

  /** Dropping one entry keeps a registry's names unique. */
  lemma UniqueNamesRemove(names: seq<string>, i: nat)
    requires i < |names| && UniqueNames(names)
    ensures UniqueNames(names[..i] + names[i + 1..])
  {
    var r := names[..i] + names[i + 1..];
    forall a, b | 0 <= a < b < |r| ensures !NameMatches(r[a], r[b], false) {
      var a' := if a < i then a else a + 1;
      var b' := if b < i then b else b + 1;
      assert r[a] == names[a'] && r[b] == names[b'];
    }
  }

  /** `list.remove` on a registry removes the same position from its names. */
  lemma EventNamesRemoveFirst(s: seq<Event>, e: Event)
    requires e in s
    ensures var i := IndexOf(s, e);
      |EventNames(s)| == |s| && EventNames(RemoveFirst(s, e)) == EventNames(s)[..i] + EventNames(s)[i + 1..]
  {
    var i := IndexOf(s, e);
    var r := RemoveFirst(s, e);
    assert r == s[..i] + s[i + 1..];
    EventNamesAt(s);
    EventNamesAt(r);
    forall k | 0 <= k < |r| ensures EventNames(r)[k] == (EventNames(s)[..i] + EventNames(s)[i + 1..])[k] {
      assert r[k] == if k < i then s[k] else s[k + 1];
    }
  }

  lemma CommandNamesRemoveFirst(s: seq<Command>, c: Command)
    requires c in s
    ensures var i := IndexOf(s, c);
      |CommandNames(s)| == |s| && CommandNames(RemoveFirst(s, c)) == CommandNames(s)[..i] + CommandNames(s)[i + 1..]
  {
    var i := IndexOf(s, c);
    var r := RemoveFirst(s, c);
    assert r == s[..i] + s[i + 1..];
    CommandNamesAt(s);
    CommandNamesAt(r);
    forall k | 0 <= k < |r| ensures CommandNames(r)[k] == (CommandNames(s)[..i] + CommandNames(s)[i + 1..])[k] {
      assert r[k] == if k < i then s[k] else s[k + 1];
    }
  }

  class Event {
    const name: string
    const handleErrors: bool
    const multipleCallbacks: bool
    var manager: EventManager?
    var before: Event?
    var after: Event?
    var tasks: seq<Task>
    var buckets: PriorityMap<Callback>

    /** The state `__init__` leaves once its name check passed (see `Create`). */
    constructor (name: string, manager: EventManager, handleErrors: bool, multipleCallbacks: bool)
      ensures this.name == name && this.manager == manager
      ensures this.handleErrors == handleErrors && this.multipleCallbacks == multipleCallbacks
      ensures before == null && after == null && tasks == [] && buckets == map[]
    {
      this.name := name;
      this.manager := manager;
      this.handleErrors := handleErrors;
      this.multipleCallbacks := multipleCallbacks;
      before := null;
      after := null;
      tasks := [];
      buckets := map[];
    }

    /**
     * `Event(name, event_manager=manager, ...)`: refused when the manager already lists an event
     * of that name up to case. The new event is not listed by the manager.
     */
    static method Create(name: string, manager: EventManager, handleErrors: bool, multipleCallbacks: bool)
      returns (r: Result<Event, Error>)
      ensures var clash := ExistingName(EventNames(manager.events), name);
        && (clash.Some? ==> r == Err(EventAlreadyExists(clash.value)))
        && (clash.None? ==> r.Ok?)
      ensures r.Ok? ==> var e := r.value;
        && fresh(e) && e.name == name && e.manager == manager
        && e.handleErrors == handleErrors && e.multipleCallbacks == multipleCallbacks
        && e.before == null && e.after == null && e.tasks == [] && e.buckets == map[]
    {
      var clash := ExistingName(EventNames(manager.events), name);
      if clash.Some? {
        return Err(EventAlreadyExists(clash.value));
      }
      var e := new Event(name, manager, handleErrors, multipleCallbacks);
      return Ok(e);
    }

    /** The `callbacks` property: every bucket, highest priority first. */
    function Callbacks(): seq<Callback>
      reads this
    {
      Flatten(buckets)
    }

    /** What `add_callback` and `remove_callback` keep: no repeats, at most one when single. */
    predicate Valid()
      reads this
    {
      Distinct(Callbacks()) && (!multipleCallbacks ==> |Callbacks()| <= 1)
    }

    /** The `_handler` each scheduled invocation receives. */
    function Handler(): Option<Event>
      reads this, manager
    {
      if handleErrors && manager != null && manager.errorHandler != null then Some(manager.errorHandler) else None
    }

    /**
     * `add_callback(callback, priority=priority)`: refused when the event takes a single callback
     * and has one, or when the callback is registered already; otherwise appended to its bucket.
     */
    method AddCallback(callback: Callback, priority: int) returns (r: Result<(), Error>)
      modifies this`buckets
      ensures !multipleCallbacks && old(Callbacks()) != [] ==> r == Err(ValueError(MultipleCallbacksRefused))
      ensures (multipleCallbacks || old(Callbacks()) == []) && callback in old(Callbacks()) ==>
        r == Err(ValueError(CallbackAlreadyRegistered))
      ensures r.Ok? <==> (multipleCallbacks || old(Callbacks()) == []) && callback !in old(Callbacks())
      ensures buckets == if r.Ok? then Append(old(buckets), priority, callback) else old(buckets)
      ensures r.Ok? ==> multiset(Callbacks()) == multiset(old(Callbacks())) + multiset{callback}
      ensures old(Valid()) ==> Valid()
    {
      if !multipleCallbacks && Callbacks() != [] {
        return Err(ValueError(MultipleCallbacksRefused));
      }
      if callback in Callbacks() {
        return Err(ValueError(CallbackAlreadyRegistered));
      }
      AppendAddsOne(buckets, priority, callback);
      if Distinct(Callbacks()) {
        AppendKeepsDistinct(buckets, priority, callback);
      }
      buckets := Append(buckets, priority, callback);
      return Ok(());
    }

    /**
     * `remove_callback(callback)`: drops it from every bucket (buckets stay, possibly empty);
     * refused when that changes nothing.
     */
    method RemoveCallback(callback: Callback) returns (r: Result<(), Error>)
      modifies this`buckets
      ensures r.Err? <==> callback !in old(Callbacks())
      ensures r.Err? ==> r.error == ValueError(CallbackNotRegistered)
      ensures buckets == Without(old(buckets), callback)
      ensures Callbacks() == Filter(old(Callbacks()), callback)
      ensures old(Valid()) ==> Valid()
    {
      var updated := Without(buckets, callback);
      WithoutUnchanged(buckets, callback);
      FlattenWithout(buckets, callback);
      if updated == buckets {
        return Err(ValueError(CallbackNotRegistered));
      }
      buckets := updated;
      return Ok(());
    }

    /** `create_callback(coroutine, priority=priority, **options)` */
    method CreateCallback(source: Source, priority: int) returns (r: Result<Callback, Error>)
      modifies this`buckets
      ensures Refusal(source).Some? ==> r == Err(Refusal(source).value)
      ensures Refusal(source).None? && !multipleCallbacks && old(Callbacks()) != [] ==>
        r == Err(ValueError(MultipleCallbacksRefused))
      ensures r.Ok? <==> Refusal(source).None? && (multipleCallbacks || old(Callbacks()) == [])
      ensures r != Err(ValueError(CallbackAlreadyRegistered))
      ensures r.Ok? ==> fresh(r.value) && buckets == Append(old(buckets), priority, r.value) && r.value in Callbacks()
      ensures r.Ok? && source.FromCallback? ==> SameAttributes(r.value, source.callback)
      ensures r.Ok? && source.FromCoroutine? ==>
        Configured(r.value, source.coroutine, source.isClassmethod, source.options)
      ensures r.Err? ==> buckets == old(buckets)
      ensures old(Valid()) ==> Valid()
    {
      var callback :- Callback.Create(source);
      FlattenMembers(old(buckets), callback);
      assert forall p :: p in old(buckets) ==> callback !in old(buckets)[p];
      var added := AddCallback(callback, priority);
      if added.Err? {
        return Err(added.error);
      }
      AppendAddsOne(old(buckets), priority, callback);
      return Ok(callback);
    }

    /** `event += callback`: `add_callback` at the default priority 1. */
    method InPlaceAdd(callback: Callback) returns (r: Result<(), Error>)
      modifies this`buckets
      ensures !multipleCallbacks && old(Callbacks()) != [] ==> r == Err(ValueError(MultipleCallbacksRefused))
      ensures (multipleCallbacks || old(Callbacks()) == []) && callback in old(Callbacks()) ==>
        r == Err(ValueError(CallbackAlreadyRegistered))
      ensures r.Ok? <==> (multipleCallbacks || old(Callbacks()) == []) && callback !in old(Callbacks())
      ensures buckets == if r.Ok? then Append(old(buckets), 1, callback) else old(buckets)
    {
      r := AddCallback(callback, 1);
    }

    /** `event -= callback`: `remove_callback`. */
    method InPlaceSubtract(callback: Callback) returns (r: Result<(), Error>)
      modifies this`buckets
      ensures r.Err? <==> callback !in old(Callbacks())
      ensures r.Err? ==> r.error == ValueError(CallbackNotRegistered)
      ensures buckets == Without(old(buckets), callback)
      ensures Callbacks() == Filter(old(Callbacks()), callback)
    {
      r := RemoveCallback(callback);
    }

    /**
     * The `before` property: created on first use through the manager, named
     * `<before:name>`, with this event's `handle_errors`.
     */
    method Before() returns (r: Result<Event, Error>)
      modifies this`before, (if manager == null then {} else {manager})`events
      ensures old(before) != null ==> r == Ok(old(before)) && before == old(before)
      ensures old(before) == null && manager == null ==> r == Err(AttributeError) && before == null
      ensures old(before) == null && manager != null ==>
        var clash := ExistingName(EventNames(old(manager.events)), BeforeName(name));
        && (clash.Some? ==> r == Err(EventAlreadyExists(clash.value)) && before == null)
        && (clash.None? ==>
              && r.Ok? && before == r.value && fresh(r.value)
              && r.value.name == BeforeName(name) && r.value.handleErrors == handleErrors
              && r.value.multipleCallbacks && r.value.manager == manager
              && manager.events == old(manager.events) + [r.value])
      ensures manager != null && (old(before) != null || r.Err?) ==> manager.events == old(manager.events)
    {
      if before != null {
        return Ok(before);
      }
      if manager == null {
        return Err(AttributeError);
      }
      r := manager.CreateEvent(BeforeName(name), handleErrors, true);
      if r.Ok? {
        before := r.value;
      }
    }

    /**
     * The `after` property: created on first use through the manager, named `<after:name>`,
     * with this event's `handle_errors`.
     */
    method After() returns (r: Result<Event, Error>)
      modifies this`after, (if manager == null then {} else {manager})`events
      ensures old(after) != null ==> r == Ok(old(after)) && after == old(after)
      ensures old(after) == null && manager == null ==> r == Err(AttributeError) && after == null
      ensures old(after) == null && manager != null ==>
        var clash := ExistingName(EventNames(old(manager.events)), AfterName(name));
        && (clash.Some? ==> r == Err(EventAlreadyExists(clash.value)) && after == null)
        && (clash.None? ==>
              && r.Ok? && after == r.value && fresh(r.value)
              && r.value.name == AfterName(name) && r.value.handleErrors == handleErrors
              && r.value.multipleCallbacks && r.value.manager == manager
              && manager.events == old(manager.events) + [r.value])
      ensures manager != null && (old(after) != null || r.Err?) ==> manager.events == old(manager.events)
    {
      if after != null {
        return Ok(after);
      }
      if manager == null {
        return Err(AttributeError);
      }
      r := manager.CreateEvent(AfterName(name), handleErrors, true);
      if r.Ok? {
        after := r.value;
      }
    }

    /** A task scheduled by `raise_event` for `callback`. */
    predicate Schedules(t: Task, callback: Callback, args: seq<PyObject>, kwargs: seq<(string, PyObject)>, handler: Option<Event>)
      reads t
    {
      t.callback == callback && t.args == args && t.kwargs == kwargs && t.event == this
      && t.handler == handler && !t.cancelRequested
    }

    /**
     * What `raise_event(*args, **kwargs)` does: raise the before event when it has callbacks;
     * schedule one invocation per callback in priority order (reading the error handler off a
     * missing manager fails when `handle_errors`); await every task the event ever scheduled;
     * then raise the after event, with the elapsed time in front, when it has callbacks. The
     * first exception that escapes ends the raise.
     */
    twostate predicate Raised(args: seq<PyObject>, kwargs: seq<(string, PyObject)>, env: Environment,
                              new steps: seq<RaiseStep>, new outcome: Option<Error>)
      reads this, before, after, manager, set t | t in tasks
    {
      var callbacks := Callbacks();
      var start := |old(tasks)|;
      var pre := if HasCallbacks(before) then [RaisedSibling(before, args, kwargs)] else [];
      if HasCallbacks(before) && env.beforeOutcome.Some? then
        steps == pre && outcome == env.beforeOutcome && tasks == old(tasks)
      else if callbacks != [] && handleErrors && manager == null then
        steps == pre && outcome == Some(AttributeError) && tasks == old(tasks)
      else
        && |tasks| == start + |callbacks| && tasks[..start] == old(tasks)
        && (forall i :: 0 <= i < |callbacks| ==>
              fresh(tasks[start..][i]) && Schedules(tasks[start..][i], callbacks[i], args, kwargs, Handler()))
        && steps == pre + [Gathered(|tasks|)]
                   + (if env.gatherOutcome.None? && HasCallbacks(after) then [RaisedSibling(after, [env.elapsed] + args, kwargs)] else [])
        && outcome == (if env.gatherOutcome.Some? then env.gatherOutcome
                       else if HasCallbacks(after) then env.afterOutcome else None)
    }

    method RaiseEvent(args: seq<PyObject>, kwargs: seq<(string, PyObject)>, env: Environment)
      returns (steps: seq<RaiseStep>, outcome: Option<Error>)
      modifies this`tasks
      ensures Raised(args, kwargs, env, steps, outcome)
    {
      steps, outcome := [], None;
      if HasCallbacks(before) {
        steps := [RaisedSibling(before, args, kwargs)];
        if env.beforeOutcome.Some? {
          outcome := env.beforeOutcome;
          return;
        }
      }
      var callbacks := Callbacks();
      if callbacks != [] && handleErrors && manager == null {
        outcome := Some(AttributeError);
        return;
      }
      var handler := Handler();
      ghost var added: seq<Task> := [];
      var i := 0;
      while i < |callbacks|
        invariant 0 <= i <= |callbacks| && |added| == i && tasks == old(tasks) + added
        invariant forall j :: 0 <= j < i ==>
          fresh(added[j]) && Schedules(added[j], callbacks[j], args, kwargs, handler)
      {
        var t := new Task(callbacks[i], args, kwargs, this, handler);
        tasks := tasks + [t];
        added := added + [t];
        i := i + 1;
      }
      assert tasks[|old(tasks)|..] == added;
      steps := steps + [Gathered(|tasks|)];
      if env.gatherOutcome.Some? {
        outcome := env.gatherOutcome;
      } else if HasCallbacks(after) {
        steps := steps + [RaisedSibling(after, [env.elapsed] + args, kwargs)];
        outcome := env.afterOutcome;
      }
    }

    /** `cancel()`: asks every task the event ever scheduled to cancel. */
    method Cancel()
      modifies set t | t in tasks
      ensures forall t :: t in tasks ==> t.cancelRequested
    {
      var i := 0;
      while i < |tasks|
        invariant 0 <= i <= |tasks|
        invariant forall j :: 0 <= j < i ==> tasks[j].cancelRequested
      {
        tasks[i].cancelRequested := true;
        i := i + 1;
      }
    }
  }

  /**
   * The exception creating a command raises, checks in order: a listed command with the name
   * up to case, a listed event with the command's event name up to case, a refused callback.
   */
  function CommandRefusal(commandNames: seq<string>, eventNames: seq<string>, commandName: string, source: Source): (r: Option<Error>)
  {
    match ExistingName(commandNames, commandName)
    case Some(clash) => Some(CommandAlreadyExists(clash))
    case None =>
      match ExistingName(eventNames, CommandEventName(commandName))
      case Some(clash) => Some(EventAlreadyExists(clash))
      case None => Refusal(source)
  }

  /**
   * A command as `Command.__init__` leaves it: its event belongs to `manager`, carries the given
   * options and holds the initial callback alone, at `priority`; that callback is a new object carrying
   * the given callback's attributes, or one built from the coroutine with its default options.
   */
  predicate Seeded(c: Command, manager: EventManager, handleErrors: bool, multipleCallbacks: bool,
                   priority: int, source: Source)
    reads c.event, c.initialCallback, (if source.FromCallback? then {source.callback} else {})
  {
    && c.event.manager == manager
    && c.event.handleErrors == handleErrors && c.event.multipleCallbacks == multipleCallbacks
    && c.event.buckets == map[priority := [c.initialCallback]]
    && (source.FromCallback? ==> SameAttributes(c.initialCallback, source.callback))
    && (source.FromCoroutine? ==> Configured(c.initialCallback, source.coroutine, source.isClassmethod, source.options))
  }

  /**
   * A command: an event named `<command:name>` created around an initial callback. Python
   * makes it a subclass of the event; here it holds its event.
   */
  class Command {
    var commandName: string
    const event: Event
    const initialCallback: Callback

    constructor (commandName: string, event: Event, initialCallback: Callback)
      ensures this.commandName == commandName && this.event == event && this.initialCallback == initialCallback
    {
      this.commandName := commandName;
      this.event := event;
      this.initialCallback := initialCallback;
    }

    /**
     * `Command(coroutine, event_manager=manager, name=name, ...)`: the name is the given one or
     * else the coroutine's; the command's event is built (and not listed by the manager) and
     * seeded with the initial callback at `priority`.
     */
    static method Create(source: Source, name: Option<string>, manager: EventManager, handleErrors: bool,
                         multipleCallbacks: bool, priority: int) returns (r: Result<Command, Error>)
      ensures var cname := CommandName(name.GetOr(""), SourceName(source));
        var refusal := CommandRefusal(CommandNames(manager.commands), EventNames(manager.events), cname, source);
        && (r.Err? <==> refusal.Some?)
        && (r.Err? ==> r.error == refusal.value)
        && (r.Ok? ==> r.value.commandName == cname && r.value.event.name == CommandEventName(cname))
      ensures r.Ok? ==> var c := r.value;
        && fresh(c) && fresh(c.event) && fresh(c.initialCallback)
        && Seeded(c, manager, handleErrors, multipleCallbacks, priority, source)
    {
      var cname := CommandName(name.GetOr(""), SourceName(source));
      ghost var refusal := CommandRefusal(CommandNames(manager.commands), EventNames(manager.events), cname, source);
      var clash := ExistingName(CommandNames(manager.commands), cname);
      if clash.Some? {
        return Err(CommandAlreadyExists(clash.value));
      }
      var made := Event.Create(CommandEventName(cname), manager, handleErrors, multipleCallbacks);
      if made.Err? {
        return Err(made.error);
      }
      var event := made.value;
      assert refusal == Refusal(source);
      assert event.Callbacks() == [];
      var created := event.CreateCallback(source, priority);
      if created.Err? {
        assert refusal.Some?;
        return Err(created.error);
      }
      var callback := created.value;
      assert [] + [callback] == [callback];
      assert event.buckets == map[priority := [callback]];
      var command := new Command(cname, event, callback);
      assert CommandNames(manager.commands) == old(CommandNames(manager.commands));
      return Ok(command);
    }
  }

  class EventManager {
    var events: seq<Event>
    var commands: seq<Command>
    var errorHandler: Event?

    /** `EventManager()`: creates and lists the `<error_handler>` event, which handles no errors. */
    constructor ()
      ensures commands == [] && errorHandler != null && events == [errorHandler] && fresh(errorHandler)
      ensures errorHandler.name == ErrorHandlerName && errorHandler.manager == this
      ensures !errorHandler.handleErrors && errorHandler.multipleCallbacks && errorHandler.buckets == map[]
    {
      events := [];
      commands := [];
      errorHandler := null;
      new;
      var r := CreateEvent(ErrorHandlerName, false, true);
      assert r.Ok?;
      errorHandler := r.value;
    }

    /** The registry invariants that creation and removal keep. */
    predicate Valid()
      reads this, set c | c in commands
    {
      Distinct(events) && Distinct(commands)
      && UniqueNames(EventNames(events)) && UniqueNames(CommandNames(commands))
    }

    /** `get_event(name, case_sensitive=...)`: the first listed event whose name matches. */
    function GetEvent(name: string, caseSensitive: bool): (r: Option<Event>)
      reads this
      ensures r.None? <==> forall e :: e in events ==> !NameMatches(e.name, name, caseSensitive)
      ensures r.Some? ==>
        exists i ::
          && 0 <= i < |events| && events[i] == r.value
          && NameMatches(r.value.name, name, caseSensitive)
          && forall j :: 0 <= j < i ==> !NameMatches(events[j].name, name, caseSensitive)
    {
      EventNamesAt(events);
      match FindName(EventNames(events), name, caseSensitive)
      case None => None
      case Some(i) => Some(events[i])
    }

    /** `get_command(name, case_sensitive=...)`: the first listed command whose name matches. */
    function GetCommand(name: string, caseSensitive: bool): (r: Option<Command>)
      reads this, set c | c in commands
      ensures r.None? <==> forall c :: c in commands ==> !NameMatches(c.commandName, name, caseSensitive)
      ensures r.Some? ==>
        exists i ::
          && 0 <= i < |commands| && commands[i] == r.value
          && NameMatches(r.value.commandName, name, caseSensitive)
          && forall j :: 0 <= j < i ==> !NameMatches(commands[j].commandName, name, caseSensitive)
    {
      CommandNamesAt(commands);
      match FindName(CommandNames(commands), name, caseSensitive)
      case None => None
      case Some(i) => Some(commands[i])
    }

    /** `create_event(name, ...)`: `Event(...)`, then listed. */
    method CreateEvent(name: string, handleErrors: bool, multipleCallbacks: bool) returns (r: Result<Event, Error>)
      modifies this`events
      ensures var clash := ExistingName(EventNames(old(events)), name);
        && (clash.Some? ==> r == Err(EventAlreadyExists(clash.value)))
        && (clash.None? ==> r.Ok?)
      ensures r.Err? ==> events == old(events)
      ensures r.Ok? ==> var e := r.value;
        && fresh(e) && events == old(events) + [e] && e.name == name && e.manager == this
        && e.handleErrors == handleErrors && e.multipleCallbacks == multipleCallbacks
        && e.before == null && e.after == null && e.tasks == [] && e.buckets == map[]
      ensures old(Valid()) ==> Valid()
    {
      r := Event.Create(name, this, handleErrors, multipleCallbacks);
      if r.Ok? {
        ghost var names := EventNames(events);
        if UniqueNames(names) {
          AppendUniqueName(names, name);
        }
        EventNamesAppend(events, r.value);
        DistinctSnoc(events, r.value);
        events := events + [r.value];
      }
    }

    /**
     * `create_command(coroutine, name=name, ...)`: the command name is the given one or else
     * the coroutine's; refused when a listed command has it up to case, then built as the event
     * `<command:name>` (not listed among the events) seeded with the initial callback.
     */
    method CreateCommand(source: Source, name: Option<string>, handleErrors: bool, multipleCallbacks: bool, priority: int)
      returns (r: Result<Command, Error>)
      modifies this`commands
      ensures var cname := CommandName(name.GetOr(""), SourceName(source));
        var refusal := CommandRefusal(old(CommandNames(commands)), EventNames(events), cname, source);
        && (r.Err? <==> refusal.Some?)
        && (r.Err? ==> r.error == refusal.value && commands == old(commands))
        && (r.Ok? ==> r.value.commandName == cname && r.value.event.name == CommandEventName(cname))
      ensures r.Ok? ==> var c := r.value;
        && fresh(c) && fresh(c.event) && fresh(c.initialCallback)
        && commands == old(commands) + [c] && c.event !in events
        && Seeded(c, this, handleErrors, multipleCallbacks, priority, source)
      ensures old(Valid()) ==> Valid()
    {
      r := Command.Create(source, name, this, handleErrors, multipleCallbacks, priority);
      if r.Ok? {
        var cname := CommandName(name.GetOr(""), SourceName(source));
        ghost var names := CommandNames(commands);
        if UniqueNames(names) {
          AppendUniqueName(names, cname);
        }
        CommandNamesAppend(commands, r.value);
        DistinctSnoc(commands, r.value);
        commands := commands + [r.value];
      }
    }

    /**
     * `replace_command_name(name, new_name=...)`: renames the first command named exactly
     * `name`; the new name is not checked against the other commands.
     */
    method ReplaceCommandName(name: string, newName: string) returns (r: Result<(), Error>)
      modifies set c | c in commands
      ensures old(GetCommand(name, true)).None? ==> r == Err(CommandNotFound(name))
      ensures old(GetCommand(name, true)).Some? ==> r.Ok? && old(GetCommand(name, true)).value.commandName == newName
      ensures forall c :: c in commands && Some(c) != old(GetCommand(name, true)) ==> c.commandName == old(c.commandName)
    {
      var command := GetCommand(name, true);
      if command.None? {
        return Err(CommandNotFound(name));
      }
      command.value.commandName := newName;
      return Ok(());
    }

    /** `remove_event(event)`: `list.remove`, then the event forgets its manager. */
    method RemoveEvent(event: Event) returns (r: Result<(), Error>)
      modifies this`events, event`manager
      ensures event !in old(events) ==> r == Err(ValueError(NotInList)) && events == old(events) && event.manager == old(event.manager)
      ensures event in old(events) ==> r.Ok? && events == RemoveFirst(old(events), event) && event.manager == null
      ensures old(Distinct(events)) ==> Distinct(events) && event !in events
      ensures old(Valid()) ==> Valid()
    {
      if event !in events {
        return Err(ValueError(NotInList));
      }
      EventNamesRemoveFirst(events, event);
      if UniqueNames(EventNames(events)) {
        EventNamesAt(events);
        UniqueNamesRemove(EventNames(events), IndexOf(events, event));
      }
      events := RemoveFirst(events, event);
      event.manager := null;
      return Ok(());
    }

    /** `remove_event_by_name(name)`: the first event named exactly `name`, removed. */
    method RemoveEventByName(name: string) returns (r: Result<(), Error>)
      modifies this`events, (set e | e in events)`manager
      ensures old(GetEvent(name, true)).None? ==> r == Err(EventNotFound(name)) && events == old(events)
      ensures old(GetEvent(name, true)).Some? ==> var e := old(GetEvent(name, true)).value;
        r.Ok? && events == RemoveFirst(old(events), e) && e.manager == null
      ensures forall e :: e in old(events) && Some(e) != old(GetEvent(name, true)) ==> e.manager == old(e.manager)
      ensures old(Valid()) ==> Valid()
    {
      var event := GetEvent(name, true);
      if event.None? {
        return Err(EventNotFound(name));
      }
      r := RemoveEvent(event.value);
    }

    /**
     * `add_event(event)`: refused when listed already; otherwise removed from its previous
     * manager (failing when it has none, or is not listed there) and listed here.
     */
    method AddEvent(event: Event) returns (r: Result<(), Error>)
      modifies this`events, event`manager, (if event.manager == null then {} else {event.manager})`events
      ensures event in old(events) ==> r == Err(EventAlreadyRegistered(event.name))
      ensures event !in old(events) && old(event.manager) == null ==> r == Err(AttributeError)
      ensures event !in old(events) && old(event.manager) != null && event !in old(event.manager.events) ==>
        r == Err(ValueError(NotInList))
      ensures r.Ok? <==> event !in old(events) && old(event.manager) != null && event in old(event.manager.events)
      ensures r.Err? ==> events == old(events) && event.manager == old(event.manager)
      ensures r.Err? && old(event.manager) != null ==> old(event.manager).events == old(event.manager.events)
      ensures r.Ok? ==> var previous := old(event.manager);
        && previous != this && previous.events == RemoveFirst(old(previous.events), event)
        && events == old(events) + [event] && event.manager == this
      ensures old(Distinct(events)) ==> Distinct(events)
    {
      if event in events {
        return Err(EventAlreadyRegistered(event.name));
      }
      var previous := event.manager;
      if previous == null {
        return Err(AttributeError);
      }
      var removed := previous.RemoveEvent(event);
      if removed.Err? {
        return Err(removed.error);
      }
      events := events + [event];
      event.manager := this;
      return Ok(());
    }

    /** `remove_command(command)`: `list.remove`, then the command forgets its manager. */
    method RemoveCommand(command: Command) returns (r: Result<(), Error>)
      modifies this`commands, command.event`manager
      ensures command !in old(commands) ==>
        r == Err(ValueError(NotInList)) && commands == old(commands) && command.event.manager == old(command.event.manager)
      ensures command in old(commands) ==> r.Ok? && commands == RemoveFirst(old(commands), command) && command.event.manager == null
      ensures old(Distinct(commands)) ==> Distinct(commands) && command !in commands
      ensures old(Valid()) ==> Valid()
    {
      if command !in commands {
        return Err(ValueError(NotInList));
      }
      CommandNamesRemoveFirst(commands, command);
      if UniqueNames(CommandNames(commands)) {
        CommandNamesAt(commands);
        UniqueNamesRemove(CommandNames(commands), IndexOf(commands, command));
      }
      commands := RemoveFirst(commands, command);
      command.event.manager := null;
      return Ok(());
    }

    /** `remove_command_by_name(name)`: the first command named exactly `name`, removed. */
    method RemoveCommandByName(name: string) returns (r: Result<(), Error>)
      modifies this`commands, (set c | c in commands :: c.event)`manager
      ensures old(GetCommand(name, true)).None? ==> r == Err(CommandNotFound(name)) && commands == old(commands)
      ensures old(GetCommand(name, true)).Some? ==> var c := old(GetCommand(name, true)).value;
        r.Ok? && commands == RemoveFirst(old(commands), c) && c.event.manager == null
      ensures forall c :: c in old(commands) && (old(GetCommand(name, true)).None? || c.event != old(GetCommand(name, true)).value.event) ==>
        c.event.manager == old(c.event.manager)
      ensures old(Valid()) ==> Valid()
    {
      var command := GetCommand(name, true);
      if command.None? {
        return Err(CommandNotFound(name));
      }
      r := RemoveCommand(command.value);
    }

    /**
     * `add_command(command)`: refused when listed already; otherwise removed from its previous
     * manager (failing when it has none, or is not listed there) and listed here.
     */
    method AddCommand(command: Command) returns (r: Result<(), Error>)
      modifies this`commands, command.event`manager, (if command.event.manager == null then {} else {command.event.manager})`commands
      ensures command in old(commands) ==> r == Err(CommandAlreadyRegistered(old(command.commandName)))
      ensures command !in old(commands) && old(command.event.manager) == null ==> r == Err(AttributeError)
      ensures command !in old(commands) && old(command.event.manager) != null && command !in old(command.event.manager.commands) ==>
        r == Err(ValueError(NotInList))
      ensures r.Ok? <==> command !in old(commands) && old(command.event.manager) != null
                         && command in old(command.event.manager.commands)
      ensures r.Err? ==> commands == old(commands) && command.event.manager == old(command.event.manager)
      ensures r.Err? && old(command.event.manager) != null ==>
        old(command.event.manager).commands == old(command.event.manager.commands)
      ensures r.Ok? ==> var previous := old(command.event.manager);
        && previous != this && previous.commands == RemoveFirst(old(previous.commands), command)
        && commands == old(commands) + [command] && command.event.manager == this
      ensures old(Distinct(commands)) ==> Distinct(commands)
    {
      if command in commands {
        return Err(CommandAlreadyRegistered(command.commandName));
      }
      var previous := command.event.manager;
      if previous == null {
        return Err(AttributeError);
      }
      var removed := previous.RemoveCommand(command);
      if removed.Err? {
        return Err(removed.error);
      }
      commands := commands + [command];
      command.event.manager := this;
      return Ok(());
    }

    /** `raise_event(name, *args, _case_sensitive=..., **kwargs)` */
    method RaiseEventByName(name: string, caseSensitive: bool, args: seq<PyObject>, kwargs: seq<(string, PyObject)>, env: Environment)
      returns (found: Option<Event>, steps: seq<RaiseStep>, outcome: Option<Error>)
      modifies (set e | e in events)`tasks
      ensures found == old(GetEvent(name, caseSensitive))
      ensures found.None? ==> steps == [] && outcome == Some(EventNotFound(name))
      ensures found.Some? ==> found.value.Raised(args, kwargs, env, steps, outcome)
    {
      found := GetEvent(name, caseSensitive);
      if found.None? {
        return None, [], Some(EventNotFound(name));
      }
      steps, outcome := found.value.RaiseEvent(args, kwargs, env);
    }

    /** `invoke_command(name, *args, _case_sensitive=..., **kwargs)`: raises the command's event. */
    method InvokeCommand(name: string, caseSensitive: bool, args: seq<PyObject>, kwargs: seq<(string, PyObject)>, env: Environment)
      returns (found: Option<Command>, steps: seq<RaiseStep>, outcome: Option<Error>)
      modifies (set c | c in commands :: c.event)`tasks
      ensures found == old(GetCommand(name, caseSensitive))
      ensures found.None? ==> steps == [] && outcome == Some(CommandNotFound(name))
      ensures found.Some? ==> found.value.event.Raised(args, kwargs, env, steps, outcome)
    {
      found := GetCommand(name, caseSensitive);
      if found.None? {
        return None, [], Some(CommandNotFound(name));
      }
      steps, outcome := found.value.event.RaiseEvent(args, kwargs, env);
    }
  }
}
