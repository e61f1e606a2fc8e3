/**
 * `asyevent/event_wrapper.py`: a base for classes whose methods are classmethod callbacks. It
 * gathers the callbacks among its attributes, hands each of them the instance, and switches
 * them all on or off together. Attribute discovery (`dir`/`getattr`) is reflection: the
 * callbacks it finds are given, in `dir` order, as `collected`.
 */
module EventWrappers {
  import opened Wrappers
  import opened Exceptions
  import opened Callbacks

  /** The position of the first callback that is not a classmethod, or `|s|` when all are. */
  function FirstNonClassmethod(s: seq<Callback>): (k: nat)
    ensures k <= |s|
    ensures forall i :: 0 <= i < k ==> s[i].isClassmethod
    ensures k < |s| ==> !s[k].isClassmethod
  {
    if s == [] then 0
    else if !s[0].isClassmethod then 0
    else 1 + FirstNonClassmethod(s[1..])
  }

  class EventWrapper {
    var callbacks: seq<Callback>

    constructor ()
      ensures callbacks == []
    {
      callbacks := [];
    }

    /** `EventWrapper()`: the constructor followed by `_init_callbacks`. */
    static method Create(collected: seq<Callback>) returns (w: EventWrapper, r: Result<(), Error>)
      modifies (set c | c in collected)`wrapper
      ensures fresh(w) && w.callbacks == collected
      ensures var k := FirstNonClassmethod(collected);
        && (r.Ok? <==> k == |collected|)
        && (r.Err? ==> r.error == TypeError(WrappedNotClassmethod))
        && (forall i :: 0 <= i < k ==> collected[i].wrapper == w)
        && (forall c :: c in collected && c !in collected[..k] ==> c.wrapper == old(c.wrapper))
      ensures forall c :: c in collected ==> c.isActive == old(c.isActive) && c.repeatTimes == old(c.repeatTimes)
    {
      w := new EventWrapper();
      r := w.InitCallbacks(collected);
    }

    /**
     * `_init_callbacks`: append the collected callbacks (again, if they are already listed),
     * then give every listed callback this wrapper, stopping with a `TypeError` at the first
     * one that is not a classmethod; those before it keep the wrapper.
     */
    method InitCallbacks(collected: seq<Callback>) returns (r: Result<(), Error>)
      modifies this`callbacks, (set c | c in callbacks + collected)`wrapper
      ensures callbacks == old(callbacks) + collected
      ensures var k := FirstNonClassmethod(callbacks);
        && (r.Ok? <==> k == |callbacks|)
        && (r.Err? ==> r.error == TypeError(WrappedNotClassmethod))
        && (forall i :: 0 <= i < k ==> callbacks[i].wrapper == this)
        && (forall c :: c in callbacks && c !in callbacks[..k] ==> c.wrapper == old(c.wrapper))
      ensures forall c :: c in callbacks ==> c.isActive == old(c.isActive) && c.repeatTimes == old(c.repeatTimes)
    {
      callbacks := callbacks + collected;
      var i := 0;
      while i < |callbacks|
        invariant 0 <= i <= |callbacks| && callbacks == old(callbacks) + collected
        invariant forall j :: 0 <= j < i ==> callbacks[j].isClassmethod && callbacks[j].wrapper == this
        invariant forall c :: c in callbacks && c !in callbacks[..i] ==> c.wrapper == old(c.wrapper)
      {
        var c := callbacks[i];
        if !c.isClassmethod {
          FirstNonClassmethodAt(callbacks, i);
          return Err(TypeError(WrappedNotClassmethod));
        }
        c.wrapper := this;
        assert callbacks[..i + 1] == callbacks[..i] + [c];
        i := i + 1;
      }
      FirstNonClassmethodAt(callbacks, i);
      return Ok(());
    }

    /** `load`: enable every listed callback. */
    method Load()
      modifies (set c | c in callbacks)`isActive
      ensures forall c :: c in callbacks ==> c.isActive
      ensures forall c :: c in callbacks ==> c.wrapper == old(c.wrapper) && c.repeatTimes == old(c.repeatTimes)
    {
      var i := 0;
      while i < |callbacks|
        invariant 0 <= i <= |callbacks|
        invariant forall j :: 0 <= j < i ==> callbacks[j].isActive
      {
        callbacks[i].Enable();
        i := i + 1;
      }
    }

    /** `unload`: disable every listed callback. */
    method Unload()
      modifies (set c | c in callbacks)`isActive
      ensures forall c :: c in callbacks ==> !c.isActive
      ensures forall c :: c in callbacks ==> c.wrapper == old(c.wrapper) && c.repeatTimes == old(c.repeatTimes)
    {
      var i := 0;
      while i < |callbacks|
        invariant 0 <= i <= |callbacks|
        invariant forall j :: 0 <= j < i ==> !callbacks[j].isActive
      {
        callbacks[i].Disable();
        i := i + 1;
      }
    }
  }

  /** Every entry before `i` is a classmethod and the one at `i`, if any, is not. */
  lemma {:induction false} FirstNonClassmethodAt(s: seq<Callback>, i: nat)
    requires i <= |s| && forall j :: 0 <= j < i ==> s[j].isClassmethod
    requires i < |s| ==> !s[i].isClassmethod
    ensures FirstNonClassmethod(s) == i
  {
    if i > 0 {
      FirstNonClassmethodAt(s[1..], i - 1);
    }
  }
}
