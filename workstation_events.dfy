/** Tiered dispatch of window messages to registered handlers, and the lock state
    folded from them (src/winytils/workstation_events.py). */
module WorkstationEvents {
  import opened Wrappers
  import opened Registry
  import opened Win32

  /** The frozen `Event` dataclass as the triple `astuple` yields. Used as a
      registration key, a `None` field is a wildcard tier. */
  datatype Event = Event(msg: Option<int>, wparam: Option<int>, lparam: Option<int>)

  /** The `Event` subclasses that may be passed to `on` as a class. */
  datatype EventClass =
    | BaseEvent
    | AnyEvent
    | LockEvent
    | UnlockEvent
    | DeviceChangeEvent
    | PowerStatusChangedEvent

  /** The field defaults of each class, i.e. the instance `cls()` builds. */
  function Defaults(c: EventClass): (r: Event)
    ensures r == Event(None, None, None) <==> c == AnyEvent
    ensures r.lparam.Some? <==> c == BaseEvent
    ensures c != AnyEvent ==> r.msg.Some? && r.wparam.Some?
    ensures r.msg == Some(WM_WTSSESSION_CHANGE) <==> c == LockEvent || c == UnlockEvent
  {
    match c
    case BaseEvent => Event(Some(0), Some(0), Some(0))
    case AnyEvent => Event(None, None, None)
    case LockEvent => Event(Some(WM_WTSSESSION_CHANGE), Some(WTS_SESSION_LOCK), None)
    case UnlockEvent => Event(Some(WM_WTSSESSION_CHANGE), Some(WTS_SESSION_UNLOCK), None)
    case DeviceChangeEvent => Event(Some(WM_DEVICECHANGE), Some(DBT_DEVNODES_CHANGED), None)
    case PowerStatusChangedEvent => Event(Some(WM_POWERBROADCAST), Some(PBT_APMPOWERSTATUSCHANGE), None)
  }

  /** What `on` accepts as its first argument: an instance, or a class. */
  datatype EventArg = Instance(event: Event) | Class(cls: EventClass)

  /** The key `on` registers under: a class is instantiated first. */
  function KeyOf(arg: EventArg): (r: Event)
    ensures arg.Instance? ==> r == arg.event
    ensures arg.Class? ==> r == Defaults(arg.cls)
  {
    match arg
    case Instance(e) => e
    case Class(c) => Defaults(c)
  }

  /** Each class has its own default instance, so `on(cls)` and `on(cls())`
      register under the same key and two different classes never share one. */
  lemma ClassKeysDiffer(c1: EventClass, c2: EventClass)
    ensures KeyOf(Class(c1)) == KeyOf(Instance(Defaults(c1)))
    ensures KeyOf(Class(c1)) == KeyOf(Class(c2)) <==> c1 == c2
  {
  }

  /** A message as the OS hands it to the window procedure: always three integers. */
  datatype Message = Message(msg: int, wparam: int, lparam: int)

  /** The event every handler receives: `Event(msg, wparam, lparam)`. */
  function Concrete(m: Message): Event
  {
    Event(Some(m.msg), Some(m.wparam), Some(m.lparam))
  }

  /** One handler invocation: which handler, with which argument. */
  datatype Call = Call(handler: HandlerId, event: Event)

  /** What the window procedure returns to the OS. */
  datatype ProcResult =
    | QuitPosted       // WM_CLOSE / WM_DESTROY: PostQuitMessage, DestroyWindow, return 0
    | DefaultHandled   // everything else: DefWindowProc

  /** `pattern` matches the message field by field, `None` matching anything. */
  predicate Matches(pattern: Event, m: Message)
  {
    && (pattern.msg.None? || pattern.msg.value == m.msg)
    && (pattern.wparam.None? || pattern.wparam.value == m.wparam)
    && (pattern.lparam.None? || pattern.lparam.value == m.lparam)
  }

  /** Only trailing fields are wildcards. */
  predicate TrailingWildcards(pattern: Event)
  {
    && (pattern.msg.None? ==> pattern.wparam.None?)
    && (pattern.wparam.None? ==> pattern.lparam.None?)
  }

  /** The four keys the window procedure consults, most specific first. */
  function Tiers(m: Message): (r: seq<Event>)
    ensures |r| == 4
    ensures forall i, j :: 0 <= i < j < 4 ==> r[i] != r[j]
    ensures forall i :: 0 <= i < 4 ==> Matches(r[i], m) && TrailingWildcards(r[i])
  {
    [ Event(Some(m.msg), Some(m.wparam), Some(m.lparam)),
      Event(Some(m.msg), Some(m.wparam), None),
      Event(Some(m.msg), None, None),
      Event(None, None, None) ]
  }

  /** The tiers are exactly the trailing-wildcard patterns that match the message. */
  lemma TiersAreTrailingMatches(k: Event, m: Message)
    ensures k in Tiers(m) <==> Matches(k, m) && TrailingWildcards(k)
  {
    if Matches(k, m) && TrailingWildcards(k) {
      var t := Tiers(m);
      if k.msg.None? {
        assert k == t[3];
      } else if k.wparam.None? {
        assert k == t[2];
      } else if k.lparam.None? {
        assert k == t[1];
      } else {
        assert k == t[0];
      }
    }
  }

  /** Every handler of `hs`, in order, each called with `e`. */
  function CallsOf(hs: seq<HandlerId>, e: Event): (r: seq<Call>)
    ensures |r| == |hs|
    ensures forall i :: 0 <= i < |hs| ==> r[i] == Call(hs[i], e)
  {
    seq(|hs|, i requires 0 <= i < |hs| => Call(hs[i], e))
  }

  lemma CallsOfAppend(a: seq<HandlerId>, b: seq<HandlerId>, e: Event)
    ensures CallsOf(a + b, e) == CallsOf(a, e) + CallsOf(b, e)
  {
  }

  /** The handlers invoked for message `m`: tier by tier, and within a tier in
      registration order. */
  function TierHandlers(reg: map<Event, seq<HandlerId>>, m: Message): seq<HandlerId>
  {
    var t := Tiers(m);
    Lookup(reg, t[0]) + Lookup(reg, t[1]) + Lookup(reg, t[2]) + Lookup(reg, t[3])
  }

  /** The calls `_window_procedure` makes for message `m`. */
  function Dispatched(reg: map<Event, seq<HandlerId>>, m: Message): seq<Call>
  {
    CallsOf(TierHandlers(reg, m), Concrete(m))
  }

  /** Every invoked handler receives the concrete event, never the wildcarded key it
      was registered under; and a handler is invoked iff it is registered under a
      trailing-wildcard pattern that matches the message. */
  lemma DispatchedCalls(reg: map<Event, seq<HandlerId>>, m: Message, h: HandlerId)
    ensures forall c :: c in Dispatched(reg, m) ==> c.event == Concrete(m)
    ensures (exists c :: c in Dispatched(reg, m) && c.handler == h)
        <==> (exists k :: k in reg && Matches(k, m) && TrailingWildcards(k) && h in reg[k])
  {
    var d := Dispatched(reg, m);
    var hs := TierHandlers(reg, m);
    var t := Tiers(m);
    assert hs == Lookup(reg, t[0]) + Lookup(reg, t[1]) + Lookup(reg, t[2]) + Lookup(reg, t[3]);
    if c :| c in d && c.handler == h {
      var i :| 0 <= i < |d| && d[i] == c;
      assert h in hs;
      var n :| 0 <= n < 4 && h in Lookup(reg, t[n]);
      TiersAreTrailingMatches(t[n], m);
    }
    if k :| k in reg && Matches(k, m) && TrailingWildcards(k) && h in reg[k] {
      TiersAreTrailingMatches(k, m);
      var n :| 0 <= n < 4 && t[n] == k;
      assert h in hs;
      var i :| 0 <= i < |hs| && hs[i] == h;
      assert d[i] == Call(h, Concrete(m));
    }
  }

  /** A handler registered under the `LockEvent` defaults `(0x2B1, 7, None)` is
      reached through the second tier by a lock notification with any session id. */
  lemma LockKeyMatchesEverySession(reg: map<Event, seq<HandlerId>>, h: HandlerId, sessionId: int)
    requires h in Lookup(reg, Defaults(LockEvent))
    ensures Call(h, Concrete(Message(WM_WTSSESSION_CHANGE, WTS_SESSION_LOCK, sessionId)))
            in Dispatched(reg, Message(WM_WTSSESSION_CHANGE, WTS_SESSION_LOCK, sessionId))
  {
    var m := Message(WM_WTSSESSION_CHANGE, WTS_SESSION_LOCK, sessionId);
    var t := Tiers(m);
    var hs := TierHandlers(reg, m);
    assert t[1] == Defaults(LockEvent);
    var i :| 0 <= i < |Lookup(reg, t[1])| && Lookup(reg, t[1])[i] == h;
    var j := |Lookup(reg, t[0])| + i;
    assert hs[j] == h;
    assert Dispatched(reg, m)[j] == Call(h, Concrete(m));
  }

  /** `on(Event, h)` registers under `(0, 0, 0)`, not the wildcard: on a registry
      that held no `h`, the handler then fires for the message `(0, 0, 0)` only. */
  lemma BaseEventClassIsNotWildcard(reg: map<Event, seq<HandlerId>>, h: HandlerId, m: Message)
    requires forall k :: h !in Lookup(reg, k)
    ensures (exists c :: c in Dispatched(Register(reg, KeyOf(Class(BaseEvent)), h), m) && c.handler == h)
        <==> m == Message(0, 0, 0)
  {
    var r := Register(reg, KeyOf(Class(BaseEvent)), h);
    var zero := Event(Some(0), Some(0), Some(0));
    DispatchedCalls(r, m, h);
    if m == Message(0, 0, 0) {
      assert zero in r && Matches(zero, m) && TrailingWildcards(zero) && h in r[zero];
    } else {
      forall k | k in r && Matches(k, m) && TrailingWildcards(k)
        ensures h !in r[k]
      {
        assert k != zero;
        assert Lookup(r, k) == r[k] && Lookup(r, k) == Lookup(reg, k);
      }
    }
  }

  /** `on(AnyEvent, h)` registers under `(None, None, None)`: the handler then
      receives every message, through the last tier. */
  lemma AnyEventClassIsWildcard(reg: map<Event, seq<HandlerId>>, h: HandlerId, m: Message)
    ensures Call(h, Concrete(m)) in Dispatched(Register(reg, KeyOf(Class(AnyEvent)), h), m)
  {
    var r := Register(reg, KeyOf(Class(AnyEvent)), h);
    var t := Tiers(m);
    var hs := TierHandlers(r, m);
    var last := Lookup(r, t[3]);
    assert last[|last| - 1] == h;
    var j := |hs| - 1;
    assert hs[j] == h;
    assert Dispatched(r, m)[j] == Call(h, Concrete(m));
  }

  /** A pattern with a wildcard before a set field, such as `(None, 7, None)`,
      matches field by field yet is never consulted, so its handlers never run. */
  lemma InnerWildcardNeverDispatched(reg: map<Event, seq<HandlerId>>, m: Message, w: int)
    requires forall k :: k != Event(None, Some(w), None) ==> Lookup(reg, k) == []
    ensures Dispatched(reg, m) == []
  {
    var t := Tiers(m);
    assert forall n :: 0 <= n < 4 ==> t[n] != Event(None, Some(w), None);
    assert TierHandlers(reg, m) == [];
  }

  /** The message ends the listener's pump. */
  predicate IsTeardown(m: Message)
  {
    m.msg == WM_CLOSE || m.msg == WM_DESTROY
  }

  /** `WorkstationEventsListener`: its handler registry and window procedure. */
  class WorkstationEventsListener {
    var handlers: map<Event, seq<HandlerId>>

    constructor ()
      ensures handlers == map[]
    {
      handlers := map[];
    }

    /** `on(event, handler)`: append to the list of the resolved key. */
    method On(arg: EventArg, h: HandlerId)
      modifies this
      ensures handlers == Register(old(handlers), KeyOf(arg), h)
    {
      var key := KeyOf(arg);
      if key !in handlers {
        handlers := handlers[key := []];
      }
      handlers := handlers[key := handlers[key] + [h]];
    }

    /** One `for handler in self.event_handlers[key]` loop. */
    method InvokeTier(key: Event, e: Event) returns (calls: seq<Call>)
      modifies this
      ensures calls == CallsOf(Lookup(old(handlers), key), e)
      ensures handlers == Touch(old(handlers), key)
      ensures forall k :: Lookup(handlers, k) == Lookup(old(handlers), k)
      ensures handlers.Keys == old(handlers).Keys + {key}
    {
      if key !in handlers {
        handlers := handlers[key := []];
      }
      var hs := handlers[key];
      calls := [];
      for i := 0 to |hs|
        invariant calls == CallsOf(hs[..i], e)
      {
        calls := calls + [Call(hs[i], e)];
      }
      assert hs[..|hs|] == hs;
    }

    /** `_window_procedure`: the four tier loops, then the teardown decision.
        Teardown messages are dispatched like any other before it. */
    method WindowProcedure(m: Message) returns (calls: seq<Call>, result: ProcResult)
      modifies this
      ensures calls == Dispatched(old(handlers), m)
      ensures forall k :: Lookup(handlers, k) == Lookup(old(handlers), k)
      ensures forall k :: k in handlers <==> k in old(handlers) || k in Tiers(m)
      ensures result == if IsTeardown(m) then QuitPosted else DefaultHandled
    {
      var t := Tiers(m);
      var e := Concrete(m);
      ghost var h0 := handlers;
      ghost var hs := TierHandlers(h0, m);
      var c0 := InvokeTier(t[0], e);
      ghost var h1 := handlers;
      var c1 := InvokeTier(t[1], e);
      assert c1 == CallsOf(Lookup(h0, t[1]), e) by { assert Lookup(h1, t[1]) == Lookup(h0, t[1]); }
      ghost var h2 := handlers;
      var c2 := InvokeTier(t[2], e);
      assert c2 == CallsOf(Lookup(h0, t[2]), e) by {
        assert Lookup(h2, t[2]) == Lookup(h1, t[2]) == Lookup(h0, t[2]);
      }
      ghost var h3 := handlers;
      var c3 := InvokeTier(t[3], e);
      assert c3 == CallsOf(Lookup(h0, t[3]), e) by {
        assert Lookup(h3, t[3]) == Lookup(h2, t[3]) == Lookup(h1, t[3]) == Lookup(h0, t[3]);
      }
      calls := c0 + c1 + c2 + c3;
      CallsOfAppend(Lookup(h0, t[0]), Lookup(h0, t[1]), e);
      CallsOfAppend(Lookup(h0, t[0]) + Lookup(h0, t[1]), Lookup(h0, t[2]), e);
      CallsOfAppend(Lookup(h0, t[0]) + Lookup(h0, t[1]) + Lookup(h0, t[2]), Lookup(h0, t[3]), e);
      assert calls == CallsOf(hs, e);
      result := if m.msg in [WM_CLOSE, WM_DESTROY] then QuitPosted else DefaultHandled;
    }
  }

  /** `WorkstationState`'s two lambdas, as handler identities. */
  const LockHandler: HandlerId := 0
  const UnlockHandler: HandlerId := 1

  /** The registry `WorkstationState` builds: its lock lambda under the `LockEvent`
      key, its unlock lambda under the `UnlockEvent` key, nothing else. */
  function StateHandlers(k: Event): seq<HandlerId>
  {
    if k == Defaults(LockEvent) then [LockHandler]
    else if k == Defaults(UnlockEvent) then [UnlockHandler]
    else []
  }

  predicate IsLock(m: Message)
  {
    m.msg == WM_WTSSESSION_CHANGE && m.wparam == WTS_SESSION_LOCK
  }

  predicate IsUnlock(m: Message)
  {
    m.msg == WM_WTSSESSION_CHANGE && m.wparam == WTS_SESSION_UNLOCK
  }

  /** On `WorkstationState`'s registry a lock notification reaches the lock lambda
      once, an unlock notification the unlock lambda once, anything else nothing. */
  lemma StateDispatch(reg: map<Event, seq<HandlerId>>, m: Message)
    requires forall k :: Lookup(reg, k) == StateHandlers(k)
    ensures TierHandlers(reg, m)
            == if IsLock(m) then [LockHandler] else if IsUnlock(m) then [UnlockHandler] else []
  {
    var t := Tiers(m);
    assert Lookup(reg, t[0]) == [] && Lookup(reg, t[2]) == [] && Lookup(reg, t[3]) == [];
    assert Lookup(reg, t[1]) == StateHandlers(t[1]);
  }

  /** The effect one delivered message has on `locked`. */
  function LockStep(locked: bool, m: Message): bool
  {
    if IsLock(m) then true else if IsUnlock(m) then false else locked
  }

  /** `locked` after a sequence of delivered messages. */
  function LockedAfter(locked: bool, ms: seq<Message>): bool
    decreases |ms|
  {
    if ms == [] then locked else LockedAfter(LockStep(locked, ms[0]), ms[1..])
  }

  /** The kind of the most recent lock or unlock notification, if any. */
  function LastLockOrUnlock(ms: seq<Message>): Option<bool>
    decreases |ms|
  {
    if ms == [] then None
    else
      var m := ms[|ms| - 1];
      if IsLock(m) then Some(true)
      else if IsUnlock(m) then Some(false)
      else LastLockOrUnlock(ms[..|ms| - 1])
  }

  lemma {:induction false} LockedAfterAppend(locked: bool, ms: seq<Message>, m: Message)
    ensures LockedAfter(locked, ms + [m]) == LockStep(LockedAfter(locked, ms), m)
    decreases |ms|
  {
    if ms == [] {
      assert ms + [m] == [m];
      assert [m][1..] == [];
    } else {
      assert (ms + [m])[1..] == ms[1..] + [m];
      LockedAfterAppend(LockStep(locked, ms[0]), ms[1..], m);
    }
  }

  /** After any sequence of messages, `is_locked()` is true iff the most recent lock
      or unlock notification was a lock; with none, it keeps its initial value. */
  lemma {:induction false} LockedIsLastLockOrUnlock(locked: bool, ms: seq<Message>)
    ensures LockedAfter(locked, ms) == match LastLockOrUnlock(ms) { case None => locked case Some(b) => b }
    decreases |ms|
  {
    if ms != [] {
      var init := ms[..|ms| - 1];
      assert init + [ms[|ms| - 1]] == ms;
      LockedAfterAppend(locked, init, ms[|ms| - 1]);
      LockedIsLastLockOrUnlock(locked, init);
    }
  }

  /** A fresh `WorkstationState` reports unlocked until a lock arrives. */
  lemma FreshStateIsLockedIffLastWasLock(ms: seq<Message>)
    ensures LockedAfter(false, ms) <==> LastLockOrUnlock(ms) == Some(true)
  {
    LockedIsLastLockOrUnlock(false, ms);
  }

  /** `WorkstationState`: a listener with the two lock lambdas, and the folded flag. */
  class WorkstationState {
    var locked: bool
    const listener: WorkstationEventsListener

    ghost predicate Valid()
      reads this, listener
    {
      forall k :: Lookup(listener.handlers, k) == StateHandlers(k)
    }

    /** `__init__` up to `start()`: the listener thread is not modelled. */
    constructor ()
      ensures Valid() && fresh(listener) && !locked
    {
      locked := false;
      listener := new WorkstationEventsListener();
      new;
      listener.On(Instance(Defaults(LockEvent)), LockHandler);
      listener.On(Instance(Defaults(UnlockEvent)), UnlockHandler);
    }

    /** `is_locked`. */
    function IsLocked(): (r: bool)
      reads this
      ensures r == locked
    {
      locked
    }

    /** One message arriving at the listener's window procedure, with the
        invoked lambdas applied in order. */
    method Deliver(m: Message) returns (result: ProcResult)
      requires Valid()
      modifies this, listener
      ensures Valid()
      ensures locked == LockStep(old(locked), m)
      ensures result == if IsTeardown(m) then QuitPosted else DefaultHandled
    {
      ghost var reg := listener.handlers;
      var calls;
      calls, result := listener.WindowProcedure(m);
      StateDispatch(reg, m);
      assert |calls| <= 1;
      assert IsLock(m) ==> calls == [Call(LockHandler, Concrete(m))];
      assert IsUnlock(m) ==> calls == [Call(UnlockHandler, Concrete(m))];
      for i := 0 to |calls|
        invariant Valid()
        invariant locked == (if i == 0 then old(locked) else LockStep(old(locked), m))
      {
        if calls[i].handler == LockHandler {
          locked := true;
        } else if calls[i].handler == UnlockHandler {
          locked := false;
        }
      }
    }
  }
}
