/** The session monitor, the lock/unlock scanner and the polling loop of
    src/winytils/machine_state_watcher.py (the variant that guards its scanner
    with a lock; the lock itself is not modelled, calls are sequential). */
module MachineStateWatcher {
  import opened Wrappers
  import opened Registry
  import opened Win32
  import opened Session

  /** How the window procedure ends. */
  datatype ProcOutcome =
    | DefaultHandled    // DefWindowProc
    | Destroyed         // WM_CLOSE / WM_DESTROY: DestroyWindow, PostQuitMessage, return 0
    | ValueErrorRaised  // `SessionEvent(wparam)` for a code outside the enum

  /** What `stop` does. */
  datatype StopOutcome = QuitPosted | ErrorSwallowed

  /** One `for handler in ...: handler(event, session_id)` loop: every handler
      of the list is called once, in order. */
  method CallEach(hs: seq<HandlerId>, e: SessionEvent, sid: int) returns (calls: seq<SessionCall>)
    ensures calls == SessionCallsOf(hs, e, sid)
  {
    calls := [];
    for i := 0 to |hs|
      invariant calls == SessionCallsOf(hs[..i], e, sid)
    {
      calls := calls + [SessionCall(hs[i], e, sid)];
    }
    assert hs[..|hs|] == hs;
  }

  /** `WorkstationMonitor`: the handler registry and the window procedure. */
  class WorkstationMonitor {
    var handlers: map<SessionEvent, seq<HandlerId>>

    /** `__init__`; the hidden window and the WTS subscription are not modelled. */
    constructor ()
      ensures handlers == map[]
    {
      handlers := map[];
    }

    /** `register_handler`: append under `e` only. */
    method RegisterHandler(e: SessionEvent, h: HandlerId)
      modifies this
      ensures handlers == Register(old(handlers), e, h)
    {
      if e !in handlers {
        handlers := handlers[e := []];
      }
      handlers := handlers[e := handlers[e] + [h]];
    }

    /** `_handle_session_change`: the event's handlers, then the `ANY` handlers. */
    method HandleSessionChange(e: SessionEvent, sid: int) returns (calls: seq<SessionCall>)
      modifies this
      ensures calls == SessionDispatch(old(handlers), e, sid)
      ensures handlers == Touch(Touch(old(handlers), e), Any)
      ensures forall k :: Lookup(handlers, k) == Lookup(old(handlers), k)
      ensures forall k :: k in handlers <==> k in old(handlers) || k == e || k == Any
    {
      if e !in handlers {
        handlers := handlers[e := []];
      }
      var hs := handlers[e];
      calls := CallEach(hs, e, sid);
      if Any !in handlers {
        handlers := handlers[Any := []];
      }
      var anys := handlers[Any];
      var more := CallEach(anys, e, sid);
      calls := calls + more;
      SessionCallsOfAppend(hs, anys, e, sid);
    }

    /** `_window_procedure`: session notifications are dispatched, teardown
        messages end the pump, everything else goes to DefWindowProc. */
    method WindowProcedure(msg: int, wparam: int, lparam: int) returns (calls: seq<SessionCall>, outcome: ProcOutcome)
      modifies this
      ensures forall k :: Lookup(handlers, k) == Lookup(old(handlers), k)
      ensures msg == WM_WTSSESSION_CHANGE && FromCode(wparam).Some? ==>
                calls == SessionDispatch(old(handlers), FromCode(wparam).value, lparam)
                && outcome == DefaultHandled
      ensures msg == WM_WTSSESSION_CHANGE && FromCode(wparam).None? ==>
                calls == [] && outcome == ValueErrorRaised
      ensures msg != WM_WTSSESSION_CHANGE ==>
                calls == [] && outcome == if msg == WM_CLOSE || msg == WM_DESTROY then Destroyed else DefaultHandled
    {
      calls := [];
      if msg == Code(Change) {
        var e := FromCode(wparam);
        if e.None? {
          outcome := ValueErrorRaised;
          return;
        }
        calls := HandleSessionChange(e.value, lparam);
        outcome := DefaultHandled;
      } else if msg in [WM_CLOSE, WM_DESTROY] {
        outcome := Destroyed;
      } else {
        outcome := DefaultHandled;
      }
    }
  }

  /** The registry `run` leaves: the scanner's handler under `ANY`, nothing else. */
  ghost predicate ScannerRegistry(reg: map<SessionEvent, seq<HandlerId>>)
  {
    forall k :: Lookup(reg, k) == if k == Any then [ScannerHandler] else []
  }

  function Fired(cb: Option<Callback>): seq<Callback>
  {
    match cb
    case None => []
    case Some(c) => [c]
  }

  /** `MachineStateScanner`: the lock/unlock state machine and its callbacks. */
  class MachineStateScanner {
    var wm: WorkstationMonitor?
    var locked: bool
    var unlocked: bool
    var onLock: Option<Callback>
    var onUnlock: Option<Callback>

    /** The scanner is never both locked and unlocked. */
    ghost predicate Valid()
      reads this
    {
      !(locked && unlocked)
    }

    constructor ()
      ensures Valid()
      ensures wm == null && !locked && !unlocked && onLock == None && onUnlock == None
    {
      wm := null;
      locked, unlocked := false, false;
      onLock, onUnlock := None, None;
    }

    /** `on_lock(func, *args, **kwargs)`: the last call wins. A `None` function
        switches the callback off, since `handler` calls it only when it is
        truthy; the arguments stored with it are then never read. */
    method OnLock(func: Option<HandlerId>, args: seq<int>, kwargs: map<string, int>)
      modifies this
      ensures onLock == if func.Some? then Some(Callback(func.value, args, kwargs)) else None
      ensures wm == old(wm) && locked == old(locked) && unlocked == old(unlocked) && onUnlock == old(onUnlock)
    {
      onLock := if func.Some? then Some(Callback(func.value, args, kwargs)) else None;
    }

    /** `on_unlock(func, *args, **kwargs)`: the last call wins. A `None` function
        switches the callback off, since `handler` calls it only when it is
        truthy; the arguments stored with it are then never read. */
    method OnUnlock(func: Option<HandlerId>, args: seq<int>, kwargs: map<string, int>)
      modifies this
      ensures onUnlock == if func.Some? then Some(Callback(func.value, args, kwargs)) else None
      ensures wm == old(wm) && locked == old(locked) && unlocked == old(unlocked) && onLock == old(onLock)
    {
      onUnlock := if func.Some? then Some(Callback(func.value, args, kwargs)) else None;
    }

    /** `handler(event, session_id)`: returns the callback it invoked, if any. */
    method Handler(e: SessionEvent, sid: int) returns (fired: Option<Callback>)
      requires Valid()
      modifies this
      ensures Valid()
      ensures e == SessionLock ==> locked && !unlocked && fired == old(onLock)
      ensures e == SessionUnlock ==> !locked && unlocked && fired == old(onUnlock)
      ensures e != SessionLock && e != SessionUnlock ==>
                locked == old(locked) && unlocked == old(unlocked) && fired == None
      ensures wm == old(wm) && onLock == old(onLock) && onUnlock == old(onUnlock)
    {
      fired := None;
      if e == SessionLock {
        locked, unlocked := true, false;
        if onLock.Some? {
          fired := onLock;
        }
      } else if e == SessionUnlock {
        locked, unlocked := false, true;
        if onUnlock.Some? {
          fired := onUnlock;
        }
      }
    }

    /** `run` up to `listen()`: a fresh monitor with the handler under `ANY`. */
    method Run()
      modifies this
      ensures wm != null && fresh(wm) && ScannerRegistry(wm.handlers)
      ensures locked == old(locked) && unlocked == old(unlocked)
      ensures onLock == old(onLock) && onUnlock == old(onUnlock)
    {
      var m := new WorkstationMonitor();
      m.RegisterHandler(Any, ScannerHandler);
      wm := m;
    }

    /** One message pumped to the monitor while `listen()` runs, with every call to
        the scanner's handler carried out. */
    method Pump(msg: int, wparam: int, lparam: int) returns (fired: seq<Callback>, outcome: ProcOutcome)
      requires Valid() && wm != null && ScannerRegistry(wm.handlers)
      modifies this, wm
      ensures Valid() && wm == old(wm) && ScannerRegistry(wm.handlers)
      ensures onLock == old(onLock) && onUnlock == old(onUnlock)
      ensures msg == WM_WTSSESSION_CHANGE && wparam == Code(SessionLock) ==>
                locked && !unlocked && fired == Fired(old(onLock))
      ensures msg == WM_WTSSESSION_CHANGE && wparam == Code(SessionUnlock) ==>
                !locked && unlocked && fired == Fired(old(onUnlock))
      ensures !(msg == WM_WTSSESSION_CHANGE && (wparam == Code(SessionLock) || wparam == Code(SessionUnlock))) ==>
                locked == old(locked) && unlocked == old(unlocked) && fired == []
      ensures outcome == if msg != WM_WTSSESSION_CHANGE
                         then (if msg == WM_CLOSE || msg == WM_DESTROY then Destroyed else DefaultHandled)
                         else if FromCode(wparam).None? then ValueErrorRaised else DefaultHandled
    {
      var monitor := wm;
      ghost var reg := monitor.handlers;
      var calls;
      calls, outcome := monitor.WindowProcedure(msg, wparam, lparam);
      ghost var e := if msg == WM_WTSSESSION_CHANGE && FromCode(wparam).Some? then FromCode(wparam).value else Any;
      assert forall j :: 0 <= j < |calls| ==> calls[j] == SessionCall(ScannerHandler, e, lparam);
      assert e != Any ==> |calls| == 1;
      fired := [];
      for i := 0 to |calls|
        invariant Valid() && wm == monitor && ScannerRegistry(monitor.handlers)
        invariant onLock == old(onLock) && onUnlock == old(onUnlock)
        invariant e == Any || i == 0 ==> locked == old(locked) && unlocked == old(unlocked) && fired == []
        invariant e != Any && i == 1 && e == SessionLock ==> locked && !unlocked && fired == Fired(old(onLock))
        invariant e != Any && i == 1 && e == SessionUnlock ==> !locked && unlocked && fired == Fired(old(onUnlock))
        invariant e != Any && i == 1 && e != SessionLock && e != SessionUnlock ==>
                    locked == old(locked) && unlocked == old(unlocked) && fired == []
      {
        if calls[i].handler == ScannerHandler {
          var f := Handler(calls[i].event, calls[i].sessionId);
          fired := fired + Fired(f);
        }
      }
    }

    /** `stop`: with no monitor yet, the error is swallowed. */
    method Stop() returns (outcome: StopOutcome)
      ensures outcome == if wm == null then ErrorSwallowed else QuitPosted
    {
      if wm == null {
        outcome := ErrorSwallowed;
      } else {
        outcome := QuitPosted;
      }
    }
  }

  /** The `watch_lock_unlock` loop over the polls it makes: each iteration first asks
      the stop predicate, then fires `on_lock` / `on_unlock` on a state it has not
      reported yet. Returns the callbacks fired and whether the stop predicate ended
      the loop. */
  method WatchLockUnlock(polls: seq<Poll>) returns (fired: seq<Fire>, stopped: bool)
    ensures stopped <==> FirstStop(polls) < |polls|
    ensures fired == Transitions(SamplesOf(polls[..FirstStop(polls)]))
  {
    var alreadyLocked, alreadyUnlocked := false, false;
    fired, stopped := [], false;
    var i := 0;
    while i < |polls|
      invariant 0 <= i <= |polls|
      invariant i <= FirstStop(polls)
      invariant fired == Transitions(SamplesOf(polls[..i]))
      invariant alreadyLocked <==> fired != [] && fired[|fired| - 1] == FireLock
      invariant alreadyUnlocked <==> fired != [] && fired[|fired| - 1] == FireUnlock
    {
      if polls[i].stopRequested {
        stopped := true;
        break;
      }
      var s := polls[i].sample;
      ghost var prev := fired;
      assert SamplesOf(polls[..i + 1]) == SamplesOf(polls[..i]) + [s];
      TransitionsAppend(SamplesOf(polls[..i]), s);
      if s.locked {
        if !alreadyLocked {
          fired := fired + [FireLock];
          alreadyLocked, alreadyUnlocked := true, false;
        }
      } else if s.unlocked {
        if !alreadyUnlocked {
          fired := fired + [FireUnlock];
          alreadyUnlocked, alreadyLocked := true, false;
        }
      }
      assert fired == prev + NextFire(prev, s);
      i := i + 1;
    }
    assert FirstStop(polls) == i;
  }

  /** The callbacks `watch_lock_unlock` fires alternate. */
  lemma WatchFiresAlternately(polls: seq<Poll>)
    ensures Alternates(Transitions(SamplesOf(polls[..FirstStop(polls)])))
  {
    TransitionsAlternate(SamplesOf(polls[..FirstStop(polls)]));
  }

  /** While the scanner only sees idle samples, `watch_lock_unlock` fires nothing. */
  lemma WatchIdleFiresNothing(polls: seq<Poll>)
    requires forall j :: 0 <= j < |polls| ==> polls[j].sample == Sample(false, false)
    ensures Transitions(SamplesOf(polls[..FirstStop(polls)])) == []
  {
    IdleFiresNothing(SamplesOf(polls[..FirstStop(polls)]));
  }
}
