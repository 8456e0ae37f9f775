/** src/winytils/pc_state.py: the copy of the session monitor and scanner without
    a lock. Its `WorkstationMonitor` is line for line the one in
    machine_state_watcher.py and is shared with that model; the scanner differs in
    that `wm` does not exist before `run` and `stop` does not catch the error. */
module PcState {
  import opened Wrappers
  import opened Registry
  import opened Session
  import MachineStateWatcher

  /** The exception `stop` lets escape. */
  datatype StopError = AttributeError

  class MachineStateScanner {
    /** `null` while the attribute `wm` has not been assigned by `run`. */
    var wm: MachineStateWatcher.WorkstationMonitor?
    var locked: bool
    var unlocked: bool
    var onLock: Option<Callback>
    var onUnlock: Option<Callback>

    ghost predicate Valid()
      reads this
    {
      !(locked && unlocked)
    }

    constructor ()
      ensures Valid()
      ensures wm == null && !locked && !unlocked && onLock == None && onUnlock == None
    {
      wm := null;
      locked, unlocked := false, false;
      onLock, onUnlock := None, None;
    }

    /** `on_lock(func, *args, **kwargs)`: the last call wins. A `None` function
        switches the callback off, since `handler` calls it only when it is
        truthy; the arguments stored with it are then never read. */
    method OnLock(func: Option<HandlerId>, args: seq<int>, kwargs: map<string, int>)
      modifies this
      ensures onLock == if func.Some? then Some(Callback(func.value, args, kwargs)) else None
      ensures wm == old(wm) && locked == old(locked) && unlocked == old(unlocked) && onUnlock == old(onUnlock)
    {
      onLock := if func.Some? then Some(Callback(func.value, args, kwargs)) else None;
    }

    /** `on_unlock(func, *args, **kwargs)`: the last call wins. A `None` function
        switches the callback off, since `handler` calls it only when it is
        truthy; the arguments stored with it are then never read. */
    method OnUnlock(func: Option<HandlerId>, args: seq<int>, kwargs: map<string, int>)
      modifies this
      ensures onUnlock == if func.Some? then Some(Callback(func.value, args, kwargs)) else None
      ensures wm == old(wm) && locked == old(locked) && unlocked == old(unlocked) && onLock == old(onLock)
    {
      onUnlock := if func.Some? then Some(Callback(func.value, args, kwargs)) else None;
    }

    /** `handler(event, session_id)`: returns the callback it invoked, if any. */
    method Handler(e: SessionEvent, sid: int) returns (fired: Option<Callback>)
      requires Valid()
      modifies this
      ensures Valid()
      ensures e == SessionLock ==> locked && !unlocked && fired == old(onLock)
      ensures e == SessionUnlock ==> !locked && unlocked && fired == old(onUnlock)
      ensures e != SessionLock && e != SessionUnlock ==>
                locked == old(locked) && unlocked == old(unlocked) && fired == None
      ensures wm == old(wm) && onLock == old(onLock) && onUnlock == old(onUnlock)
    {
      fired := None;
      if e == SessionLock {
        locked, unlocked := true, false;
        fired := onLock;
      } else if e == SessionUnlock {
        locked, unlocked := false, true;
        fired := onUnlock;
      }
    }

    /** `run` up to `listen()`. */
    method Run()
      modifies this
      ensures wm != null && fresh(wm) && MachineStateWatcher.ScannerRegistry(wm.handlers)
      ensures locked == old(locked) && unlocked == old(unlocked)
      ensures onLock == old(onLock) && onUnlock == old(onUnlock)
    {
      var m := new MachineStateWatcher.WorkstationMonitor();
      m.RegisterHandler(Any, ScannerHandler);
      wm := m;
    }

    /** `stop`: before `run` the missing attribute raises. */
    method Stop() returns (r: Result<(), StopError>)
      ensures r.Failure? <==> wm == null
    {
      if wm == null {
        r := Failure(AttributeError);
      } else {
        r := Success(());
      }
    }
  }

  /** The `example2` loop over the samples it takes before it is interrupted: each
      message is printed once per change of state. */
  method Example2(samples: seq<Sample>) returns (printed: seq<Fire>)
    ensures printed == Transitions(samples)
  {
    var alreadyLocked, alreadyUnlocked := false, false;
    printed := [];
    for i := 0 to |samples|
      invariant printed == Transitions(samples[..i])
      invariant alreadyLocked <==> printed != [] && printed[|printed| - 1] == FireLock
      invariant alreadyUnlocked <==> printed != [] && printed[|printed| - 1] == FireUnlock
    {
      var s := samples[i];
      assert samples[..i + 1] == samples[..i] + [s];
      TransitionsAppend(samples[..i], s);
      if s.locked {
        if !alreadyLocked {
          printed := printed + [FireLock];
          alreadyLocked, alreadyUnlocked := true, false;
        }
      } else if s.unlocked {
        if !alreadyUnlocked {
          printed := printed + [FireUnlock];
          alreadyUnlocked, alreadyLocked := true, false;
        }
      }
    }
    assert samples[..|samples|] == samples;
  }
}
