/** What `machine_state_watcher.py` and `pc_state.py` share: the `SessionEvent`
    enum, the two-tier session dispatch, the stored lock/unlock callbacks, and the
    reference definition of what their polling loops report. */
module Session {
  import opened Wrappers
  import opened Registry

  /** `SessionEvent`: `ANY`, the message code `CHANGE` and the WTS_* reasons. */
  datatype SessionEvent =
    | Any
    | Change
    | ConsoleConnect
    | ConsoleDisconnect
    | RemoteConnect
    | RemoteDisconnect
    | SessionLogon
    | SessionLogoff
    | SessionLock
    | SessionUnlock
    | SessionRemoteControl

  /** The member values of `SessionEvent`: `ANY` is 0, `CHANGE` is the message
      number itself, and the specific events are WTS codes 1 to 9. */
  function Code(e: SessionEvent): (r: int)
    ensures r == 0 <==> e == Any
    ensures r == 0x2B1 <==> e == Change
    ensures e != Any && e != Change ==> 1 <= r <= 9
  {
    match e
    case Any => 0
    case Change => 0x2B1
    case ConsoleConnect => 0x1
    case ConsoleDisconnect => 0x2
    case RemoteConnect => 0x3
    case RemoteDisconnect => 0x4
    case SessionLogon => 0x5
    case SessionLogoff => 0x6
    case SessionLock => 0x7
    case SessionUnlock => 0x8
    case SessionRemoteControl => 0x9
  }

  /** `SessionEvent(code)`: defined only for 0, 1 to 9 and 0x2B1; any other code
      raises `ValueError`, modelled as `None`. */
  function FromCode(c: int): (r: Option<SessionEvent>)
    ensures r.Some? <==> c == 0 || 1 <= c <= 9 || c == 0x2B1
    ensures r.Some? ==> Code(r.value) == c
    ensures c == 0 ==> r == Some(Any)
  {
    if c == 0 then Some(Any)
    else if c == 0x2B1 then Some(Change)
    else if c == 1 then Some(ConsoleConnect)
    else if c == 2 then Some(ConsoleDisconnect)
    else if c == 3 then Some(RemoteConnect)
    else if c == 4 then Some(RemoteDisconnect)
    else if c == 5 then Some(SessionLogon)
    else if c == 6 then Some(SessionLogoff)
    else if c == 7 then Some(SessionLock)
    else if c == 8 then Some(SessionUnlock)
    else if c == 9 then Some(SessionRemoteControl)
    else None
  }

  /** Every member's value converts back to that member. */
  lemma CodeRoundTrip(e: SessionEvent)
    ensures FromCode(Code(e)) == Some(e)
  {
  }

  /** One call `handler(event, session_id)`. */
  datatype SessionCall = SessionCall(handler: HandlerId, event: SessionEvent, sessionId: int)

  function SessionCallsOf(hs: seq<HandlerId>, e: SessionEvent, sid: int): (r: seq<SessionCall>)
    ensures |r| == |hs|
    ensures forall i :: 0 <= i < |hs| ==> r[i] == SessionCall(hs[i], e, sid)
  {
    seq(|hs|, i requires 0 <= i < |hs| => SessionCall(hs[i], e, sid))
  }

  lemma SessionCallsOfAppend(a: seq<HandlerId>, b: seq<HandlerId>, e: SessionEvent, sid: int)
    ensures SessionCallsOf(a + b, e, sid) == SessionCallsOf(a, e, sid) + SessionCallsOf(b, e, sid)
  {
  }

  /** The calls `_handle_session_change(event, session_id)` makes: the specific
      event's handlers, then the `ANY` handlers, each list in registration order. */
  function SessionDispatch(reg: map<SessionEvent, seq<HandlerId>>, e: SessionEvent, sid: int): seq<SessionCall>
  {
    SessionCallsOf(Lookup(reg, e) + Lookup(reg, Any), e, sid)
  }

  /** A specific event reaches first its own handlers, then those registered for
      `ANY`; each is called with the event and the session id. */
  lemma SessionDispatchOrder(reg: map<SessionEvent, seq<HandlerId>>, e: SessionEvent, sid: int, i: nat)
    requires i < |Lookup(reg, e)| + |Lookup(reg, Any)|
    ensures |SessionDispatch(reg, e, sid)| == |Lookup(reg, e)| + |Lookup(reg, Any)|
    ensures SessionDispatch(reg, e, sid)[i]
            == SessionCall(if i < |Lookup(reg, e)| then Lookup(reg, e)[i]
                           else Lookup(reg, Any)[i - |Lookup(reg, e)|], e, sid)
  {
  }

  /** Code 0 converts to `ANY` itself, so the `ANY` handlers run twice. */
  lemma CodeZeroRunsAnyTwice(reg: map<SessionEvent, seq<HandlerId>>, sid: int)
    ensures SessionDispatch(reg, FromCode(0).value, sid)
            == SessionCallsOf(Lookup(reg, Any), Any, sid) + SessionCallsOf(Lookup(reg, Any), Any, sid)
  {
    SessionCallsOfAppend(Lookup(reg, Any), Lookup(reg, Any), Any, sid);
  }

  /** A stored callback `func(*args, **kwargs)`; arguments are opaque values. */
  datatype Callback = Callback(func: HandlerId, args: seq<int>, kwargs: map<string, int>)

  /** The scanner's handler as registered with its monitor. */
  const ScannerHandler: HandlerId := 0

  // ---------------------------------------------------------------------------
  // Polling loops

  /** One reading of the scanner's `(locked, unlocked)` flags by a polling loop. */
  datatype Sample = Sample(locked: bool, unlocked: bool)

  /** A callback fired by a polling loop. */
  datatype Fire = FireLock | FireUnlock

  /** What a sample shows: locked is checked first, then unlocked. */
  function Observe(s: Sample): Option<Fire>
  {
    if s.locked then Some(FireLock) else if s.unlocked then Some(FireUnlock) else None
  }

  /** The states shown by a run of samples, in order, idle samples dropped. */
  function Observations(ss: seq<Sample>): seq<Fire>
    decreases |ss|
  {
    if ss == [] then []
    else Observations(ss[..|ss| - 1])
         + match Observe(ss[|ss| - 1]) { case None => [] case Some(f) => [f] }
  }

  /** `fs` with every element dropped that repeats the element kept before it. */
  function Collapse(fs: seq<Fire>): seq<Fire>
    decreases |fs|
  {
    if fs == [] then []
    else
      var r := Collapse(fs[..|fs| - 1]);
      if r != [] && r[|r| - 1] == fs[|fs| - 1] then r else r + [fs[|fs| - 1]]
  }

  /** Reference definition of the callbacks a polling loop fires over `ss`: one per
      change of the observed state, the first one at the first non-idle sample. */
  function Transitions(ss: seq<Sample>): seq<Fire>
  {
    Collapse(Observations(ss))
  }

  /** Two successive fires never have the same kind. */
  predicate Alternates(fs: seq<Fire>)
  {
    forall i :: 0 <= i < |fs| - 1 ==> fs[i] != fs[i + 1]
  }

  lemma {:induction false} CollapseAlternates(fs: seq<Fire>)
    ensures Alternates(Collapse(fs))
    decreases |fs|
  {
    if fs != [] {
      CollapseAlternates(fs[..|fs| - 1]);
    }
  }

  /** The fired callbacks strictly alternate between lock and unlock. */
  lemma TransitionsAlternate(ss: seq<Sample>)
    ensures Alternates(Transitions(ss))
  {
    CollapseAlternates(Observations(ss));
  }

  lemma {:induction false} IdleObservesNothing(ss: seq<Sample>)
    requires forall i :: 0 <= i < |ss| ==> ss[i] == Sample(false, false)
    ensures Observations(ss) == []
    decreases |ss|
  {
    if ss != [] {
      IdleObservesNothing(ss[..|ss| - 1]);
    }
  }

  /** Nothing fires while the scanner is still in its initial `(false, false)` state. */
  lemma IdleFiresNothing(ss: seq<Sample>)
    requires forall i :: 0 <= i < |ss| ==> ss[i] == Sample(false, false)
    ensures Transitions(ss) == []
  {
    IdleObservesNothing(ss);
  }

  /** The fire a poll on `s` makes after `fs` have fired. */
  function NextFire(fs: seq<Fire>, s: Sample): seq<Fire>
  {
    match Observe(s)
    case None => []
    case Some(f) => if fs != [] && fs[|fs| - 1] == f then [] else [f]
  }

  /** One more sample extends the transitions by at most one callback. */
  lemma TransitionsAppend(ss: seq<Sample>, s: Sample)
    ensures Transitions(ss + [s]) == Transitions(ss) + NextFire(Transitions(ss), s)
  {
    var o := Observations(ss);
    assert (ss + [s])[..|ss + [s]| - 1] == ss;
    match Observe(s)
    case None =>
      assert Observations(ss + [s]) == o;
    case Some(f) =>
      var fs := o + [f];
      assert Observations(ss + [s]) == fs;
      assert fs[..|fs| - 1] == o;
  }

  /** A maximal run of locked samples fires `on_lock` at most once: exactly once
      unless the last callback fired before it was already `on_lock`. */
  lemma {:induction false} LockedRunFiresAtMostOnce(before: seq<Sample>, run: seq<Sample>)
    requires run != []
    requires forall i :: 0 <= i < |run| ==> run[i].locked
    ensures Transitions(before + run)
            == Transitions(before)
               + (if Transitions(before) != [] && Transitions(before)[|Transitions(before)| - 1] == FireLock
                  then [] else [FireLock])
    decreases |run|
  {
    var last := run[|run| - 1];
    var init := run[..|run| - 1];
    assert before + run == (before + init) + [last];
    TransitionsAppend(before + init, last);
    if init == [] {
      assert before + init == before;
    } else {
      LockedRunFiresAtMostOnce(before, init);
    }
  }

  /** The symmetric statement for a run of unlocked (and not locked) samples. */
  lemma {:induction false} UnlockedRunFiresAtMostOnce(before: seq<Sample>, run: seq<Sample>)
    requires run != []
    requires forall i :: 0 <= i < |run| ==> !run[i].locked && run[i].unlocked
    ensures Transitions(before + run)
            == Transitions(before)
               + (if Transitions(before) != [] && Transitions(before)[|Transitions(before)| - 1] == FireUnlock
                  then [] else [FireUnlock])
    decreases |run|
  {
    var last := run[|run| - 1];
    var init := run[..|run| - 1];
    assert before + run == (before + init) + [last];
    TransitionsAppend(before + init, last);
    if init == [] {
      assert before + init == before;
    } else {
      UnlockedRunFiresAtMostOnce(before, init);
    }
  }

  /** A poll and the stop predicate's answer in the same iteration. */
  datatype Poll = Poll(stopRequested: bool, sample: Sample)

  function SamplesOf(ps: seq<Poll>): (r: seq<Sample>)
    ensures |r| == |ps|
    ensures forall i :: 0 <= i < |ps| ==> r[i] == ps[i].sample
  {
    seq(|ps|, i requires 0 <= i < |ps| => ps[i].sample)
  }

  /** The iteration at which the stop predicate first answers true, or `|ps|`. */
  function FirstStop(ps: seq<Poll>): (k: nat)
    ensures k <= |ps|
    ensures k < |ps| ==> ps[k].stopRequested
    ensures forall j :: 0 <= j < k ==> !ps[j].stopRequested
  {
    if ps == [] then 0 else if ps[0].stopRequested then 0 else 1 + FirstStop(ps[1..])
  }
}
