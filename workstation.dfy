/** src/winytils/workstation.py: the heartbeat freeze detector and the command
    lines the power operations hand to the shell. */
module Workstation {
  import opened Wrappers

  // ---------------------------------------------------------------------------
  // Freeze detector

  /** The detector's state: `_frozen`, `_stop` and `run`'s local `last_time`. */
  datatype DetectorState = DetectorState(frozen: bool, stopRequested: bool, lastTime: int)

  /** One iteration of `run` at time `now`, after its sleep. */
  function TickState(s: DetectorState, threshold: int, now: int): (r: DetectorState)
    ensures s.stopRequested ==> r == s
    ensures !s.stopRequested ==> r.lastTime == now && !r.stopRequested
    ensures !s.stopRequested ==> (r.frozen <==> s.frozen || now - threshold > s.lastTime)
  {
    if s.stopRequested then s
    else DetectorState(s.frozen || now - threshold > s.lastTime, false, now)
  }

  /** The iterations of `run` at the successive times `nows`. */
  function TicksState(s: DetectorState, threshold: int, nows: seq<int>): DetectorState
    decreases |nows|
  {
    if nows == [] then s else TickState(TicksState(s, threshold, nows[..|nows| - 1]), threshold, nows[|nows| - 1])
  }

  /** Some iteration saw a gap of more than `threshold` since the previous one
      (the first is measured from `last`). */
  predicate GapExceeded(last: int, threshold: int, nows: seq<int>)
  {
    exists i :: 0 <= i < |nows| && GapAt(last, threshold, nows, i)
  }

  /** Iteration `i` saw more than `threshold` since the one before it. */
  predicate GapAt(last: int, threshold: int, nows: seq<int>, i: nat)
    requires i < |nows|
  {
    nows[i] - threshold > (if i == 0 then last else nows[i - 1])
  }

  /** After running, the detector is frozen iff it already was or some iteration
      saw a gap above the threshold; `last_time` is the last time seen. */
  lemma {:induction false} TicksFrozenIffGap(s: DetectorState, threshold: int, nows: seq<int>)
    requires !s.stopRequested
    ensures !TicksState(s, threshold, nows).stopRequested
    ensures TicksState(s, threshold, nows).lastTime == if nows == [] then s.lastTime else nows[|nows| - 1]
    ensures TicksState(s, threshold, nows).frozen <==> s.frozen || GapExceeded(s.lastTime, threshold, nows)
    decreases |nows|
  {
    if nows != [] {
      var init := nows[..|nows| - 1];
      var k := |nows| - 1;
      TicksFrozenIffGap(s, threshold, init);
      var prev := if init == [] then s.lastTime else init[|init| - 1];
      assert prev == if k == 0 then s.lastTime else nows[k - 1];
      if nows[k] - threshold > prev {
        assert GapAt(s.lastTime, threshold, nows, k);
      }
      if GapExceeded(s.lastTime, threshold, nows) {
        var i :| 0 <= i < |nows| && GapAt(s.lastTime, threshold, nows, i);
        if i < k {
          assert init[i] == nows[i];
          assert i > 0 ==> init[i - 1] == nows[i - 1];
          assert GapAt(s.lastTime, threshold, init, i);
        }
      }
      if GapExceeded(s.lastTime, threshold, init) {
        var i :| 0 <= i < |init| && GapAt(s.lastTime, threshold, init, i);
        assert nows[i] == init[i];
        assert i > 0 ==> nows[i - 1] == init[i - 1];
        assert GapAt(s.lastTime, threshold, nows, i);
        assert GapExceeded(s.lastTime, threshold, nows);
      }
    }
  }

  /** Once stop is requested, no iteration touches the state. */
  lemma {:induction false} StoppedTicksChangeNothing(s: DetectorState, threshold: int, nows: seq<int>)
    requires s.stopRequested
    ensures TicksState(s, threshold, nows) == s
    decreases |nows|
  {
    if nows != [] {
      StoppedTicksChangeNothing(s, threshold, nows[..|nows| - 1]);
    }
  }

  /** `was_frozen` on a state: the flag, and the state with the flag cleared. */
  function ReadFrozen(s: DetectorState): (r: (bool, DetectorState))
    ensures r.0 == s.frozen
    ensures r.1 == s.(frozen := false)
  {
    (s.frozen, s.(frozen := false))
  }

  /** Consume-on-read: a second `was_frozen` with no iteration between answers
      false, and any number of freezes before a read give a single true. */
  lemma ReadFrozenConsumes(s: DetectorState, threshold: int, nows: seq<int>)
    requires !s.stopRequested
    ensures !ReadFrozen(ReadFrozen(s).1).0
    ensures ReadFrozen(TicksState(s, threshold, nows)).0 <==> s.frozen || GapExceeded(s.lastTime, threshold, nows)
    ensures !ReadFrozen(ReadFrozen(TicksState(s, threshold, nows)).1).0
  {
    TicksFrozenIffGap(s, threshold, nows);
  }

  /** `FreezeDetector`, started at construction (`autostart=True`): `run` reads
      its first `last_time` at `startTime`. */
  class FreezeDetector {
    const threshold: int
    var frozen: bool
    var stopRequested: bool
    var lastTime: int

    function State(): DetectorState
      reads this
    {
      DetectorState(frozen, stopRequested, lastTime)
    }

    constructor (threshold: int, startTime: int)
      ensures this.threshold == threshold
      ensures State() == DetectorState(false, false, startTime)
    {
      this.threshold := threshold;
      frozen, stopRequested := false, false;
      lastTime := startTime;
    }

    /** `was_frozen`: returns the flag and clears it. */
    method WasFrozen() returns (r: bool)
      modifies this
      ensures (r, State()) == ReadFrozen(old(State()))
    {
      r := frozen;
      frozen := false;
    }

    /** `stop`, without the join. */
    method Stop()
      modifies this
      ensures State() == old(State()).(stopRequested := true)
    {
      stopRequested := true;
    }

    /** One iteration of `run`'s loop at time `now`; false when it returns. */
    method Tick(now: int) returns (running: bool)
      modifies this
      ensures running == !old(stopRequested)
      ensures State() == TickState(old(State()), threshold, now)
    {
      if stopRequested == true {
        return false;
      }
      if now - threshold > lastTime {
        frozen := true;
      }
      lastTime := now;
      running := true;
    }

    /** `run`'s loop over the times its iterations see, until it returns. */
    method Run(nows: seq<int>)
      modifies this
      ensures State() == TicksState(old(State()), threshold, nows)
    {
      ghost var s0 := State();
      var i := 0;
      while i < |nows|
        invariant 0 <= i <= |nows|
        invariant State() == TicksState(s0, threshold, nows[..i])
      {
        assert nows[..i + 1][..i] == nows[..i];
        var running := Tick(nows[i]);
        if !running {
          assert State().stopRequested;
          TicksAppend(s0, threshold, nows[..i], nows[i..]);
          assert nows[..i] + nows[i..] == nows;
          assert TicksState(State(), threshold, nows[i..]) == State() by {
            StoppedTicksChangeNothing(State(), threshold, nows[i..]);
          }
          return;
        }
        i := i + 1;
      }
      assert nows[..|nows|] == nows;
    }
  }

  lemma {:induction false} TicksAppend(s: DetectorState, threshold: int, a: seq<int>, b: seq<int>)
    ensures TicksState(s, threshold, a + b) == TicksState(TicksState(s, threshold, a), threshold, b)
    decreases |b|
  {
    if b == [] {
      assert a + b == a;
    } else {
      assert (a + b)[..|a + b| - 1] == a + b[..|b| - 1];
      TicksAppend(s, threshold, a, b[..|b| - 1]);
    }
  }

  // ---------------------------------------------------------------------------
  // Power commands

  /** The `shutdown.exe` action switch. */
  datatype Action = PowerOff | Reboot | Hibernate | Logoff

  function ActionSwitch(a: Action): char
  {
    match a
    case PowerOff => 's'
    case Reboot => 'r'
    case Hibernate => 'h'
    case Logoff => 'l'
  }

  function SwitchAction(c: char): (r: Option<Action>)
    ensures r.Some? ==> ActionSwitch(r.value) == c
  {
    if c == 's' then Some(PowerOff)
    else if c == 'r' then Some(Reboot)
    else if c == 'h' then Some(Hibernate)
    else if c == 'l' then Some(Logoff)
    else None
  }

  /** The switch letter names its action. */
  lemma SwitchRoundTrip(a: Action)
    ensures SwitchAction(ActionSwitch(a)) == Some(a)
  {
  }

  /** A `shutdown` command line: the action, `/f`, and `/t <seconds>`. */
  datatype Command = Command(action: Action, force: bool, timeout: Option<int>)

  function Digit(d: nat): char
    requires d < 10
  {
    (48 + d) as char
  }

  /** Decimal digits of `n`, most significant first. */
  function NatDigits(n: nat): string
    decreases n
  {
    if n < 10 then [Digit(n)] else NatDigits(n / 10) + [Digit(n % 10)]
  }

  /** Python's `str` of an integer. */
  function Decimal(i: int): string
  {
    if i < 0 then "-" + NatDigits(-i) else NatDigits(i)
  }

  predicate IsDigit(c: char)
  {
    '0' <= c <= '9'
  }

  /** The value of a non-empty run of decimal digits. */
  function ParseNat(t: string): Option<nat>
    decreases |t|
  {
    if t == [] || !IsDigit(t[|t| - 1]) then None
    else
      var d := (t[|t| - 1] as int - 48) as nat;
      if |t| == 1 then Some(d)
      else match ParseNat(t[..|t| - 1])
        case None => None
        case Some(n) => Some(10 * n + d)
  }

  function ParseInt(t: string): Option<int>
  {
    if t != [] && t[0] == '-' then
      match ParseNat(t[1..])
      case None => None
      case Some(n) => Some(-(n as int))
    else
      match ParseNat(t)
      case None => None
      case Some(n) => Some(n)
  }

  lemma {:induction false} NatDigitsRoundTrip(n: nat)
    ensures NatDigits(n) != [] && NatDigits(n)[0] != '-'
    ensures ParseNat(NatDigits(n)) == Some(n)
    decreases n
  {
    var t := NatDigits(n);
    if n >= 10 {
      NatDigitsRoundTrip(n / 10);
      assert t[..|t| - 1] == NatDigits(n / 10);
    }
  }

  /** Cutting `a + b` at `|a|` gives back both parts. */
  lemma SplitAt(a: string, b: string)
    ensures (a + b)[..|a|] == a && (a + b)[|a|..] == b
  {
  }

  lemma DecimalRoundTrip(i: int)
    ensures ParseInt(Decimal(i)) == Some(i)
  {
    if i < 0 {
      NatDigitsRoundTrip(-i);
      SplitAt("-", NatDigits(-i));
    } else {
      NatDigitsRoundTrip(i);
    }
  }

  function TimeoutText(t: Option<int>): string
  {
    match t
    case None => ""
    case Some(n) => " /t " + Decimal(n)
  }

  /** The options after the action switch. */
  function OptionsText(force: bool, t: Option<int>): string
  {
    (if force then " /f" else "") + TimeoutText(t)
  }

  /** The command line `os.system` receives for `c`. */
  function Render(c: Command): string
  {
    "shutdown /" + [ActionSwitch(c.action)] + OptionsText(c.force, c.timeout)
  }

  function ParseTimeout(t: string): Option<Option<int>>
  {
    if t == "" then Some(None)
    else if |t| >= 4 && t[..4] == " /t " then
      match ParseInt(t[4..])
      case None => None
      case Some(n) => Some(Some(n))
    else None
  }

  lemma TimeoutRoundTrip(t: Option<int>)
    ensures ParseTimeout(TimeoutText(t)) == Some(t)
    ensures !(|TimeoutText(t)| >= 3 && TimeoutText(t)[..3] == " /f")
  {
    if t.Some? {
      var u := TimeoutText(t);
      DecimalRoundTrip(t.value);
      SplitAt(" /t ", Decimal(t.value));
      assert u[2] == 't';
    }
  }

  /** Reads the options after the switch: an optional ` /f`, then the timeout. */
  function ParseOptions(rest: string): Option<(bool, Option<int>)>
  {
    var force := |rest| >= 3 && rest[..3] == " /f";
    match ParseTimeout(if force then rest[3..] else rest)
    case None => None
    case Some(t) => Some((force, t))
  }

  /** Reads a command line back. */
  function Parse(s: string): Option<Command>
  {
    if |s| < 11 || s[..10] != "shutdown /" || SwitchAction(s[10]).None? then None
    else
      match ParseOptions(s[11..])
      case None => None
      case Some(o) => Some(Command(SwitchAction(s[10]).value, o.0, o.1))
  }

  lemma OptionsRoundTrip(force: bool, t: Option<int>)
    ensures ParseOptions(OptionsText(force, t)) == Some((force, t))
  {
    var opt := TimeoutText(t);
    TimeoutRoundTrip(t);
    if force {
      SplitAt(" /f", opt);
    } else {
      assert "" + opt == opt;
    }
  }

  /** Every command line reads back as the command it was rendered from, so
      different commands give different lines. */
  lemma RenderRoundTrip(c: Command)
    ensures Parse(Render(c)) == Some(c)
  {
    HeadRoundTrip(c.action, OptionsText(c.force, c.timeout));
    OptionsRoundTrip(c.force, c.timeout);
  }

  /** A line that starts with an action's switch reads as that action with
      whatever options follow. */
  lemma HeadRoundTrip(a: Action, rest: string)
    ensures Parse("shutdown /" + [ActionSwitch(a)] + rest)
            == match ParseOptions(rest)
               case None => None
               case Some(o) => Some(Command(a, o.0, o.1))
  {
    var sw := [ActionSwitch(a)];
    var s := "shutdown /" + sw + rest;
    assert s == "shutdown /" + (sw + rest);
    SplitAt("shutdown /", sw + rest);
    SplitAt("shutdown /" + sw, rest);
    assert s[10] == ActionSwitch(a);
    SwitchRoundTrip(a);
  }

  /** Python truthiness of the optional `delay`: `None` and 0 are false. */
  predicate Truthy(delay: Option<int>)
  {
    delay.Some? && delay.value != 0
  }

  /** The command a power operation means: `force` wins, then a truthy delay. */
  function Meant(a: Action, force: bool, delay: Option<int>): Command
  {
    Command(a, force, if force then Some(0) else if Truthy(delay) then delay else None)
  }

  /** The forced line of an action is the rendering of that action, forced, with
      no wait, and reads back as it. */
  lemma ForcedLine(a: Action)
    ensures Render(Command(a, true, Some(0))) == "shutdown /" + [ActionSwitch(a)] + " /f /t 0"
    ensures Parse("shutdown /" + [ActionSwitch(a)] + " /f /t 0") == Some(Command(a, true, Some(0)))
  {
    var c := Command(a, true, Some(0));
    assert Decimal(0) == "0";
    assert Render(c) == "shutdown /" + [ActionSwitch(a)] + " /f /t 0";
    RenderRoundTrip(c);
  }

  /** The delayed line of an action is the rendering of that action with timeout
      `v`, and reads back as it. */
  lemma DelayedLine(a: Action, v: int)
    ensures Render(Command(a, false, Some(v))) == "shutdown /" + [ActionSwitch(a)] + " /t " + Decimal(v)
    ensures Parse("shutdown /" + [ActionSwitch(a)] + " /t " + Decimal(v)) == Some(Command(a, false, Some(v)))
  {
    var c := Command(a, false, Some(v));
    assert Render(c) == "shutdown /" + [ActionSwitch(a)] + " /t " + Decimal(v);
    RenderRoundTrip(c);
  }

  /** The bare line of an action is the rendering of that action with no options,
      and reads back as it. */
  lemma PlainLine(a: Action)
    ensures Render(Command(a, false, None)) == "shutdown /" + [ActionSwitch(a)]
    ensures Parse("shutdown /" + [ActionSwitch(a)]) == Some(Command(a, false, None))
  {
    var c := Command(a, false, None);
    assert Render(c) == "shutdown /" + [ActionSwitch(a)];
    RenderRoundTrip(c);
  }

  /** `Workstation.shutdown`: force wins over delay; a falsy delay gives the bare
      command. */
  function Shutdown(force: bool, delay: Option<int>): (r: string)
    ensures r == Render(Meant(PowerOff, force, delay))
    ensures Parse(r) == Some(Meant(PowerOff, force, delay))
  {
    if force then
      ForcedLine(PowerOff);
      assert "shutdown /s /f /t 0" == "shutdown /" + [ActionSwitch(PowerOff)] + " /f /t 0";
      "shutdown /s /f /t 0"
    else if Truthy(delay) then
      DelayedLine(PowerOff, delay.value);
      assert "shutdown /s /t " == "shutdown /" + [ActionSwitch(PowerOff)] + " /t ";
      "shutdown /s /t " + Decimal(delay.value)
    else
      PlainLine(PowerOff);
      assert "shutdown /s" == "shutdown /" + [ActionSwitch(PowerOff)];
      "shutdown /s"
  }

  /** `Workstation.restart`: the same choice with `/r`. */
  function Restart(force: bool, delay: Option<int>): (r: string)
    ensures r == Render(Meant(Reboot, force, delay))
    ensures Parse(r) == Some(Meant(Reboot, force, delay))
  {
    if force then
      ForcedLine(Reboot);
      assert "shutdown /r /f /t 0" == "shutdown /" + [ActionSwitch(Reboot)] + " /f /t 0";
      "shutdown /r /f /t 0"
    else if Truthy(delay) then
      DelayedLine(Reboot, delay.value);
      assert "shutdown /r /t " == "shutdown /" + [ActionSwitch(Reboot)] + " /t ";
      "shutdown /r /t " + Decimal(delay.value)
    else
      PlainLine(Reboot);
      assert "shutdown /r" == "shutdown /" + [ActionSwitch(Reboot)];
      "shutdown /r"
  }

  /** `Workstation.hibernate`. */
  function HibernateCommand(): (r: string)
    ensures r == Render(Command(Hibernate, false, None))
    ensures Parse(r) == Some(Command(Hibernate, false, None))
  {
    PlainLine(Hibernate);
    "shutdown /h"
  }

  /** `Workstation.logoff`. */
  function LogoffCommand(): (r: string)
    ensures r == Render(Command(Logoff, false, None))
    ensures Parse(r) == Some(Command(Logoff, false, None))
  {
    PlainLine(Logoff);
    "shutdown /l"
  }

  /** No two of the power operations can issue the same command line, and
      `delay` is ignored whenever `force` is set or it is falsy. */
  lemma PowerCommandsDiffer(f1: bool, d1: Option<int>, f2: bool, d2: Option<int>)
    ensures Shutdown(f1, d1) != Restart(f2, d2)
    ensures Shutdown(f1, d1) != HibernateCommand() && Shutdown(f1, d1) != LogoffCommand()
    ensures Restart(f1, d1) != HibernateCommand() && Restart(f1, d1) != LogoffCommand()
    ensures HibernateCommand() != LogoffCommand()
    ensures f1 && f2 ==> Shutdown(f1, d1) == Shutdown(f2, d2)
    ensures !f1 && !Truthy(d1) ==> Shutdown(f1, d1) == Shutdown(false, None)
  {
  }
}
