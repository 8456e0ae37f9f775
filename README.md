# python-winytils: Dafny model of its dispatch, state-machine and filtering core

winytils is a Python helper library for Windows. It watches session
notifications, detects hangs, issues power commands and enumerates and filters
top-level windows. Most of it is a thin layer over Win32, psutil and COM. This
project models the logic that remains sequential and deterministic once the OS
is replaced by plain values:

- A window becomes a record (`WindowRecord.Window`). A psutil process lookup that
  raises becomes a missing process name.
- A window message becomes an integer triple.
- Time becomes an integer supplied by the caller.
- A handler or callback becomes an opaque identifier or record. The model returns
  the trace of calls a dispatch makes instead of making them.

Modules follow the source files:

| module | file |
|---|---|
| `Wrappers`, `Seqs`, `Registry`, `Win32` | shared: `Option`/`Result`, an order-preserving filter with subsequence facts, Python's `defaultdict(list)` as a map to sequences, Win32 constants |
| `WorkstationEvents` | `src/winytils/workstation_events.py` |
| `Session` | the `SessionEvent` enum, session dispatch and polling reference definitions common to the next two files |
| `MachineStateWatcher` | `src/winytils/machine_state_watcher.py` |
| `PcState` | `src/winytils/pc_state.py` (its `WorkstationMonitor` is line for line the one above and is shared) |
| `Workstation` | `src/winytils/workstation.py` |
| `WindowRecord`, `Windows` | `src/winytils/windows.py` |
| `GuiWin` | `src/winytils/guiwin.py` |

Objects whose fields the source updates are classes with `modifies` clauses:

- the listener and its handler registry;
- `WorkstationState`;
- the session monitor;
- both scanners;
- the freeze detector.

Each loop of the source is a `while` or `for` loop proved against a reference function. Pure branching (Python command selection, style bits, key computation) is written as functions.

Points where the model takes a position:

- **Polling loops.** The two loops (`watch_lock_unlock`, `example2`) reset their `already_*` flags the same way: inside the branch that fires, both flags are set. They therefore share one reference definition, `Session.Transitions`. That reference definition covers only the callbacks the loops fire. Otherwise the loops differ in four ways. Their stop conditions differ: a stop predicate in one, a keyboard interrupt in the other. They catch different exceptions: `watch_lock_unlock` ends on any `Exception`, so a callback that raises ends it, while `example2` catches only `KeyboardInterrupt`, so any other exception propagates out of it. Their sleep intervals differ: 0.1 s and 0.5 s. Only `watch_lock_unlock` joins the scanner thread on teardown. The model covers what each loop fires (callbacks in one, messages in the other) before it stops.
- **`delay` in `shutdown`/`restart`.** It is tested for Python truthiness, so `0` and `None` both give the bare command, and a negative delay is rendered as written.
- **Freeze detector.** One iteration reads the clock twice, at lines 34 and 36 of `workstation.py`. The model gives both readings the same `now`.
- **`lparam`.** It is passed through as the session id without interpretation.

## Model

| member | source | states |
|---|---|---|
| Registry.Register | src/winytils/workstation_events.py:147 | appending under a key grows only that key's list, by one element at its end; every other key's list is unchanged; duplicates are kept |
| Registry.Touch | src/winytils/workstation_events.py:127 | reading a missing `defaultdict` key inserts it with an empty list and changes no list; the registry after a handler loop is stated with it |
| WorkstationEvents.Tiers | src/winytils/workstation_events.py:127-134 | the window procedure consults four pairwise distinct keys, from exact to all-wildcard; each matches the message and has only trailing wildcards |
| WorkstationEvents.TiersAreTrailingMatches | src/winytils/workstation_events.py:127-134 | a key is consulted iff it matches the message field by field and its wildcards are trailing |
| WorkstationEvents.DispatchedCalls | src/winytils/workstation_events.py:127-134 | every call receives the concrete `Event(msg, wparam, lparam)`; a handler is called iff it is registered under a matching trailing-wildcard key |
| WorkstationEvents.LockKeyMatchesEverySession | src/winytils/workstation_events.py:43-57 | a handler under the `LockEvent` defaults `(0x2B1, 7, None)` is called for a lock notification with any session id |
| WorkstationEvents.BaseEventClassIsNotWildcard | src/winytils/workstation_events.py:28-33 | `on(Event, h)` instantiates the class, so it registers under `(0, 0, 0)`: `h` then fires for the message `(0, 0, 0)` and for no other |
| WorkstationEvents.AnyEventClassIsWildcard | src/winytils/workstation_events.py:35-39 | `on(AnyEvent, h)` registers under `(None, None, None)`: `h` then receives every message |
| WorkstationEvents.InnerWildcardNeverDispatched | src/winytils/workstation_events.py:127-134 | a key such as `(None, 7, None)` is never consulted, so its handlers never run |
| WorkstationEvents.WorkstationEventsListener.constructor | src/winytils/workstation_events.py:81-84 | the registry starts empty |
| WorkstationEvents.Defaults | src/winytils/workstation_events.py:26-75 | the default field triple of each event class: all `None` exactly for `AnyEvent`; an `lparam` exactly for the base `Event`; `msg` and `wparam` set for every class but `AnyEvent`; `msg` is `WM_WTSSESSION_CHANGE` exactly for the lock and unlock classes |
| WorkstationEvents.KeyOf | src/winytils/workstation_events.py:142-147 | an instance is keyed by its own fields; a class is instantiated with its defaults first |
| WorkstationEvents.ClassKeysDiffer | src/winytils/workstation_events.py:26-75 | registering a class and registering its default instance give the same key, and two classes give the same key iff they are the same class |
| WorkstationEvents.WorkstationEventsListener.On | src/winytils/workstation_events.py:142-147 | the new registry is the old one with the handler appended under the resolved key |
| WorkstationEvents.WorkstationEventsListener.InvokeTier | src/winytils/workstation_events.py:127-128 | one tier loop calls that key's handlers in registration order with the event; the new registry is the old one touched at that key, so no list changes and the key becomes present |
| WorkstationEvents.WorkstationEventsListener.WindowProcedure | src/winytils/workstation_events.py:125-140 | the calls are the four tiers' handlers in tier then registration order, each with the concrete event, dispatched before the teardown check; no list changes and only the four keys are added; `WM_CLOSE`/`WM_DESTROY` end the pump, all else goes to `DefWindowProc` |
| WorkstationEvents.StateDispatch | src/winytils/workstation_events.py:155-158 | on `WorkstationState`'s registry, a lock notification reaches only the lock lambda, an unlock notification only the unlock lambda, anything else nothing |
| WorkstationEvents.LockedIsLastLockOrUnlock | src/winytils/workstation_events.py:157-163 | after any message sequence, `locked` is the kind of the last lock-or-unlock notification, or its initial value if there was none |
| WorkstationEvents.FreshStateIsLockedIffLastWasLock | src/winytils/workstation_events.py:152-163 | from `locked = False`, `is_locked()` is true iff the most recent lock-or-unlock notification was a lock |
| WorkstationEvents.WorkstationState.constructor | src/winytils/workstation_events.py:152-158 | starts unlocked; the listener holds exactly the two lambdas under the lock and unlock keys |
| WorkstationEvents.WorkstationState.IsLocked | src/winytils/workstation_events.py:162-163 | `is_locked()` returns the current value of `locked` |
| WorkstationEvents.WorkstationState.Deliver | src/winytils/workstation_events.py:157-158 | delivering a message keeps the registry and sets `locked` as one lock step: lock sets it, unlock clears it, other messages leave it |
| Session.Code | src/winytils/machine_state_watcher.py:15-26 | a member's value: 0 exactly for `ANY`, 0x2B1 exactly for `CHANGE`, and between 1 and 9 for the nine session notifications |
| Session.FromCode | src/winytils/machine_state_watcher.py:15-26 | `SessionEvent(code)` is defined exactly for 0, 1 to 9 and 0x2B1, is the inverse of the member values, and maps 0 to `ANY` |
| Session.CodeRoundTrip | src/winytils/pc_state.py:25-36 | every member's value converts back to that member |
| Session.SessionDispatchOrder | src/winytils/machine_state_watcher.py:88-93 | session dispatch calls the event's own handlers in registration order, then those of `ANY`, each with `(event, session_id)` |
| Session.CodeZeroRunsAnyTwice | src/winytils/machine_state_watcher.py:81 | a `wparam` of 0 converts to `ANY`, so the `ANY` handlers run twice |
| Session.TransitionsAlternate | src/winytils/machine_state_watcher.py:173-189 | the callbacks a polling loop fires strictly alternate between lock and unlock |
| Session.IdleFiresNothing | src/winytils/machine_state_watcher.py:180-189 | nothing fires while the scanner is in its initial `(False, False)` state |
| Session.TransitionsAppend | src/winytils/machine_state_watcher.py:180-189 | one more sample extends the fired callbacks by at most one: the observed state, and only if it differs from the last fired |
| Session.LockedRunFiresAtMostOnce | src/winytils/machine_state_watcher.py:180-184 | a maximal run of locked samples fires `on_lock` once, or not at all if the last fire was already `on_lock` |
| Session.UnlockedRunFiresAtMostOnce | src/winytils/machine_state_watcher.py:185-189 | the same for a run of unlocked samples and `on_unlock` |
| Session.FirstStop | src/winytils/machine_state_watcher.py:177-178 | the first iteration whose stop predicate answers true; none before it does |
| MachineStateWatcher.WorkstationMonitor.constructor | src/winytils/machine_state_watcher.py:33-35 | the registry starts empty |
| MachineStateWatcher.WorkstationMonitor.RegisterHandler | src/winytils/machine_state_watcher.py:95-97 | appends the handler under the given event only |
| MachineStateWatcher.CallEach | src/winytils/machine_state_watcher.py:90-91 | one handler loop calls every handler of the list exactly once, in registration order, with the event and the session id |
| MachineStateWatcher.WorkstationMonitor.HandleSessionChange | src/winytils/machine_state_watcher.py:88-93 | the calls are the session dispatch of the old registry; the new registry is the old one touched at the event's key and then at `ANY`, so no list changes and only those two keys may be added |
| MachineStateWatcher.WorkstationMonitor.WindowProcedure | src/winytils/machine_state_watcher.py:78-86 | a session notification with a known code is dispatched; an unknown code raises `ValueError` before any call; `WM_CLOSE`/`WM_DESTROY` destroy the window without a dispatch; anything else goes to `DefWindowProc` |
| MachineStateWatcher.MachineStateScanner.constructor | src/winytils/machine_state_watcher.py:105-116 | no monitor, neither locked nor unlocked, no callbacks |
| MachineStateWatcher.MachineStateScanner.OnLock | src/winytils/machine_state_watcher.py:131-136 | replaces the stored lock callback with its arguments (the last call wins); a `None` function switches the callback off; nothing else changes |
| MachineStateWatcher.MachineStateScanner.OnUnlock | src/winytils/machine_state_watcher.py:138-143 | the same for the unlock callback, including `None` |
| MachineStateWatcher.MachineStateScanner.Handler | src/winytils/machine_state_watcher.py:145-157 | lock sets `(True, False)` and fires the stored lock callback if any; unlock sets `(False, True)` and fires the unlock callback; other events change nothing; never both flags |
| MachineStateWatcher.MachineStateScanner.Run | src/winytils/machine_state_watcher.py:118-122 | a fresh monitor whose only handler is the scanner's, under `ANY` |
| MachineStateWatcher.MachineStateScanner.Pump | src/winytils/machine_state_watcher.py:78-93 | one message pumped through the monitor to the scanner: a lock or unlock notification sets the flags and fires the stored callback once; everything else leaves the flags; the registry is kept |
| MachineStateWatcher.MachineStateScanner.Stop | src/winytils/machine_state_watcher.py:124-129 | with no monitor yet the error is swallowed; otherwise a quit is posted |
| MachineStateWatcher.WatchLockUnlock | src/winytils/machine_state_watcher.py:173-193 | the loop stops iff the stop predicate answers true, in that iteration and before any callback; the fired callbacks are the transitions of the samples taken before it |
| MachineStateWatcher.WatchFiresAlternately | src/winytils/machine_state_watcher.py:173-189 | the loop's callbacks alternate: never two locks or two unlocks in a row |
| MachineStateWatcher.WatchIdleFiresNothing | src/winytils/machine_state_watcher.py:173-189 | with only idle samples nothing fires |
| PcState.MachineStateScanner.constructor | src/winytils/pc_state.py:111-116 | no `wm` attribute yet, neither locked nor unlocked, no callbacks |
| PcState.MachineStateScanner.OnLock | src/winytils/pc_state.py:118-122 | overwrites the lock callback and its arguments; a `None` function switches the callback off; nothing else changes |
| PcState.MachineStateScanner.OnUnlock | src/winytils/pc_state.py:124-128 | the same for the unlock callback, including `None` |
| PcState.MachineStateScanner.Handler | src/winytils/pc_state.py:130-141 | lock sets `(True, False)` and fires the lock callback if set; unlock sets `(False, True)` and fires the unlock callback; other events change nothing; never both flags |
| PcState.MachineStateScanner.Run | src/winytils/pc_state.py:143-147 | assigns a fresh monitor with the scanner's handler under `ANY` |
| PcState.MachineStateScanner.Stop | src/winytils/pc_state.py:149-151 | fails with `AttributeError` exactly when `run` has not assigned `wm`; nothing catches it |
| PcState.Example2 | src/winytils/pc_state.py:197-211 | the printed messages are the transitions of the samples: alternating, at most one per change, none before the first event |
| Workstation.TickState | src/winytils/workstation.py:31-36 | a stopped detector is untouched; otherwise `_frozen` becomes true iff it was or `now - threshold > last_time`, and `last_time` becomes `now` |
| Workstation.TicksFrozenIffGap | src/winytils/workstation.py:28-36 | after any run of iterations the detector is frozen iff it was, or some iteration saw a gap above the threshold; `last_time` is the last time seen |
| Workstation.StoppedTicksChangeNothing | src/winytils/workstation.py:32-33 | once stop is requested, no iteration changes the detector |
| Workstation.ReadFrozen | src/winytils/workstation.py:19-22 | `was_frozen` returns the flag and leaves it cleared |
| Workstation.ReadFrozenConsumes | src/winytils/workstation.py:19-22 | a second read with no iteration between answers false; several freezes before a read give a single true |
| Workstation.FreezeDetector.constructor | src/winytils/workstation.py:11-17 | starts neither frozen nor stopped; `run` reads its first `last_time` at the start time |
| Workstation.FreezeDetector.WasFrozen | src/winytils/workstation.py:19-22 | returns the flag and clears it; nothing else changes |
| Workstation.FreezeDetector.Stop | src/winytils/workstation.py:24-25 | sets the stop flag; nothing else changes |
| Workstation.FreezeDetector.Tick | src/winytils/workstation.py:30-36 | one loop iteration: returns false iff stop was requested; the new state is the tick of the old |
| Workstation.FreezeDetector.Run | src/winytils/workstation.py:28-36 | the detector after `run` is the fold of its iterations over the times seen, ending at the first stopped iteration |
| Workstation.RenderRoundTrip | src/winytils/workstation.py:50-73 | every `shutdown` command line reads back as the command it was built from, so different commands give different lines |
| Workstation.DelayedLine | src/winytils/workstation.py:54-55 | a `shutdown /<switch> /t <delay>` line reads back as that action, not forced, waiting `delay` seconds, for every integer delay, negative ones included |
| Workstation.Shutdown | src/winytils/workstation.py:50-58 | the exact command line rendered from the meant command: force gives `/s /f /t 0` whatever the delay; otherwise a truthy delay gives `/s /t <delay>`; otherwise the bare `/s`; the line parses back to that command |
| Workstation.Restart | src/winytils/workstation.py:60-67 | the same three-way choice with `/r`, also as the exact rendered line that parses back |
| Workstation.HibernateCommand | src/winytils/workstation.py:69-70 | exactly the rendered hibernate command, with no force and no timeout, which parses back |
| Workstation.LogoffCommand | src/winytils/workstation.py:72-73 | exactly the rendered log-off command, with no force and no timeout, which parses back |
| Workstation.PowerCommandsDiffer | src/winytils/workstation.py:50-73 | no two operations issue the same line; with `force` the delay is ignored; a falsy delay is the same as none |
| Windows.FilteredByOutcome | src/winytils/windows.py:271-285 | `ValueError` iff no criterion is truthy; success iff also no reached lookup raises; a lookup error names the first window whose lookup is reached and raises |
| Windows.FilteredByMeaning | src/winytils/windows.py:271-285 | on success, the result is an order-preserving subsequence of exactly the windows matching every non-`None` criterion |
| Windows.FilterWindowsBy | src/winytils/windows.py:271-285 | the loop computes the reference definition: criteria checked as title, exe, then class, with the process lookup reached only past the title check |
| Windows.ByFlagMeaning | src/winytils/windows.py:220-233 | a tri-state flag keeps everything when `None` and, when set, exactly the windows whose attribute equals it, in order |
| Windows.FilterWindows | src/winytils/windows.py:218-241 | without a custom filter, the result is an order-preserving subsequence of `get_all()`; a window is in it iff it passes the three flags and, when some criterion is truthy, every non-`None` criterion; only a process lookup can fail, and without a truthy criterion nothing fails |
| Windows.EmptyTitleWithExeKeepsUntitled | src/winytils/windows.py:235-236 | `by_title=""` with a truthy `by_exe` keeps only the untitled windows of that process |
| Windows.ShellFilteredOutcome | src/winytils/windows.py:288-299 | `windows_filter` succeeds iff every process lookup does |
| Windows.ShellFilteredMeaning | src/winytils/windows.py:288-299 | on success, `windows_filter` drops exactly the shell's windows whose class is not a File Explorer class, keeping order |
| Windows.WindowsFilter | src/winytils/windows.py:288-299 | the loop computes that reference definition; the first failing lookup propagates |
| Windows.FullscreenStyle | src/winytils/windows.py:345-347 | caption and thick-frame bits cleared, every other bit kept |
| Windows.OverrideRedirectExStyle | src/winytils/windows.py:358-362 | app-window bit cleared, tool-window bit set, every other bit kept |
| Windows.TransparencyExStyleWrite | src/winytils/windows.py:379-384 | a style is written iff the layered bit is absent, and then only that bit is added |
| Windows.FullscreenIdempotent | src/winytils/windows.py:345-347 | making a window fullscreen twice gives the same style as once |
| Windows.OverrideRedirectIdempotent | src/winytils/windows.py:358-362 | applying the override-redirect change twice gives the same extended style as once |
| Windows.TransparencyIdempotent | src/winytils/windows.py:379-384 | a second `set_window_transparency` writes nothing |
| GuiWin.CopiesRepeat | src/winytils/guiwin.py:279-291 | a window matching k criteria is appended k times |
| GuiWin.CopiesConsecutive | src/winytils/guiwin.py:279-293 | a window's copies are consecutive, between those of the windows before and after it |
| GuiWin.OrFilteredMembership | src/winytils/guiwin.py:279-293 | a window is in the result iff it is in the input and matches at least one truthy criterion (OR semantics) |
| GuiWin.FailedLookupSkipsOnlyExe | src/winytils/guiwin.py:281-291 | when the process lookup raises, only the exe check is skipped; title and class are still checked |
| GuiWin.AsWrittenExeNeverMatches | src/winytils/guiwin.py:46-47 | with `get_process` as written the exe criterion never matches, and an exe-only filter gives an empty list |
| GuiWin.FilterWindowsBy | src/winytils/guiwin.py:275-293 | `ValueError` iff no criterion is truthy; otherwise one append per matching criterion, in the order exe, title, class, window by window |
| GuiWin.AsWrittenNonExplorerIsEmpty | src/winytils/guiwin.py:46-47 | with `get_process` as written, `filter_non_explorer_windows` drops every window |
| GuiWin.FilterNonExplorerWindows | src/winytils/guiwin.py:296-312 | keeps, in order, exactly the windows whose lookup succeeds and that are not shell windows outside File Explorer; failing lookups are dropped silently |
| GuiWin.TitleMatchesMeaning | src/winytils/guiwin.py:228-231 | with `includes`, a window is selected iff its lower-cased title contains the lower-cased search title (the exact branch adds nothing); without it, iff the titles are equal |
| GuiWin.GetWindowsByTitle | src/winytils/guiwin.py:225-232 | the matching windows, each at most once, in z-order |
| GuiWin.GetWindowByPid | src/winytils/guiwin.py:235-238 | `None` iff no window has the pid; otherwise the first window in z-order that has it |
| GuiWin.ProcessNameAsWritten | src/winytils/guiwin.py:46-47 | as written, `get_process` reads the unset `_process_id`, so no process name is ever obtained |
| GuiWin.ProcessName | src/winytils/guiwin.py:42-47 | with the intended process id, the name is obtained exactly when the window's process lookup succeeds, and it is that process's name |
| GuiWin.AsWrittenByExeIsEmpty | src/winytils/guiwin.py:46-47 | with `get_process` as written, `get_windows_by_exe_name` finds nothing |
| GuiWin.GetWindowsByExeName | src/winytils/guiwin.py:241-249 | exactly the windows whose process name is the given one, in order; failing lookups are skipped |
| GuiWin.GetWindowsByClassName | src/winytils/guiwin.py:252-257 | exactly the windows of that class, in order |
| GuiWin.IsTrulyVisible | src/winytils/guiwin.py:123-140 | true iff visible, of positive width and height, and with right and bottom not negative |
| GuiWin.TrulyVisibleReachesScreen | src/winytils/guiwin.py:136-138 | a visible window of positive size passes iff its closed rectangle reaches a point with non-negative coordinates |
| GuiWin.Exists | src/winytils/guiwin.py:29-33 | as written: true iff the handle is not a window |
| GuiWin.ExistsCorrected | src/winytils/guiwin.py:29-33 | the intended check: true iff the handle is a window |
| GuiWin.AsWrittenOpenedGuiDropsLiveWindows | src/winytils/guiwin.py:260-272 | with `exists` as written, every kept window is dead, so over live windows the result is empty |
| GuiWin.GetWindowsWithOpenedGui | src/winytils/guiwin.py:260-272 | with the intended `exists`: in order, exactly the live, not minimized, truly visible, titled windows |

`guiwin.py`'s `Window.set_window_fullscreen`, `set_window_overrideredirect` and
`set_window_transparency` (lines 145-189) compute the same style expressions as
the functions of `windows.py` (lines 339-387). The `Windows` style functions
model both.

## Left out

- Window-class registration, `CreateWindow`, `WTSRegisterSessionNotification`, `PumpMessages`, `PostQuitMessage`/`PostMessage`, `DefWindowProc` and `DestroyWindow`: OS message-pump plumbing. Only the decision the window procedures make is modelled, as an outcome value.
- Threads: `threading.Thread` start/join, `daemon`, `_t_lock` and `pythoncom.CoInitialize`. State changes are modelled as sequential method calls. The polling loops read the scanner's flags from another thread, which the model takes as a sequence of samples.
- What the scanner's flags or a stop predicate will show at a given time is decided by other threads. The model takes these as input sequences (`Sample`, `Poll`); the time `FreezeDetector.run` sees is likewise an input.
- `time.sleep`: no effect on state.
- Clock readings: the wall-clock floats `time.time()` are integers supplied by the caller, one per iteration.
- Exceptions raised by a user callback or handler: these would end a polling loop or a dispatch early, and are not modelled.
- Teardown after `WM_CLOSE`: the listener's state afterwards is not modelled.
- `FreezeDetector` with `autostart=False`: not modelled. The detector is taken to be running from its construction.
- `Workstation.__init__`, `is_locked` and `was_frozen` only delegate to `WorkstationState` and `FreezeDetector`, which are modelled. `Workstation.lock` calls `LockWorkStation`, which is left out.
- `os.system`: only the command string chosen is modelled.
- `custom_filter` in `Windows.filter`: an arbitrary caller function.
- The win32gui/psutil accessors: title, class, pid, placement, visibility, `IsIconic`, `GetWindowRect`, process name. They are fields of the window record, read once per filter.
- `get_all()`/`get_all_windows()` enumeration: its list is a parameter.
- The `verify_timeout` loops of `minimize`/`maximize`/`restore`/`close`/`kill`, `is_uwp_loaded`, `uwp_child`/`get_uwp_window`, `minimize_uwp`, `set_window_topmost`: timing loops and calls over live OS state.
- GuiWin.GetWindowsWithOpenedGui: the module-level function takes a stray `self` parameter, so a call with no argument raises `TypeError`. The model drops that parameter and does not model the error.
- MachineStateWatcher.MachineStateScanner.OnLock, MachineStateWatcher.MachineStateScanner.OnUnlock, PcState.MachineStateScanner.OnLock, PcState.MachineStateScanner.OnUnlock: when the function is `None`, the arguments stored with it are not kept, because `handler` never reads them.
- GuiWin.Lower: lower-cases ASCII letters only, because Unicode case mapping is not modelled.
- Windows.FullscreenStyle, Windows.OverrideRedirectExStyle, Windows.TransparencyExStyleWrite: GWL style values are `bv32`. Python applies `~` and `&` to signed integers; this agrees with the 32-bit result for the values `GetWindowLong` returns.
- `src/winytils/utils.py` icon extraction, `Window.icon`/`icon_base64`/`get_icon`: ctypes, GDI and Pillow calls. utils.py is not part of this model.
- `src/winytils/privileges.py`, `src/winytils/windowshello.py`, `get_system_boot_time` and `_get_const`: UAC, WinRT, psutil and reflection over win32con.
- The `_handler`/`handler`/`on_lock`/`on_unlock` demo functions are `print` calls and are not modelled. The same goes for `_example_1`/`_example_2`/`example0`/`example1` and the `__main__` blocks, apart from `example2`'s loop. `tests/test.py` is not part of this model.
- A stop during `example2` comes from a keyboard interrupt, and so do the `stop()` that follows it and the race with `run` assigning `wm`. These are not modelled; `PcState.Example2` models the loop over the samples it takes.

## Findings

| source | as written | input that shows it | evidently intended | confidence | as-written member | corrected member |
|---|---|---|---|---|---|---|
| src/winytils/guiwin.py:296-312 | `filter_non_explorer_windows` calls `get_process()`, which reads `self._process_id`. guiwin's `Window` never defines that attribute, so every call raises `AttributeError`, and the bare `except` swallows it. | any non-empty list, e.g. a single Notepad window: the result is `[]` | `get_process` uses `self.get_process_id()`, so only non-File-Explorer shell windows and dead processes are dropped | not executed | GuiWin.AsWrittenNonExplorerIsEmpty | GuiWin.FilterNonExplorerWindows |
| src/winytils/guiwin.py:241-249 | `get_windows_by_exe_name` goes through the same `get_process()`, so every window is skipped | `get_windows_by_exe_name("explorer.exe")` on a desktop with the taskbar: `[]` | the windows whose process has that name | not executed | GuiWin.AsWrittenByExeIsEmpty | GuiWin.GetWindowsByExeName |
| src/winytils/guiwin.py:281-285 | in `filter_windows_by` the exe check goes through the same `get_process()`, so the exe criterion never matches | `filter_windows_by(ws, exe_name="explorer.exe")` returns `[]` for every `ws` | one copy per window of that process | not executed | GuiWin.AsWrittenExeNeverMatches | GuiWin.FilterWindowsBy |
| src/winytils/guiwin.py:29-33 | `exists` returns `not IsWindow(hwnd)`, the body of `is_closed` in windows.py; `get_windows_with_opened_gui` skips each window for which it is false | any enumerated window, e.g. a visible titled Notepad window: it is skipped, and the result over live windows is `[]` | `exists` returns `IsWindow(hwnd)` | not executed | GuiWin.AsWrittenOpenedGuiDropsLiveWindows | GuiWin.GetWindowsWithOpenedGui |
