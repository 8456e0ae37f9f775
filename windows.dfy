/** src/winytils/windows.py: `Windows.filter` with AND semantics, its
    `_filter_windows_by` step, `windows_filter`, and the style-bit arithmetic of
    the `set_window_*` helpers. Exceptions raised by psutil propagate. */
module Windows {
  import opened Wrappers
  import opened Seqs
  import opened Win32
  import opened WindowRecord

  // ---------------------------------------------------------------------------
  // `_filter_windows_by`

  /** The title check: a criterion that is not `None` must equal the title. */
  predicate TitleOk(w: Window, title: Option<string>)
  {
    title.None? || w.title == title.value
  }

  predicate ClassOk(w: Window, className: Option<string>)
  {
    className.None? || w.className == className.value
  }

  /** The window's process lookup is reached (its title passed and an exe
      criterion is given) and raises. */
  predicate LookupRaises(w: Window, title: Option<string>, exe: Option<string>)
  {
    TitleOk(w, title) && exe.Some? && w.processName.None?
  }

  /** Every criterion that is not `None` equals the window's attribute. */
  predicate MatchesAll(w: Window, title: Option<string>, exe: Option<string>, className: Option<string>)
  {
    TitleOk(w, title) && (exe.None? || w.processName == Some(exe.value)) && ClassOk(w, className)
  }

  /** The windows that match every given criterion, in order. */
  function Matching(ws: seq<Window>, title: Option<string>, exe: Option<string>, className: Option<string>)
    : seq<Window>
  {
    Filter((w: Window) => MatchesAll(w, title, exe, className), ws)
  }

  lemma MatchingAppend(ws: seq<Window>, w: Window, title: Option<string>, exe: Option<string>,
                       className: Option<string>)
    ensures Matching(ws + [w], title, exe, className)
            == Matching(ws, title, exe, className) + if MatchesAll(w, title, exe, className) then [w] else []
  {
    FilterAppend((w: Window) => MatchesAll(w, title, exe, className), ws, w);
  }

  /** Reference definition of `_filter_windows_by`: a `ValueError` without a
      truthy criterion, the first failing process lookup, or the windows that
      match every given criterion, in order. */
  function FilteredBy(ws: seq<Window>, title: Option<string>, exe: Option<string>, className: Option<string>)
    : Result<seq<Window>, FilterError>
  {
    if !(Truthy(title) || Truthy(exe) || Truthy(className)) then Failure(MissingCriterion)
    else match FirstIndex((w: Window) => LookupRaises(w, title, exe), ws)
      case Some(i) => Failure(ProcessLookupFailed(ws[i].hwnd))
      case None => Success(Matching(ws, title, exe, className))
  }

  /** When `FilteredBy` fails: a missing criterion exactly when none is truthy;
      otherwise success exactly when no lookup that is reached raises, and a
      lookup error names the first window whose lookup raises. */
  lemma FilteredByOutcome(ws: seq<Window>, title: Option<string>, exe: Option<string>, className: Option<string>)
    ensures var r := FilteredBy(ws, title, exe, className);
            (r == Failure(MissingCriterion) <==> !(Truthy(title) || Truthy(exe) || Truthy(className)))
            && (r.Success? <==> (Truthy(title) || Truthy(exe) || Truthy(className))
                                && forall i :: 0 <= i < |ws| ==> !LookupRaises(ws[i], title, exe))
            && (r.Failure? && r.error.ProcessLookupFailed? ==>
                 exists i :: 0 <= i < |ws| && ws[i].hwnd == r.error.hwnd && LookupRaises(ws[i], title, exe)
                             && forall j :: 0 <= j < i ==> !LookupRaises(ws[j], title, exe))
  {
    var r := FilteredBy(ws, title, exe, className);
    if r.Failure? && r.error.ProcessLookupFailed? {
      var i := FirstIndex((w: Window) => LookupRaises(w, title, exe), ws).value;
      assert ws[i].hwnd == r.error.hwnd && LookupRaises(ws[i], title, exe);
    }
  }

  /** What a successful `FilteredBy` holds: an order-preserving subsequence of
      exactly the windows that match all given criteria. */
  lemma FilteredByMeaning(ws: seq<Window>, title: Option<string>, exe: Option<string>, className: Option<string>)
    ensures var r := FilteredBy(ws, title, exe, className);
            r.Success? ==> IsSubsequence(r.value, ws)
                           && forall w :: w in r.value <==> w in ws && MatchesAll(w, title, exe, className)
  {
    FilterIsSubsequence((w: Window) => MatchesAll(w, title, exe, className), ws);
  }

  /** `Windows._filter_windows_by`. */
  method FilterWindowsBy(ws: seq<Window>, title: Option<string>, exe: Option<string>, className: Option<string>)
    returns (r: Result<seq<Window>, FilterError>)
    ensures r == FilteredBy(ws, title, exe, className)
  {
    if !(Truthy(title) || Truthy(exe) || Truthy(className)) {
      return Failure(MissingCriterion);
    }
    var found := [];
    for i := 0 to |ws|
      invariant forall j :: 0 <= j < i ==> !LookupRaises(ws[j], title, exe)
      invariant found == Matching(ws[..i], title, exe, className)
    {
      var w := ws[i];
      assert ws[..i + 1] == ws[..i] + [w];
      MatchingAppend(ws[..i], w, title, exe, className);
      if title.Some? && w.title != title.value {
        continue;
      }
      if exe.Some? {
        if w.processName.None? {
          FirstIndexAt((w: Window) => LookupRaises(w, title, exe), ws, i);
          return Failure(ProcessLookupFailed(w.hwnd));
        }
        if w.processName.value != exe.value {
          continue;
        }
      }
      if className.Some? && w.className != className.value {
        continue;
      }
      found := found + [w];
    }
    assert ws[..|ws|] == ws;
    return Success(found);
  }

  // ---------------------------------------------------------------------------
  // `Windows.filter`

  /** A tri-state flag: `None` keeps everything, `Some(b)` keeps the windows
      whose attribute is `b`. */
  predicate FlagOk(flag: Option<bool>, attribute: bool)
  {
    flag.None? || attribute == flag.value
  }

  function ByFlag(ws: seq<Window>, flag: Option<bool>, attribute: Window -> bool): seq<Window>
  {
    if flag.None? then ws else Filter((w: Window) => attribute(w) == flag.value, ws)
  }

  predicate IsVisible(w: Window) { w.visible }
  predicate IsOpened(w: Window) { !w.minimized }
  predicate HasTitle(w: Window) { w.title != "" }

  /** The window state flags `has_gui`, `opened` and `has_title` all hold. */
  predicate FlagsOk(w: Window, hasGui: Option<bool>, isOpened: Option<bool>, hasTitle: Option<bool>)
  {
    FlagOk(hasGui, IsVisible(w)) && FlagOk(isOpened, IsOpened(w)) && FlagOk(hasTitle, HasTitle(w))
  }

  lemma ByFlagMeaning(ws: seq<Window>, flag: Option<bool>, attribute: Window -> bool)
    ensures IsSubsequence(ByFlag(ws, flag, attribute), ws)
    ensures forall w :: w in ByFlag(ws, flag, attribute) <==> w in ws && FlagOk(flag, attribute(w))
  {
    if flag.None? {
      SubsequenceReflexive(ws);
    } else {
      FilterIsSubsequence((w: Window) => attribute(w) == flag.value, ws);
    }
  }

  /** `Windows.filter` without `custom_filter`, over `get_all()`'s list `all`
      (topmost first). */
  function FilterWindows(all: seq<Window>, hasGui: Option<bool>, isOpened: Option<bool>, hasTitle: Option<bool>,
                         byTitle: Option<string>, byExe: Option<string>, byClassName: Option<string>)
    : (r: Result<seq<Window>, FilterError>)
    ensures r.Success? ==> IsSubsequence(r.value, all)
    ensures r.Success? ==>
              forall w :: w in r.value <==>
                w in all && FlagsOk(w, hasGui, isOpened, hasTitle)
                && ((Truthy(byTitle) || Truthy(byExe) || Truthy(byClassName)) ==> MatchesAll(w, byTitle, byExe, byClassName))
    ensures r.Failure? ==> r.error.ProcessLookupFailed?
    ensures !(Truthy(byTitle) || Truthy(byExe) || Truthy(byClassName)) ==> r.Success?
  {
    var w1 := ByFlag(all, hasGui, IsVisible);
    var w2 := ByFlag(w1, isOpened, IsOpened);
    var w3 := ByFlag(w2, hasTitle, HasTitle);
    ByFlagMeaning(all, hasGui, IsVisible);
    ByFlagMeaning(w1, isOpened, IsOpened);
    ByFlagMeaning(w2, hasTitle, HasTitle);
    SubsequenceTransitive(w2, w1, all);
    SubsequenceTransitive(w3, w2, all);
    if Truthy(byTitle) || Truthy(byExe) || Truthy(byClassName) then
      FilteredByOutcome(w3, byTitle, byExe, byClassName);
      FilteredByMeaning(w3, byTitle, byExe, byClassName);
      var r := FilteredBy(w3, byTitle, byExe, byClassName);
      if r.Success? then
        SubsequenceTransitive(r.value, w3, all);
        r
      else r
    else Success(w3)
  }

  /** An empty title passed with a truthy exe is still compared: only untitled
      windows of that process are kept. */
  lemma EmptyTitleWithExeKeepsUntitled(all: seq<Window>, exe: string)
    requires exe != ""
    requires forall i :: 0 <= i < |all| ==> all[i].processName.Some?
    ensures FilterWindows(all, None, None, None, Some(""), Some(exe), None).Success?
    ensures forall w :: w in FilterWindows(all, None, None, None, Some(""), Some(exe), None).value <==>
              w in all && w.title == "" && w.processName == Some(exe)
  {
    FilteredByOutcome(all, Some(""), Some(exe), None);
    FilteredByMeaning(all, Some(""), Some(exe), None);
  }

  // ---------------------------------------------------------------------------
  // `windows_filter`

  predicate LookupFails(w: Window)
  {
    w.processName.None?
  }

  /** `windows_filter` keeps the window: it is not a shell window. */
  predicate KeptByShellFilter(w: Window)
  {
    !(w.processName.Some? && IsShellWindow(w.processName.value, w.className))
  }

  /** Reference definition of `windows_filter`: the first window whose process
      lookup raises, or every window but the shell's non-File-Explorer ones. */
  function ShellFiltered(ws: seq<Window>): Result<seq<Window>, FilterError>
  {
    match FirstIndex(LookupFails, ws)
    case Some(i) => Failure(ProcessLookupFailed(ws[i].hwnd))
    case None => Success(Filter(KeptByShellFilter, ws))
  }

  /** `windows_filter` succeeds exactly when every process lookup does. */
  lemma ShellFilteredOutcome(ws: seq<Window>)
    ensures ShellFiltered(ws).Success? <==> forall i :: 0 <= i < |ws| ==> ws[i].processName.Some?
  {
    if FirstIndex(LookupFails, ws).None? {
      assert forall i :: 0 <= i < |ws| ==> !LookupFails(ws[i]);
    }
  }

  /** Without a failing lookup, `windows_filter` drops exactly the shell's
      windows whose class is not a File Explorer class, keeping order. */
  lemma ShellFilteredMeaning(ws: seq<Window>)
    ensures ShellFiltered(ws).Success? ==>
              IsSubsequence(ShellFiltered(ws).value, ws)
              && forall w :: w in ShellFiltered(ws).value <==>
                   w in ws && !(w.processName == Some("explorer.exe") && w.className !in FileExplorerClasses)
  {
    FilterIsSubsequence(KeptByShellFilter, ws);
  }

  /** `windows_filter`. */
  method WindowsFilter(ws: seq<Window>) returns (r: Result<seq<Window>, FilterError>)
    ensures r == ShellFiltered(ws)
  {
    var kept := [];
    for i := 0 to |ws|
      invariant forall j :: 0 <= j < i ==> ws[j].processName.Some?
      invariant kept == Filter(KeptByShellFilter, ws[..i])
    {
      var w := ws[i];
      if w.processName.None? {
        FirstIndexAt(LookupFails, ws, i);
        return Failure(ProcessLookupFailed(w.hwnd));
      }
      assert ws[..i + 1] == ws[..i] + [w];
      FilterAppend(KeptByShellFilter, ws[..i], w);
      assert Filter(KeptByShellFilter, ws[..i + 1]) == kept + if KeptByShellFilter(w) then [w] else [];
      if w.processName.value == "explorer.exe" && w.className !in ["CabinetWClass", "ExplorerWClass"] {
        continue;
      }
      kept := kept + [w];
    }
    assert ws[..|ws|] == ws;
    return Success(kept);
  }

  // ---------------------------------------------------------------------------
  // Style bits

  /** `set_window_fullscreen`'s new `GWL_STYLE`: caption and thick frame cleared,
      every other bit kept. */
  function FullscreenStyle(style: bv32): (r: bv32)
    ensures r & (WS_CAPTION | WS_THICKFRAME) == 0
    ensures r | (WS_CAPTION | WS_THICKFRAME) == style | (WS_CAPTION | WS_THICKFRAME)
  {
    style & !WS_CAPTION & !WS_THICKFRAME
  }

  /** `set_window_overrideredirect`'s new `GWL_EXSTYLE`: no app-window bit, the
      tool-window bit set, every other bit kept. */
  function OverrideRedirectExStyle(exStyle: bv32): (r: bv32)
    ensures r & WS_EX_APPWINDOW == 0
    ensures r & WS_EX_TOOLWINDOW == WS_EX_TOOLWINDOW
    ensures r & !(WS_EX_APPWINDOW | WS_EX_TOOLWINDOW) == exStyle & !(WS_EX_APPWINDOW | WS_EX_TOOLWINDOW)
  {
    (exStyle & !WS_EX_APPWINDOW) | WS_EX_TOOLWINDOW
  }

  /** The `GWL_EXSTYLE` value `set_window_transparency` writes, if it writes one:
      only when the layered bit is absent, and then only that bit is added. */
  function TransparencyExStyleWrite(exStyle: bv32): (r: Option<bv32>)
    ensures r.None? <==> exStyle & WS_EX_LAYERED != 0
    ensures r.Some? ==> r.value & WS_EX_LAYERED != 0 && r.value & !WS_EX_LAYERED == exStyle & !WS_EX_LAYERED
  {
    if exStyle & WS_EX_LAYERED == 0 then Some(exStyle | WS_EX_LAYERED) else None
  }

  /** The style after `set_window_transparency`. */
  function AfterTransparency(exStyle: bv32): bv32
  {
    match TransparencyExStyleWrite(exStyle)
    case None => exStyle
    case Some(v) => v
  }

  /** Each style change is idempotent: applied twice it gives the same bits, and
      a second `set_window_transparency` writes nothing. */
  lemma FullscreenIdempotent(style: bv32)
    ensures FullscreenStyle(FullscreenStyle(style)) == FullscreenStyle(style)
  {
  }

  lemma OverrideRedirectIdempotent(style: bv32)
    ensures OverrideRedirectExStyle(OverrideRedirectExStyle(style)) == OverrideRedirectExStyle(style)
  {
  }

  lemma TransparencyIdempotent(style: bv32)
    ensures TransparencyExStyleWrite(AfterTransparency(style)).None?
  {
  }
}
