/** src/winytils/guiwin.py: the OR-semantics window filter, the lookups by title,
    pid, process name and class, and the visibility and existence checks of
    `Window`. Bare `except` clauses swallow failing process lookups. */
module GuiWin {
  import opened Wrappers
  import opened Seqs
  import opened WindowRecord

  // ---------------------------------------------------------------------------
  // Process lookup

  /** `window.get_process().name()` as written: `get_process` reads
      `self._process_id`, which this `Window` class never defines, so every call
      raises `AttributeError`. */
  function ProcessNameAsWritten(w: Window): (r: Option<string>)
    ensures r.None?
  {
    None
  }

  /** The lookup evidently intended (through `get_process_id()`): it fails only
      when psutil does. */
  function ProcessName(w: Window): (r: Option<string>)
    ensures r.None? <==> w.processName.None?
    ensures r.Some? ==> r.value == w.processName.value
  {
    w.processName
  }

  // ---------------------------------------------------------------------------
  // `filter_windows_by`

  predicate ExeHit(w: Window, exe: Option<string>, name: Window -> Option<string>)
  {
    Truthy(exe) && name(w) == Some(exe.value)
  }

  predicate TitleHit(w: Window, title: Option<string>)
  {
    Truthy(title) && w.title == title.value
  }

  predicate ClassHit(w: Window, className: Option<string>)
  {
    Truthy(className) && w.className == className.value
  }

  /** How many of the three criteria the window matches. */
  function MatchCount(w: Window, title: Option<string>, exe: Option<string>, className: Option<string>,
                      name: Window -> Option<string>): nat
  {
    (if ExeHit(w, exe, name) then 1 else 0) + (if TitleHit(w, title) then 1 else 0)
    + (if ClassHit(w, className) then 1 else 0)
  }

  /** The appends one window causes: exe, then title, then class. */
  function Copies(w: Window, title: Option<string>, exe: Option<string>, className: Option<string>,
                  name: Window -> Option<string>): seq<Window>
  {
    (if ExeHit(w, exe, name) then [w] else []) + (if TitleHit(w, title) then [w] else [])
    + (if ClassHit(w, className) then [w] else [])
  }

  /** Every window's appends, in list order. */
  function OrFiltered(ws: seq<Window>, title: Option<string>, exe: Option<string>, className: Option<string>,
                      name: Window -> Option<string>): seq<Window>
    decreases |ws|
  {
    if ws == [] then []
    else OrFiltered(ws[..|ws| - 1], title, exe, className, name) + Copies(ws[|ws| - 1], title, exe, className, name)
  }

  /** A window matching k criteria contributes k copies of itself. */
  lemma CopiesRepeat(w: Window, title: Option<string>, exe: Option<string>, className: Option<string>,
                     name: Window -> Option<string>)
    ensures |Copies(w, title, exe, className, name)| == MatchCount(w, title, exe, className, name)
    ensures forall i :: 0 <= i < |Copies(w, title, exe, className, name)| ==> Copies(w, title, exe, className, name)[i] == w
  {
  }

  lemma {:induction false} OrFilteredAppend(a: seq<Window>, b: seq<Window>, title: Option<string>, exe: Option<string>,
                                            className: Option<string>, name: Window -> Option<string>)
    ensures OrFiltered(a + b, title, exe, className, name)
            == OrFiltered(a, title, exe, className, name) + OrFiltered(b, title, exe, className, name)
    decreases |b|
  {
    if b == [] {
      assert a + b == a;
    } else {
      var init, last := b[..|b| - 1], b[|b| - 1];
      var ab := a + b;
      assert ab[..|ab| - 1] == a + init && ab[|ab| - 1] == last;
      OrFilteredAppend(a, init, title, exe, className, name);
      var c := Copies(last, title, exe, className, name);
      var fa, fi := OrFiltered(a, title, exe, className, name), OrFiltered(init, title, exe, className, name);
      assert OrFiltered(ab, title, exe, className, name) == fa + fi + c;
      assert OrFiltered(b, title, exe, className, name) == fi + c;
      AppendAssoc(fa, fi, c);
    }
  }

  /** A window's copies sit together, between those of the windows before and
      after it. */
  lemma CopiesConsecutive(before: seq<Window>, w: Window, after: seq<Window>, title: Option<string>,
                          exe: Option<string>, className: Option<string>, name: Window -> Option<string>)
    ensures OrFiltered(before + [w] + after, title, exe, className, name)
            == OrFiltered(before, title, exe, className, name) + Copies(w, title, exe, className, name)
               + OrFiltered(after, title, exe, className, name)
  {
    OrFilteredAppend(before + [w], after, title, exe, className, name);
    assert (before + [w])[..|before + [w]| - 1] == before;
  }

  /** A window is in the result iff it matches at least one criterion. */
  lemma {:induction false} OrFilteredMembership(ws: seq<Window>, title: Option<string>, exe: Option<string>,
                                                className: Option<string>, name: Window -> Option<string>, x: Window)
    ensures x in OrFiltered(ws, title, exe, className, name) <==> x in ws && MatchCount(x, title, exe, className, name) > 0
    decreases |ws|
  {
    if ws != [] {
      var init := ws[..|ws| - 1];
      var last := ws[|ws| - 1];
      OrFilteredMembership(init, title, exe, className, name, x);
      CopiesRepeat(last, title, exe, className, name);
      assert ws == init + [last];
      if x in Copies(last, title, exe, className, name) {
        assert x == last;
      }
    }
  }

  /** A failing process lookup skips only the exe check. */
  lemma FailedLookupSkipsOnlyExe(w: Window, title: Option<string>, exe: Option<string>, className: Option<string>,
                                 name: Window -> Option<string>)
    requires name(w).None?
    ensures Copies(w, title, exe, className, name)
            == (if TitleHit(w, title) then [w] else []) + (if ClassHit(w, className) then [w] else [])
  {
  }

  /** With the lookup as written, the exe criterion never matches: `filter_windows_by`
      behaves as if it had not been given. */
  lemma {:induction false} AsWrittenExeNeverMatches(ws: seq<Window>, title: Option<string>, exe: Option<string>,
                                                    className: Option<string>)
    ensures OrFiltered(ws, title, exe, className, ProcessNameAsWritten)
            == OrFiltered(ws, title, None, className, ProcessNameAsWritten)
    ensures Truthy(exe) && !Truthy(title) && !Truthy(className) ==>
              OrFiltered(ws, title, exe, className, ProcessNameAsWritten) == []
    decreases |ws|
  {
    if ws != [] {
      AsWrittenExeNeverMatches(ws[..|ws| - 1], title, exe, className);
    }
  }

  /** `filter_windows_by`, with the intended process lookup. */
  method FilterWindowsBy(ws: seq<Window>, title: Option<string>, exe: Option<string>, className: Option<string>)
    returns (r: Result<seq<Window>, FilterError>)
    ensures r.Failure? <==> !(Truthy(title) || Truthy(exe) || Truthy(className))
    ensures r.Failure? ==> r.error == MissingCriterion
    ensures r.Success? ==> r.value == OrFiltered(ws, title, exe, className, ProcessName)
  {
    if !(Truthy(title) || Truthy(exe) || Truthy(className)) {
      return Failure(MissingCriterion);
    }
    var found := [];
    for i := 0 to |ws|
      invariant found == OrFiltered(ws[..i], title, exe, className, ProcessName)
    {
      var w := ws[i];
      assert ws[..i + 1][..i] == ws[..i];
      ghost var prev := found;
      if exe.Some? && exe.value != "" {
        match w.processName
        case None =>
        case Some(n) =>
          if n == exe.value {
            found := found + [w];
          }
      }
      ghost var afterExe := found;
      assert afterExe == prev + (if ExeHit(w, exe, ProcessName) then [w] else []);
      if title.Some? && title.value != "" && w.title == title.value {
        found := found + [w];
      }
      ghost var afterTitle := found;
      assert afterTitle == afterExe + (if TitleHit(w, title) then [w] else []);
      if className.Some? && className.value != "" && w.className == className.value {
        found := found + [w];
      }
      assert found == afterTitle + (if ClassHit(w, className) then [w] else []);
      AppendThree(prev, if ExeHit(w, exe, ProcessName) then [w] else [], if TitleHit(w, title) then [w] else [],
                  if ClassHit(w, className) then [w] else []);
    }
    assert ws[..|ws|] == ws;
    return Success(found);
  }

  // ---------------------------------------------------------------------------
  // `filter_non_explorer_windows`

  /** The window survives: its lookup succeeds and it is not a shell window. */
  predicate NonExplorerKept(name: Window -> Option<string>, w: Window)
  {
    name(w).Some? && !IsShellWindow(name(w).value, w.className)
  }

  function NonExplorer(ws: seq<Window>, name: Window -> Option<string>): seq<Window>
  {
    Filter((w: Window) => NonExplorerKept(name, w), ws)
  }

  /** With the lookup as written, every window is dropped. */
  lemma {:induction false} AsWrittenNonExplorerIsEmpty(ws: seq<Window>)
    ensures NonExplorer(ws, ProcessNameAsWritten) == []
    decreases |ws|
  {
    if ws != [] {
      AsWrittenNonExplorerIsEmpty(ws[1..]);
    }
  }

  /** `filter_non_explorer_windows`, with the intended lookup: order kept, shell
      windows and windows whose lookup raises dropped. */
  method FilterNonExplorerWindows(ws: seq<Window>) returns (r: seq<Window>)
    ensures r == NonExplorer(ws, ProcessName)
    ensures IsSubsequence(r, ws)
    ensures forall w :: w in r <==> w in ws && w.processName.Some?
                                    && !(w.processName.value == "explorer.exe" && w.className !in FileExplorerClasses)
  {
    r := [];
    for i := 0 to |ws|
      invariant r == NonExplorer(ws[..i], ProcessName)
    {
      var w := ws[i];
      assert ws[..i + 1] == ws[..i] + [w];
      FilterAppend((w: Window) => NonExplorerKept(ProcessName, w), ws[..i], w);
      match ProcessName(w)
      case None =>
      case Some(n) =>
        if n == "explorer.exe" && w.className !in ["CabinetWClass", "ExplorerWClass"] {
          continue;
        }
        r := r + [w];
    }
    assert ws[..|ws|] == ws;
    FilterIsSubsequence((w: Window) => NonExplorerKept(ProcessName, w), ws);
  }

  // ---------------------------------------------------------------------------
  // Lookups over `get_all_windows()` (topmost first)

  function LowerChar(c: char): char
  {
    if 'A' <= c <= 'Z' then (c as int + 32) as char else c
  }

  /** `str.lower` on ASCII letters. */
  function Lower(s: string): (r: string)
    ensures |r| == |s|
    ensures forall i :: 0 <= i < |s| ==> r[i] == LowerChar(s[i])
  {
    seq(|s|, i requires 0 <= i < |s| => LowerChar(s[i]))
  }

  predicate OccursAt(needle: string, hay: string, i: int)
  {
    0 <= i && i + |needle| <= |hay| && hay[i..i + |needle|] == needle
  }

  /** Python's `needle in hay` on strings. */
  predicate Contains(hay: string, needle: string)
  {
    exists i :: 0 <= i <= |hay| - |needle| && OccursAt(needle, hay, i)
  }

  /** The condition under which `get_windows_by_title` appends the window. */
  predicate TitleMatches(w: Window, title: string, includes: bool)
  {
    (includes && Contains(Lower(w.title), Lower(title))) || w.title == title
  }

  /** With `includes`, the exact-match branch adds nothing: the title is
      selected iff it contains the searched title ignoring case; without it, iff
      it is equal. */
  lemma TitleMatchesMeaning(w: Window, title: string, includes: bool)
    ensures includes ==> (TitleMatches(w, title, includes) <==> Contains(Lower(w.title), Lower(title)))
    ensures !includes ==> (TitleMatches(w, title, includes) <==> w.title == title)
  {
    if includes && w.title == title {
      assert Lower(w.title)[0..|Lower(title)|] == Lower(title);
      assert OccursAt(Lower(title), Lower(w.title), 0);
    }
  }

  /** `get_windows_by_title`: each window at most once, in order. */
  method GetWindowsByTitle(all: seq<Window>, title: string, includes: bool) returns (r: seq<Window>)
    ensures r == Filter((w: Window) => TitleMatches(w, title, includes), all)
    ensures IsSubsequence(r, all)
  {
    r := [];
    var needle := Lower(title);
    for i := 0 to |all|
      invariant r == Filter((w: Window) => TitleMatches(w, title, includes), all[..i])
    {
      var w := all[i];
      assert all[..i + 1] == all[..i] + [w];
      FilterAppend((w: Window) => TitleMatches(w, title, includes), all[..i], w);
      if includes && Contains(Lower(w.title), needle) {
        r := r + [w];
      } else if w.title == title {
        r := r + [w];
      }
    }
    assert all[..|all|] == all;
    FilterIsSubsequence((w: Window) => TitleMatches(w, title, includes), all);
  }

  /** `get_window_by_pid`: the topmost window of that process, or `None`. */
  method GetWindowByPid(all: seq<Window>, pid: int) returns (r: Option<Window>)
    ensures r.None? <==> forall i :: 0 <= i < |all| ==> all[i].pid != pid
    ensures r.Some? ==> exists i :: 0 <= i < |all| && all[i] == r.value && r.value.pid == pid
                                    && forall j :: 0 <= j < i ==> all[j].pid != pid
  {
    for i := 0 to |all|
      invariant forall j :: 0 <= j < i ==> all[j].pid != pid
    {
      if all[i].pid == pid {
        return Some(all[i]);
      }
    }
    return None;
  }

  predicate ExeIs(name: Window -> Option<string>, exe: string, w: Window)
  {
    name(w) == Some(exe)
  }

  function ByExe(ws: seq<Window>, exe: string, name: Window -> Option<string>): seq<Window>
  {
    Filter((w: Window) => ExeIs(name, exe, w), ws)
  }

  /** With the lookup as written, no window is ever found by its process name. */
  lemma {:induction false} AsWrittenByExeIsEmpty(ws: seq<Window>, exe: string)
    ensures ByExe(ws, exe, ProcessNameAsWritten) == []
    decreases |ws|
  {
    if ws != [] {
      AsWrittenByExeIsEmpty(ws[1..], exe);
    }
  }

  /** `get_windows_by_exe_name`, with the intended lookup; windows whose lookup
      raises are skipped. */
  method GetWindowsByExeName(all: seq<Window>, exe: string) returns (r: seq<Window>)
    ensures r == ByExe(all, exe, ProcessName)
    ensures IsSubsequence(r, all)
    ensures forall w :: w in r <==> w in all && w.processName == Some(exe)
  {
    r := [];
    for i := 0 to |all|
      invariant r == ByExe(all[..i], exe, ProcessName)
    {
      var w := all[i];
      assert all[..i + 1] == all[..i] + [w];
      FilterAppend((w: Window) => ExeIs(ProcessName, exe, w), all[..i], w);
      match ProcessName(w)
      case None =>
      case Some(n) =>
        if n == exe {
          r := r + [w];
        }
    }
    assert all[..|all|] == all;
    FilterIsSubsequence((w: Window) => ExeIs(ProcessName, exe, w), all);
  }

  /** `get_windows_by_class_name`. */
  method GetWindowsByClassName(all: seq<Window>, className: string) returns (r: seq<Window>)
    ensures r == Filter((w: Window) => w.className == className, all)
    ensures IsSubsequence(r, all)
    ensures forall w :: w in r <==> w in all && w.className == className
  {
    r := [];
    for i := 0 to |all|
      invariant r == Filter((w: Window) => w.className == className, all[..i])
    {
      var w := all[i];
      assert all[..i + 1] == all[..i] + [w];
      FilterAppend((w: Window) => w.className == className, all[..i], w);
      if w.className == className {
        r := r + [w];
      }
    }
    assert all[..|all|] == all;
    FilterIsSubsequence((w: Window) => w.className == className, all);
  }

  // ---------------------------------------------------------------------------
  // `Window` checks

  /** `Window.is_truly_visible`. */
  function IsTrulyVisible(w: Window): (r: bool)
    ensures r <==> w.visible && w.rect.right - w.rect.left > 0 && w.rect.bottom - w.rect.top > 0
                   && w.rect.right >= 0 && w.rect.bottom >= 0
  {
    if !w.visible then false
    else
      var width := w.rect.right - w.rect.left;
      var height := w.rect.bottom - w.rect.top;
      if width <= 0 || height <= 0 then false
      else if w.rect.right < 0 || w.rect.bottom < 0 then false
      else true
  }

  predicate InClosedRect(r: Rect, x: int, y: int)
  {
    r.left <= x <= r.right && r.top <= y <= r.bottom
  }

  /** A visible window of positive size is truly visible iff its closed
      rectangle reaches the quadrant right of and below the screen origin. */
  lemma TrulyVisibleReachesScreen(w: Window)
    ensures IsTrulyVisible(w) <==>
              w.visible && w.rect.right > w.rect.left && w.rect.bottom > w.rect.top
              && exists x, y :: InClosedRect(w.rect, x, y) && x >= 0 && y >= 0
  {
    if w.visible && w.rect.right > w.rect.left && w.rect.bottom > w.rect.top
       && w.rect.right >= 0 && w.rect.bottom >= 0 {
      assert InClosedRect(w.rect, w.rect.right, w.rect.bottom);
    }
  }

  /** `Window.exists` as written: true iff the handle is NOT a window. */
  function Exists(w: Window): (r: bool)
    ensures r <==> !w.isWindow
  {
    if !w.isWindow then true else false
  }

  /** The check evidently intended: true iff the handle is a window. */
  function ExistsCorrected(w: Window): (r: bool)
    ensures r <==> w.isWindow
  {
    w.isWindow
  }

  /** The condition under which `get_windows_with_opened_gui` keeps a window. */
  predicate OpenedGui(existsCheck: Window -> bool, w: Window)
  {
    existsCheck(w) && !w.minimized && IsTrulyVisible(w) && w.title != ""
  }

  function WithOpenedGui(ws: seq<Window>, existsCheck: Window -> bool): seq<Window>
  {
    Filter((w: Window) => OpenedGui(existsCheck, w), ws)
  }

  /** As written, `get_windows_with_opened_gui` drops every live window, so over
      live windows it returns nothing. */
  lemma AsWrittenOpenedGuiDropsLiveWindows(ws: seq<Window>)
    ensures forall w :: w in WithOpenedGui(ws, Exists) ==> !w.isWindow
    ensures (forall i :: 0 <= i < |ws| ==> ws[i].isWindow) ==> WithOpenedGui(ws, Exists) == []
  {
    if forall i :: 0 <= i < |ws| ==> ws[i].isWindow {
      FilterNoneKept((w: Window) => OpenedGui(Exists, w), ws);
    }
  }

  /** `get_windows_with_opened_gui` with the intended `exists`; its unused
      parameter is dropped. */
  method GetWindowsWithOpenedGui(all: seq<Window>) returns (r: seq<Window>)
    ensures r == WithOpenedGui(all, ExistsCorrected)
    ensures IsSubsequence(r, all)
    ensures forall w :: w in r <==> w in all && w.isWindow && !w.minimized && IsTrulyVisible(w) && w.title != ""
  {
    r := [];
    for i := 0 to |all|
      invariant r == WithOpenedGui(all[..i], ExistsCorrected)
    {
      var w := all[i];
      assert all[..i + 1] == all[..i] + [w];
      FilterAppend((w: Window) => OpenedGui(ExistsCorrected, w), all[..i], w);
      if !ExistsCorrected(w) {
        continue;
      }
      if w.minimized {
        continue;
      }
      if !IsTrulyVisible(w) {
        continue;
      }
      if w.title == "" {
        continue;
      }
      r := r + [w];
    }
    assert all[..|all|] == all;
    FilterIsSubsequence((w: Window) => OpenedGui(ExistsCorrected, w), all);
  }
}
