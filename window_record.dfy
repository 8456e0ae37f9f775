/** A top-level window as the win32gui and psutil accessors of windows.py and
    guiwin.py see it at one instant. */
module WindowRecord {
  import opened Wrappers

  /** `GetWindowRect`: right and bottom are exclusive. */
  datatype Rect = Rect(left: int, top: int, right: int, bottom: int)

  /** `processName` is `None` when asking psutil for the process's name raises
      (the process is gone or access is denied). */
  datatype Window = Window(
    hwnd: int,
    isWindow: bool,
    visible: bool,
    minimized: bool,
    title: string,
    className: string,
    pid: int,
    processName: Option<string>,
    rect: Rect)

  /** Why a filter ends with an exception instead of a list. */
  datatype FilterError =
    | MissingCriterion            // ValueError: no title, exe or class criterion given
    | ProcessLookupFailed(hwnd: int)  // psutil raised for this window's process

  /** Python truthiness of an optional string criterion. */
  predicate Truthy(s: Option<string>)
  {
    s.Some? && s.value != ""
  }

  /** The class names of File Explorer's own windows. */
  const FileExplorerClasses: seq<string> := ["CabinetWClass", "ExplorerWClass"]

  /** A window of the shell process that is not a File Explorer window. */
  predicate IsShellWindow(name: string, className: string)
  {
    name == "explorer.exe" && className !in FileExplorerClasses
  }
}
