/** The Win32 message, notification and style constants the core compares against. */
module Win32 {

  // Window messages.
  const WM_DESTROY: int := 0x0002
  const WM_CLOSE: int := 0x0010
  const WM_POWERBROADCAST: int := 0x0218
  const WM_DEVICECHANGE: int := 0x0219
  const WM_WTSSESSION_CHANGE: int := 0x02B1

  // `wparam` codes of the messages above.
  const WTS_SESSION_LOCK: int := 0x7
  const WTS_SESSION_UNLOCK: int := 0x8
  const DBT_DEVNODES_CHANGED: int := 0x0007
  const PBT_APMPOWERSTATUSCHANGE: int := 0x000A

  // Window style bits (GWL_STYLE).
  const WS_CAPTION: bv32 := 0x00C0_0000
  const WS_THICKFRAME: bv32 := 0x0004_0000

  // Extended window style bits (GWL_EXSTYLE).
  const WS_EX_TOOLWINDOW: bv32 := 0x0000_0080
  const WS_EX_APPWINDOW: bv32 := 0x0004_0000
  const WS_EX_LAYERED: bv32 := 0x0008_0000
}
