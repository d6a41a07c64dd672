/** The native calls of the `GotRawId` arm that turn the new window into an
    overlay: excluded from capture, off the taskbar, topmost, click-through. */
module Overlay {

  import opened Ints

  // Extended window style bits (winuser.h).
  const WS_EX_APPWINDOW: bv32 := 0x40000
  const WS_EX_TOOLWINDOW: bv32 := 0x80
  const WS_EX_TOPMOST: bv32 := 0x8
  const WS_EX_LAYERED: bv32 := 0x80000
  const WS_EX_TRANSPARENT: bv32 := 0x20

  /** The bits the overlay sets. */
  const OverlayFlags: bv32 := WS_EX_TOOLWINDOW | WS_EX_TOPMOST | WS_EX_LAYERED | WS_EX_TRANSPARENT

  /** Every bit the overlay styling touches, set or cleared. */
  const TouchedFlags: bv32 := WS_EX_APPWINDOW | OverlayFlags

  // Other Win32 arguments of the call sequence.
  const GWL_EXSTYLE: int := -20
  const WDA_EXCLUDEFROMCAPTURE: int := 0x11
  const HWND_TOPMOST: int := -1
  const SWP_NOSIZE: bv32 := 0x1
  const SWP_NOMOVE: bv32 := 0x2
  const SWP_NOACTIVATE: bv32 := 0x10

  /** A call into the window manager, recorded with its arguments. The new
      value of `SetWindowLongPtr` is the `u32` style word, which `as isize`
      zero-extends to the 64-bit `LONG_PTR`. */
  datatype NativeCall =
    | SetWindowDisplayAffinity(hwnd: u64, affinity: int)
    | GetWindowLongPtr(hwnd: u64, index: int)
    | SetWindowLongPtr(hwnd: u64, index: int, newValue: bv32)
    | SetWindowPos(hwnd: u64, insertAfter: int, x: int, y: int, cx: int, cy: int, flags: bv32)

  /** `after` is `before` with the application-window bit cleared, the four
      overlay bits set and every other bit as it was. */
  ghost predicate OverlayBits(before: bv32, after: bv32) {
    && after & OverlayFlags == OverlayFlags
    && after & WS_EX_APPWINDOW == 0
    && after & !TouchedFlags == before & !TouchedFlags
  }

  /** `style &= !WS_EX_APPWINDOW; style |= <the four overlay bits>`. */
  function OverlayStyle(style: bv32): (r: bv32)
    ensures OverlayBits(style, r)
  {
    (style & !WS_EX_APPWINDOW) | OverlayFlags
  }

  /** The three conditions of OverlayBits determine the new style word. */
  lemma OverlayBitsUnique(before: bv32, after: bv32)
    requires OverlayBits(before, after)
    ensures after == OverlayStyle(before)
  {
  }

  /** Styling an already styled word changes nothing. */
  lemma OverlayStyleIdempotent(style: bv32)
    ensures OverlayStyle(OverlayStyle(style)) == OverlayStyle(style)
  {
  }

  /** The calls issued for the native handle hwnd when the window manager
      reports the extended style `current`, in the order they are issued:
      capture exclusion, read of the style, write of the overlay style of its
      low 32 bits, and the topmost z-order
      without move, resize or activation. */
  function OverlayCalls(hwnd: u64, current: bv64): seq<NativeCall> {
    [ SetWindowDisplayAffinity(hwnd, WDA_EXCLUDEFROMCAPTURE),
      GetWindowLongPtr(hwnd, GWL_EXSTYLE),
      SetWindowLongPtr(hwnd, GWL_EXSTYLE, OverlayStyle(Low32(current))),
      SetWindowPos(hwnd, HWND_TOPMOST, 0, 0, 0, 0, SWP_NOMOVE | SWP_NOSIZE | SWP_NOACTIVATE) ]
  }

  /** The unsafe block of the `GotRawId` arm, with the style word built up in
      place: first the application-window bit is cleared, then the overlay
      bits are or-ed in. */
  method StyleAsOverlay(hwnd: u64, current: bv64) returns (calls: seq<NativeCall>)
    ensures calls == OverlayCalls(hwnd, current)
  {
    calls := [SetWindowDisplayAffinity(hwnd, WDA_EXCLUDEFROMCAPTURE)];
    calls := calls + [GetWindowLongPtr(hwnd, GWL_EXSTYLE)];
    var style := Low32(current);
    style := style & !WS_EX_APPWINDOW;
    style := style | (WS_EX_TOOLWINDOW | WS_EX_TOPMOST | WS_EX_LAYERED | WS_EX_TRANSPARENT);
    calls := calls + [SetWindowLongPtr(hwnd, GWL_EXSTYLE, style)];
    calls := calls + [SetWindowPos(hwnd, HWND_TOPMOST, 0, 0, 0, 0, SWP_NOMOVE | SWP_NOSIZE | SWP_NOACTIVATE)];
  }
}
