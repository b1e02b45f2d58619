/**
 * Constants of the Android platform that the input service relies on:
 * `MotionEvent` and `KeyEvent` actions and the `KeyEvent.KEYCODE_*` values
 * it emits, plus 32-bit integer helpers for Kotlin's `Int`.
 */
module AndroidCodes {
  // MotionEvent actions
  const ACTION_DOWN: int := 0
  const ACTION_UP: int := 1
  const ACTION_MOVE: int := 2
  const ACTION_SCROLL: int := 8

  // KeyEvent actions (the same numbers as the motion DOWN and UP)
  const KEY_ACTION_DOWN: int := 0
  const KEY_ACTION_UP: int := 1

  // KeyEvent key codes
  const KEYCODE_UNKNOWN: int := 0
  const KEYCODE_HOME: int := 3
  const KEYCODE_BACK: int := 4
  const KEYCODE_0: int := 7
  const KEYCODE_DPAD_UP: int := 19
  const KEYCODE_DPAD_DOWN: int := 20
  const KEYCODE_DPAD_LEFT: int := 21
  const KEYCODE_DPAD_RIGHT: int := 22
  const KEYCODE_VOLUME_UP: int := 24
  const KEYCODE_VOLUME_DOWN: int := 25
  const KEYCODE_A: int := 29
  const KEYCODE_COMMA: int := 55
  const KEYCODE_PERIOD: int := 56
  const KEYCODE_ALT_LEFT: int := 57
  const KEYCODE_ALT_RIGHT: int := 58
  const KEYCODE_SHIFT_LEFT: int := 59
  const KEYCODE_SHIFT_RIGHT: int := 60
  const KEYCODE_TAB: int := 61
  const KEYCODE_SPACE: int := 62
  const KEYCODE_ENTER: int := 66
  const KEYCODE_DEL: int := 67
  const KEYCODE_PAGE_UP: int := 92
  const KEYCODE_PAGE_DOWN: int := 93
  const KEYCODE_ESCAPE: int := 111
  const KEYCODE_FORWARD_DEL: int := 112
  const KEYCODE_CTRL_LEFT: int := 113
  const KEYCODE_CTRL_RIGHT: int := 114
  const KEYCODE_CAPS_LOCK: int := 115
  const KEYCODE_SCROLL_LOCK: int := 116
  const KEYCODE_META_LEFT: int := 117
  const KEYCODE_META_RIGHT: int := 118
  const KEYCODE_SYSRQ: int := 120
  const KEYCODE_BREAK: int := 121
  const KEYCODE_MOVE_HOME: int := 122
  const KEYCODE_MOVE_END: int := 123
  const KEYCODE_INSERT: int := 124
  const KEYCODE_F1: int := 131
  const KEYCODE_NUM_LOCK: int := 143
  const KEYCODE_VOLUME_MUTE: int := 164
  const KEYCODE_APP_SWITCH: int := 187

  // Kotlin Int
  const INT_MIN: int := -0x8000_0000
  const INT_MAX: int := 0x7fff_ffff
  type Int32 = x: int | INT_MIN <= x <= INT_MAX

  /** Two's-complement wrap-around of an unbounded integer into Kotlin's `Int`. */
  function Wrap32(x: int): (r: Int32)
    ensures (r - x) % 0x1_0000_0000 == 0
    ensures INT_MIN <= x <= INT_MAX ==> r == x
  {
    var m := (x - INT_MIN) % 0x1_0000_0000;
    m + INT_MIN
  }

  /** A UTF-16 code unit: the element of a Kotlin `String` and the value of a Kotlin `Char`. */
  type U16 = x: int | 0 <= x < 0x1_0000

  /** Lower-casing of ASCII letters, used for the case-insensitive comparisons of `startsWith(prefix, true)` and `toBoolean`. */
  function LowerAscii(c: char): char
  {
    if 'A' <= c <= 'Z' then (c as int + 32) as char else c
  }

  /** Kotlin's `Int` division, which truncates toward zero (Dafny's `/` is Euclidean). */
  function KotlinDiv(a: int, b: int): int
    requires b > 0
  {
    if a < 0 then -((-a) / b) else a / b
  }
}
