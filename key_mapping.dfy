/**
 * The pure parts of the keyboard path of the input service: the
 * control-key table of `handleControlKey`, the auto-release delay of
 * `injectKeyEvent`, `Character.toChars`, the ASCII fast path of
 * `getEventsForChar`, its fallback `createFallbackKeyEvents`, and the
 * event sequence the text worker produces for a whole string.
 */
module KeyMapping {
  import opened Wrappers
  import opened AndroidCodes
  import opened InputEvents

  /** The remote `ControlKey` enumeration: every key the table lists, and the rest. */
  datatype ControlKey =
    | Space | Return | Backspace | Delete | Tab
    | UpArrow | DownArrow | LeftArrow | RightArrow
    | Home | End | PageUp | PageDown
    | Alt | RAlt | Control | RControl | Shift | RShift | Meta | RWin
    | F1 | F2 | F3 | F4 | F5 | F6 | F7 | F8 | F9 | F10 | F11 | F12
    | Escape | Insert | CapsLock | NumLock | Scroll | Print | Pause
    | VolumeMute | VolumeDown | VolumeUp
    | OtherKey(name: string)   // any enumeration constant the table does not list

  /** The Android key code a control key is injected as; 0 for a key the table does not handle. */
  function ControlKeyCode(k: ControlKey): int
  {
    match k
    case Space => KEYCODE_SPACE
    case Return => KEYCODE_ENTER
    case Backspace => KEYCODE_DEL
    case Delete => KEYCODE_FORWARD_DEL
    case Tab => KEYCODE_TAB
    case UpArrow => KEYCODE_DPAD_UP
    case DownArrow => KEYCODE_DPAD_DOWN
    case LeftArrow => KEYCODE_DPAD_LEFT
    case RightArrow => KEYCODE_DPAD_RIGHT
    case Home => KEYCODE_MOVE_HOME
    case End => KEYCODE_MOVE_END
    case PageUp => KEYCODE_PAGE_UP
    case PageDown => KEYCODE_PAGE_DOWN
    case Alt => KEYCODE_ALT_LEFT
    case RAlt => KEYCODE_ALT_RIGHT
    case Control => KEYCODE_CTRL_LEFT
    case RControl => KEYCODE_CTRL_RIGHT
    case Shift => KEYCODE_SHIFT_LEFT
    case RShift => KEYCODE_SHIFT_RIGHT
    case Meta => KEYCODE_META_LEFT
    case RWin => KEYCODE_META_RIGHT
    case F1 => KEYCODE_F1
    case F2 => KEYCODE_F1 + 1
    case F3 => KEYCODE_F1 + 2
    case F4 => KEYCODE_F1 + 3
    case F5 => KEYCODE_F1 + 4
    case F6 => KEYCODE_F1 + 5
    case F7 => KEYCODE_F1 + 6
    case F8 => KEYCODE_F1 + 7
    case F9 => KEYCODE_F1 + 8
    case F10 => KEYCODE_F1 + 9
    case F11 => KEYCODE_F1 + 10
    case F12 => KEYCODE_F1 + 11
    case Escape => KEYCODE_ESCAPE
    case Insert => KEYCODE_INSERT
    case CapsLock => KEYCODE_CAPS_LOCK
    case NumLock => KEYCODE_NUM_LOCK
    case Scroll => KEYCODE_SCROLL_LOCK
    case Print => KEYCODE_SYSRQ
    case Pause => KEYCODE_BREAK
    case VolumeMute => KEYCODE_VOLUME_MUTE
    case VolumeDown => KEYCODE_VOLUME_DOWN
    case VolumeUp => KEYCODE_VOLUME_UP
    case OtherKey(_) => 0
  }

  /** The table read backwards: which control key, if any, is injected as `code`. */
  function ControlKeyOf(code: int): Option<ControlKey>
  {
    if code == KEYCODE_SPACE then Some(Space)
    else if code == KEYCODE_ENTER then Some(Return)
    else if code == KEYCODE_DEL then Some(Backspace)
    else if code == KEYCODE_FORWARD_DEL then Some(Delete)
    else if code == KEYCODE_TAB then Some(Tab)
    else if code == KEYCODE_DPAD_UP then Some(UpArrow)
    else if code == KEYCODE_DPAD_DOWN then Some(DownArrow)
    else if code == KEYCODE_DPAD_LEFT then Some(LeftArrow)
    else if code == KEYCODE_DPAD_RIGHT then Some(RightArrow)
    else if code == KEYCODE_MOVE_HOME then Some(Home)
    else if code == KEYCODE_MOVE_END then Some(End)
    else if code == KEYCODE_PAGE_UP then Some(PageUp)
    else if code == KEYCODE_PAGE_DOWN then Some(PageDown)
    else if code == KEYCODE_ALT_LEFT then Some(Alt)
    else if code == KEYCODE_ALT_RIGHT then Some(RAlt)
    else if code == KEYCODE_CTRL_LEFT then Some(Control)
    else if code == KEYCODE_CTRL_RIGHT then Some(RControl)
    else if code == KEYCODE_SHIFT_LEFT then Some(Shift)
    else if code == KEYCODE_SHIFT_RIGHT then Some(RShift)
    else if code == KEYCODE_META_LEFT then Some(Meta)
    else if code == KEYCODE_META_RIGHT then Some(RWin)
    else if code == KEYCODE_F1 then Some(F1)
    else if code == KEYCODE_F1 + 1 then Some(F2)
    else if code == KEYCODE_F1 + 2 then Some(F3)
    else if code == KEYCODE_F1 + 3 then Some(F4)
    else if code == KEYCODE_F1 + 4 then Some(F5)
    else if code == KEYCODE_F1 + 5 then Some(F6)
    else if code == KEYCODE_F1 + 6 then Some(F7)
    else if code == KEYCODE_F1 + 7 then Some(F8)
    else if code == KEYCODE_F1 + 8 then Some(F9)
    else if code == KEYCODE_F1 + 9 then Some(F10)
    else if code == KEYCODE_F1 + 10 then Some(F11)
    else if code == KEYCODE_F1 + 11 then Some(F12)
    else if code == KEYCODE_ESCAPE then Some(Escape)
    else if code == KEYCODE_INSERT then Some(Insert)
    else if code == KEYCODE_CAPS_LOCK then Some(CapsLock)
    else if code == KEYCODE_NUM_LOCK then Some(NumLock)
    else if code == KEYCODE_SCROLL_LOCK then Some(Scroll)
    else if code == KEYCODE_SYSRQ then Some(Print)
    else if code == KEYCODE_BREAK then Some(Pause)
    else if code == KEYCODE_VOLUME_MUTE then Some(VolumeMute)
    else if code == KEYCODE_VOLUME_DOWN then Some(VolumeDown)
    else if code == KEYCODE_VOLUME_UP then Some(VolumeUp)
    else None
  }

  /** Exactly the listed keys are handled, and each is injected as a key code that identifies it. */
  lemma ControlKeyCodeRoundTrip(k: ControlKey)
    ensures ControlKeyCode(k) != 0 <==> !k.OtherKey?
    ensures !k.OtherKey? ==> ControlKeyOf(ControlKeyCode(k)) == Some(k)
  {
    match k
    case OtherKey(_) =>
    case _ =>
  }

  /** Two different handled control keys never collide on one key code. */
  lemma ControlKeyCodeInjective(a: ControlKey, b: ControlKey)
    requires ControlKeyCode(a) != 0 && ControlKeyCode(a) == ControlKeyCode(b)
    ensures a == b
  {
    ControlKeyCodeRoundTrip(a);
    ControlKeyCodeRoundTrip(b);
  }

  /** The delay after which `injectKeyEvent` releases a key it has pressed. */
  function AutoUpDelay(keyCode: int): int
  {
    if keyCode == KEYCODE_DPAD_UP || keyCode == KEYCODE_DPAD_DOWN || keyCode == KEYCODE_DPAD_LEFT ||
       keyCode == KEYCODE_DPAD_RIGHT || keyCode == KEYCODE_TAB || keyCode == KEYCODE_SPACE ||
       keyCode == KEYCODE_ENTER || keyCode == KEYCODE_DEL || keyCode == KEYCODE_FORWARD_DEL then 5
    else if keyCode == KEYCODE_SHIFT_LEFT || keyCode == KEYCODE_SHIFT_RIGHT || keyCode == KEYCODE_ALT_LEFT ||
            keyCode == KEYCODE_ALT_RIGHT || keyCode == KEYCODE_CTRL_LEFT || keyCode == KEYCODE_CTRL_RIGHT ||
            keyCode == KEYCODE_META_LEFT || keyCode == KEYCODE_META_RIGHT then 20
    else 10
  }

  predicate IsModifier(k: ControlKey)
  {
    match k
    case Alt | RAlt | Control | RControl | Shift | RShift | Meta | RWin => true
    case _ => false
  }

  predicate IsNavigationOrEditing(k: ControlKey)
  {
    match k
    case Space | Return | Backspace | Delete | Tab | UpArrow | DownArrow | LeftArrow | RightArrow => true
    case _ => false
  }

  /**
   * For every handled control key the release delay depends only on the
   * key's class: 20 ms for the eight modifiers, 5 ms for the arrows, tab,
   * space, enter and both deletes, 10 ms for the rest.
   */
  lemma AutoUpDelayOfControlKey(k: ControlKey)
    requires ControlKeyCode(k) != 0
    ensures IsModifier(k) ==> AutoUpDelay(ControlKeyCode(k)) == 20
    ensures IsNavigationOrEditing(k) ==> AutoUpDelay(ControlKeyCode(k)) == 5
    ensures !IsModifier(k) && !IsNavigationOrEditing(k) ==> AutoUpDelay(ControlKeyCode(k)) == 10
  {
    if IsModifier(k) {
      ModifierDelay(k);
    } else if IsNavigationOrEditing(k) {
      NavigationDelay(k);
    } else {
      OtherDelay(k);
    }
  }

  lemma ModifierDelay(k: ControlKey)
    requires IsModifier(k)
    ensures AutoUpDelay(ControlKeyCode(k)) == 20
  {
    match k
    case Alt | RAlt | Control | RControl | Shift | RShift | Meta | RWin =>
  }

  lemma NavigationDelay(k: ControlKey)
    requires IsNavigationOrEditing(k)
    ensures AutoUpDelay(ControlKeyCode(k)) == 5
  {
    match k
    case Space | Return | Backspace | Delete | Tab | UpArrow | DownArrow | LeftArrow | RightArrow =>
  }

  lemma OtherDelay(k: ControlKey)
    requires ControlKeyCode(k) != 0 && !IsModifier(k) && !IsNavigationOrEditing(k)
    ensures AutoUpDelay(ControlKeyCode(k)) == 10
  {
    match k
    case OtherKey(_) =>
    case _ =>
  }

  /** A modifier is always released strictly later than a navigation key pressed at the same time. */
  lemma ModifierReleasedLater(m: ControlKey, n: ControlKey, now: int)
    requires IsModifier(m) && IsNavigationOrEditing(n)
    ensures now + AutoUpDelay(ControlKeyCode(n)) < now + AutoUpDelay(ControlKeyCode(m))
  {
    AutoUpDelayOfControlKey(m);
    AutoUpDelayOfControlKey(n);
  }

  // ---- Character.toChars ----

  /**
   * `Character.toChars(cp)`: one unit for a BMP code point, a surrogate
   * pair for a supplementary one, and `None` where Java throws
   * `IllegalArgumentException` (negative or above U+10FFFF).
   */
  function ToChars(cp: int): Option<seq<U16>>
  {
    if 0 <= cp < 0x1_0000 then Some([cp])
    else if 0x1_0000 <= cp <= 0x10_FFFF then
      Some([0xD7C0 + cp / 0x400, 0xDC00 + cp % 0x400])
    else None
  }

  /** The code point a one- or two-unit UTF-16 sequence denotes. */
  function CodePointOf(units: seq<U16>): int
    requires 1 <= |units| <= 2
  {
    if |units| == 1 then units[0] as int
    else (units[0] as int - 0xD800) * 0x400 + (units[1] as int - 0xDC00) + 0x1_0000
  }

  /**
   * `ToChars` fails exactly on invalid code points; otherwise it returns a
   * single unit or a high-then-low surrogate pair, and decoding gives the
   * code point back.
   */
  lemma ToCharsRoundTrip(cp: int)
    ensures ToChars(cp).None? <==> (cp < 0 || cp > 0x10_FFFF)
    ensures ToChars(cp).Some? ==> 1 <= |ToChars(cp).value| <= 2 && CodePointOf(ToChars(cp).value) == cp
    ensures ToChars(cp).Some? && |ToChars(cp).value| == 2 ==>
      0xD800 <= ToChars(cp).value[0] <= 0xDBFF && 0xDC00 <= ToChars(cp).value[1] <= 0xDFFF
  {
    if 0x1_0000 <= cp <= 0x10_FFFF {
      var q, r := cp / 0x400, cp % 0x400;
      assert cp == q * 0x400 + r;
      assert 64 <= q <= 1087;
      assert (0xD7C0 + q - 0xD800) * 0x400 + (0xDC00 + r - 0xDC00) + 0x1_0000 == (q - 64) * 0x400 + r + 0x1_0000;
    }
  }

  // ---- getEventsForChar / createFallbackKeyEvents ----

  /** The key code of the ASCII fast path; `KEYCODE_UNKNOWN` for a character it does not know. */
  function AsciiKeyCode(c: U16): int
  {
    if 'a' as int <= c <= 'z' as int then KEYCODE_A + (c - 'a' as int)
    else if 'A' as int <= c <= 'Z' as int then KEYCODE_A + (c - 'A' as int)
    else if '0' as int <= c <= '9' as int then KEYCODE_0 + (c - '0' as int)
    else if c == ' ' as int then KEYCODE_SPACE
    else if c == '.' as int then KEYCODE_PERIOD
    else if c == ',' as int then KEYCODE_COMMA
    else if c == '\n' as int then KEYCODE_ENTER
    else KEYCODE_UNKNOWN
  }

  /** A key-down then key-up of `keyCode`, as `getEventsForChar` builds them. */
  function DownUp(keyCode: int, time: int): seq<Event>
  {
    [Key(KEY_ACTION_DOWN, keyCode, 0, 0, time, Unspecified), Key(KEY_ACTION_UP, keyCode, 0, 0, time, Unspecified)]
  }

  /** An unknown-key down carrying the character code as its scan code, then an unknown-key up. */
  function CreateFallbackKeyEvents(code: int, time: int): seq<Event>
  {
    [Key(KEY_ACTION_DOWN, KEYCODE_UNKNOWN, 1, code, time, Unspecified),
     Key(KEY_ACTION_UP, KEYCODE_UNKNOWN, 0, 0, time, Unspecified)]
  }

  function GetEventsForChar(c: U16, time: int): seq<Event>
  {
    if c < 128 && AsciiKeyCode(c) != KEYCODE_UNKNOWN then DownUp(AsciiKeyCode(c), time)
    else CreateFallbackKeyEvents(c, time)
  }

  predicate IsAsciiLetterOrDigit(c: U16)
  {
    ('a' as int <= c <= 'z' as int) || ('A' as int <= c <= 'Z' as int) || ('0' as int <= c <= '9' as int)
  }

  /**
   * Every character gives a down then an up of one key code. Letters give
   * `KEYCODE_A` plus their offset in either case, digits `KEYCODE_0` plus
   * their offset, space, '.', ',' and newline their own codes, and every
   * other character, including any code of 128 or more, an unknown-key pair
   * whose down carries the character code.
   */
  lemma GetEventsForCharSpec(c: U16, time: int)
    ensures var evs := GetEventsForChar(c, time);
      |evs| == 2 && evs[0].Key? && evs[1].Key? &&
      evs[0].action == KEY_ACTION_DOWN && evs[1].action == KEY_ACTION_UP &&
      evs[0].keyCode == evs[1].keyCode
    ensures 'a' as int <= c <= 'z' as int ==> GetEventsForChar(c, time) == DownUp(KEYCODE_A + c - 'a' as int, time)
    ensures 'A' as int <= c <= 'Z' as int ==> GetEventsForChar(c, time) == DownUp(KEYCODE_A + c - 'A' as int, time)
    ensures '0' as int <= c <= '9' as int ==> GetEventsForChar(c, time) == DownUp(KEYCODE_0 + c - '0' as int, time)
    ensures c == ' ' as int ==> GetEventsForChar(c, time) == DownUp(KEYCODE_SPACE, time)
    ensures c == '.' as int ==> GetEventsForChar(c, time) == DownUp(KEYCODE_PERIOD, time)
    ensures c == ',' as int ==> GetEventsForChar(c, time) == DownUp(KEYCODE_COMMA, time)
    ensures c == '\n' as int ==> GetEventsForChar(c, time) == DownUp(KEYCODE_ENTER, time)
    ensures !IsAsciiLetterOrDigit(c) && c !in {' ' as int, '.' as int, ',' as int, '\n' as int} ==>
      GetEventsForChar(c, time) == CreateFallbackKeyEvents(c, time)
  {
  }

  /** The fast path loses only case: two characters with one known key code are equal up to case. */
  lemma AsciiKeyCodeIdentifiesUpToCase(a: U16, b: U16)
    requires AsciiKeyCode(a) == AsciiKeyCode(b) != KEYCODE_UNKNOWN
    ensures a == b || a - b == 'a' as int - 'A' as int || b - a == 'a' as int - 'A' as int
  {
  }

  // ---- the text worker ----

  /** The key events the platform character map gives for one unit, or `None` (the map is opaque). */
  type CharMap = U16 -> Option<seq<Event>>

  /** The events the worker injects for one unit: the character map's, else `getEventsForChar`'s. */
  function CharEvents(c: U16, charMap: CharMap, time: int): seq<Event>
  {
    match charMap(c)
    case Some(evs) => evs
    case None => GetEventsForChar(c, time)
  }

  /** All events the worker injects for `text`, character by character in order. */
  function TextEvents(text: seq<U16>, charMap: CharMap, time: int): seq<Event>
    decreases |text|
  {
    if text == [] then []
    else TextEvents(text[..|text| - 1], charMap, time) + CharEvents(text[|text| - 1], charMap, time)
  }

  lemma {:induction false} TextEventsAppend(a: seq<U16>, b: seq<U16>, charMap: CharMap, time: int)
    ensures TextEvents(a + b, charMap, time) == TextEvents(a, charMap, time) + TextEvents(b, charMap, time)
    decreases |b|
  {
    if b == [] {
      assert a + b == a;
    } else {
      var b' := b[..|b| - 1];
      assert (a + b)[..|a + b| - 1] == a + b';
      TextEventsAppend(a, b', charMap, time);
    }
  }

  /**
   * One character never stops the rest: the events of `text` are those of
   * the part before position `k`, then those of the character at `k`, then
   * those of the part after it.
   */
  lemma TextEventsSplit(text: seq<U16>, k: nat, charMap: CharMap, time: int)
    requires k < |text|
    ensures TextEvents(text, charMap, time) ==
      TextEvents(text[..k], charMap, time) + CharEvents(text[k], charMap, time) + TextEvents(text[k + 1..], charMap, time)
  {
    assert text == text[..k] + [text[k]] + text[k + 1..];
    TextEventsAppend(text[..k] + [text[k]], text[k + 1..], charMap, time);
    TextEventsAppend(text[..k], [text[k]], charMap, time);
    assert TextEvents([text[k]], charMap, time) == CharEvents(text[k], charMap, time) by {
      assert [text[k]][..0] == [];
    }
  }

  /**
   * A character that neither the character map nor the ASCII fast path
   * knows still gives its unknown-key pair, between the events of the text
   * before it and those of the text after it.
   */
  lemma TextEventsFallback(text: seq<U16>, k: nat, charMap: CharMap, time: int)
    requires k < |text| && charMap(text[k]).None?
    requires !IsAsciiLetterOrDigit(text[k]) && text[k] !in {' ' as int, '.' as int, ',' as int, '\n' as int}
    ensures TextEvents(text, charMap, time) ==
      TextEvents(text[..k], charMap, time) + CreateFallbackKeyEvents(text[k], time) + TextEvents(text[k + 1..], charMap, time)
  {
    TextEventsSplit(text, k, charMap, time);
    GetEventsForCharSpec(text[k], time);
  }

  /**
   * A text of ASCII letters and digits that the character map does not
   * know gives, for each character in order, exactly one key-down and one
   * key-up of that character's key code.
   */
  lemma {:induction false} TextEventsAsciiPairs(text: seq<U16>, charMap: CharMap, time: int)
    requires forall i :: 0 <= i < |text| ==> IsAsciiLetterOrDigit(text[i]) && charMap(text[i]).None?
    ensures |TextEvents(text, charMap, time)| == 2 * |text|
    ensures forall i :: 0 <= i < |text| ==>
      TextEvents(text, charMap, time)[2 * i] == Key(KEY_ACTION_DOWN, AsciiKeyCode(text[i]), 0, 0, time, Unspecified) &&
      TextEvents(text, charMap, time)[2 * i + 1] == Key(KEY_ACTION_UP, AsciiKeyCode(text[i]), 0, 0, time, Unspecified)
    decreases |text|
  {
    if text != [] {
      var n := |text| - 1;
      var init := text[..n];
      TextEventsAsciiPairs(init, charMap, time);
      GetEventsForCharSpec(text[n], time);
      assert CharEvents(text[n], charMap, time) == DownUp(AsciiKeyCode(text[n]), time);
      forall i | 0 <= i < |text|
        ensures TextEvents(text, charMap, time)[2 * i] == Key(KEY_ACTION_DOWN, AsciiKeyCode(text[i]), 0, 0, time, Unspecified)
        ensures TextEvents(text, charMap, time)[2 * i + 1] == Key(KEY_ACTION_UP, AsciiKeyCode(text[i]), 0, 0, time, Unspecified)
      {
        if i < n {
          assert init[i] == text[i];
        }
      }
    }
  }
}
