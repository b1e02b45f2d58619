/**
 * The parts of `MainService.kt` that decide rather than do: routing of
 * remote pointer input, the screen-geometry update, the `half_scale`
 * setting, the values read back by name, and notification ids.
 */
module MainServiceModel {
  import opened Wrappers
  import opened AndroidCodes
  import opened Common
  import InputModel
  import opened InputEvents
  import InputServiceClass

  const ORIENTATION_LANDSCAPE: int := 2
  const MAX_SCREEN_SIZE: int := 1400
  const NOTIFY_ID_OFFSET: int := 100
  const WAKE_LOCK_TIMEOUT: int := 5000

  // ---- rustPointerInput ----

  datatype Route = WakeScreen | ToTouch | ToMouse | Ignored

  /** Where `rustPointerInput` sends an event. */
  function PointerRoute(interactive: bool, kind: int, mask: int): (r: Route)
    ensures r == WakeScreen <==> !interactive && (kind == 0 || mask == InputModel.LEFT_DOWN)
    ensures r == ToTouch <==> interactive && kind == 0
    ensures r == ToMouse <==> kind == 1 && (interactive || mask != InputModel.LEFT_DOWN)
    ensures r == Ignored <==> kind != 0 && kind != 1 && (interactive || mask != InputModel.LEFT_DOWN)
  {
    if !interactive && (kind == 0 || mask == InputModel.LEFT_DOWN) then WakeScreen
    else if kind == 0 then ToTouch
    else if kind == 1 then ToMouse
    else Ignored
  }

  /** Platform effects of the service that the model records rather than performs. */
  datatype Effect = ReleaseWakeLock | AcquireWakeLock(timeout: int) | StopCapture | RefreshScreen | StartCapture

  // ---- updateScreenInfo ----

  /** Kotlin's `Int` division by 2, which truncates toward zero. */
  function Half(x: int): (r: int)
    ensures 0 <= x ==> 2 * r <= x <= 2 * r + 1
    ensures x < 0 ==> 2 * r - 1 <= x <= 2 * r
  {
    KotlinDiv(x, 2)
  }

  datatype Dims = Dims(width: int, height: int, scale: int, dpi: int)

  /** Width and height for the orientation: long side across in landscape, else short side across. */
  function Orient(orientation: int, w: int, h: int): (int, int)
  {
    var mx := if w < h then h else w;
    var mn := if w < h then w else h;
    if orientation == ORIENTATION_LANDSCAPE then (mx, mn) else (mn, mx)
  }

  /** The half-scale rule on oriented sizes: halve everything when enabled and the screen is large. */
  function ScaleDims(isHalfScale: Option<bool>, w: int, h: int, dpi: int): Dims
  {
    if isHalfScale == Some(true) && (w > MAX_SCREEN_SIZE || h > MAX_SCREEN_SIZE)
    then Dims(Half(w), Half(h), 2, Half(dpi))
    else Dims(w, h, 1, dpi)
  }

  /** The values `updateScreenInfo` would store, from the window metrics. */
  function TargetDims(isHalfScale: Option<bool>, orientation: int, w0: int, h0: int, dpi0: int): Dims
  {
    var (w, h) := Orient(orientation, w0, h0);
    ScaleDims(isHalfScale, w, h, dpi0)
  }

  /** `updateScreenInfo` writes only for a non-empty screen whose stored width differs. */
  predicate WritesScreenInfo(isHalfScale: Option<bool>, orientation: int, w0: int, h0: int, dpi0: int, storedWidth: int)
  {
    w0 != 0 && h0 != 0 && storedWidth != TargetDims(isHalfScale, orientation, w0, h0, dpi0).width
  }

  /** A live capture is stopped and restarted around the refresh; otherwise only the refresh. */
  function RefreshEffects(isStart: bool): seq<Effect>
  {
    if isStart then [StopCapture, RefreshScreen, StartCapture] else [RefreshScreen]
  }

  /**
   * Orientation: landscape puts the long side across and anything else the
   * short side, keeping the two sizes. For a screen that is not square,
   * width greater than height is exactly landscape; a square screen has
   * width equal to height in every orientation.
   */
  lemma OrientSpec(orientation: int, w0: int, h0: int)
    ensures var (w, h) := Orient(orientation, w0, h0);
      multiset{w, h} == multiset{w0, h0} &&
      (orientation == ORIENTATION_LANDSCAPE ==> w >= h) &&
      (orientation != ORIENTATION_LANDSCAPE ==> w <= h) &&
      (w0 != h0 ==> (w > h <==> orientation == ORIENTATION_LANDSCAPE)) &&
      (w0 != 0 && h0 != 0 <==> w != 0 && h != 0)
  {
  }

  /**
   * The half-scale rule: scale 2 with width, height and density halved
   * exactly when half scale is switched on (not off, not unset) and the
   * oriented width or height exceeds 1400; otherwise scale 1 and the
   * values unchanged.
   */
  lemma ScaleDimsSpec(isHalfScale: Option<bool>, w: int, h: int, dpi: int)
    requires w >= 0 && h >= 0 && dpi >= 0
    ensures var d := ScaleDims(isHalfScale, w, h, dpi);
      (d.scale == 2 <==> isHalfScale == Some(true) && (w > 1400 || h > 1400)) &&
      (d.scale == 2 ==> w - 1 <= 2 * d.width <= w && h - 1 <= 2 * d.height <= h && dpi - 1 <= 2 * d.dpi <= dpi) &&
      (d.scale != 2 ==> d == Dims(w, h, 1, dpi))
  {
  }

  // ---- rustGetByName: decimal text and the screen_size object ----

  function DigitChar(d: int): char
    requires 0 <= d < 10
  {
    "0123456789"[d]
  }

  predicate IsDigit(c: char) { '0' <= c <= '9' }

  /** The decimal digits of a natural number, as `Int.toString` writes them. */
  function NatString(n: nat): (r: string)
    ensures |r| > 0 && forall i :: 0 <= i < |r| ==> IsDigit(r[i])
  {
    if n < 10 then [DigitChar(n)] else NatString(n / 10) + [DigitChar(n % 10)]
  }

  function IntString(n: int): string
  {
    if n < 0 then "-" + NatString(-n) else NatString(n)
  }

  function DigitsValue(ds: string): nat
    requires forall i :: 0 <= i < |ds| ==> IsDigit(ds[i])
  {
    if ds == [] then 0
    else
      assert IsDigit(ds[|ds| - 1]);
      DigitsValue(ds[..|ds| - 1]) * 10 + (ds[|ds| - 1] as int - '0' as int)
  }

  /** Length of the run of digits at the front of `s`. */
  function DigitRun(s: string): (n: nat)
    ensures n <= |s| && forall i :: 0 <= i < n ==> IsDigit(s[i])
    ensures n < |s| ==> !IsDigit(s[n])
  {
    if s != [] && IsDigit(s[0]) then 1 + DigitRun(s[1..]) else 0
  }

  /** A run of at least one digit at the front of `s`, its value and what follows it. */
  function ParseNat(s: string): Option<(nat, string)>
  {
    var n := DigitRun(s);
    if n == 0 then None else Some((DigitsValue(s[..n]), s[n..]))
  }

  /** A decimal integer at the front of `s` (optional minus, at least one digit) and what follows it. */
  function ParseInt(s: string): Option<(int, string)>
  {
    if |s| > 0 && s[0] == '-' then
      match ParseNat(s[1..])
      case None => None
      case Some((v, rest)) => Some((-(v as int), rest))
    else
      match ParseNat(s)
      case None => None
      case Some((v, rest)) => Some((v, rest))
  }

  const WIDTH_KEY: string := "{\"width\":"
  const HEIGHT_KEY: string := ",\"height\":"
  const SCALE_KEY: string := ",\"scale\":"
  const CLOSE: string := "}"

  /** `JSONObject` with width, height and scale in insertion order, as `toString` writes it. */
  function ScreenSizeJson(width: int, height: int, scale: int): string
  {
    WIDTH_KEY + IntString(width) + (HEIGHT_KEY + IntString(height) + (SCALE_KEY + IntString(scale) + CLOSE))
  }

  /** `key` at the front of `s`, then a decimal integer, and what follows it. */
  function ParseKeyedInt(key: string, s: string): Option<(int, string)>
  {
    if key <= s then ParseInt(s[|key|..]) else None
  }

  /** Reads a `screen_size` object back. */
  function ParseScreenSize(s: string): Option<(int, int, int)>
  {
    match ParseKeyedInt(WIDTH_KEY, s)
    case None => None
    case Some((w, r1)) =>
      match ParseKeyedInt(HEIGHT_KEY, r1)
      case None => None
      case Some((h, r2)) =>
        match ParseKeyedInt(SCALE_KEY, r2)
        case None => None
        case Some((sc, r3)) => if r3 == CLOSE then Some((w, h, sc)) else None
  }

  lemma {:induction false} NatStringValue(n: nat)
    ensures DigitsValue(NatString(n)) == n
  {
    if n >= 10 {
      NatStringValue(n / 10);
      var r := NatString(n);
      assert r[..|r| - 1] == NatString(n / 10);
    }
  }

  lemma {:induction false} DigitRunOfDigits(a: string, t: string)
    requires forall i :: 0 <= i < |a| ==> IsDigit(a[i])
    requires t == [] || !IsDigit(t[0])
    ensures DigitRun(a + t) == |a|
  {
    if a != [] {
      assert (a + t)[1..] == a[1..] + t;
      DigitRunOfDigits(a[1..], t);
    } else {
      assert a + t == t;
    }
  }

  lemma ParseNatRoundTrip(m: nat, t: string)
    requires t == [] || !IsDigit(t[0])
    ensures ParseNat(NatString(m) + t) == Some((m, t))
  {
    var digits := NatString(m);
    NatStringValue(m);
    DigitRunOfDigits(digits, t);
    assert (digits + t)[..|digits|] == digits;
    assert (digits + t)[|digits|..] == t;
  }

  /** Reading back a written integer gives the integer and leaves what followed it. */
  lemma IntStringRoundTrip(n: int, t: string)
    requires t == [] || !IsDigit(t[0])
    ensures ParseInt(IntString(n) + t) == Some((n, t))
  {
    if n < 0 {
      var m: nat := -n;
      assert IntString(n) + t == "-" + NatString(m) + t;
      NegRoundTrip(m, t);
    } else {
      var u := NatString(n) + t;
      assert IntString(n) + t == u;
      assert u[0] == NatString(n)[0] && IsDigit(u[0]);
      ParseNatRoundTrip(n, t);
    }
  }

  lemma NegRoundTrip(m: nat, t: string)
    requires m > 0 && (t == [] || !IsDigit(t[0]))
    ensures ParseInt("-" + NatString(m) + t) == Some((-(m as int), t))
  {
    var u := "-" + NatString(m) + t;
    assert u[0] == '-';
    assert u[1..] == NatString(m) + t;
    ParseNatRoundTrip(m, t);
  }

  /** After a key, an integer followed by text that does not start with a digit reads back. */
  lemma KeyedIntRoundTrip(key: string, n: int, rest: string)
    requires rest == [] || !IsDigit(rest[0])
    ensures ParseKeyedInt(key, key + IntString(n) + rest) == Some((n, rest))
  {
    var u := key + IntString(n) + rest;
    assert u[..|key|] == key;
    assert u[|key|..] == IntString(n) + rest;
    IntStringRoundTrip(n, rest);
  }

  /** The `screen_size` text written by `rustGetByName` reads back as the stored width, height and scale. */
  lemma ScreenSizeRoundTrip(width: int, height: int, scale: int)
    ensures ParseScreenSize(ScreenSizeJson(width, height, scale)) == Some((width, height, scale))
  {
    var r2 := SCALE_KEY + IntString(scale) + CLOSE;
    var r1 := HEIGHT_KEY + IntString(height) + r2;
    assert r1[0] == ',' && r2[0] == ',';
    KeyedIntRoundTrip(WIDTH_KEY, width, r1);
    KeyedIntRoundTrip(HEIGHT_KEY, height, r2);
    KeyedIntRoundTrip(SCALE_KEY, scale, CLOSE);
  }

  /** `Boolean.toString()`. */
  function BoolString(b: bool): string
  {
    if b then "true" else "false"
  }

  /** `String.toBoolean()`: "true" in any mix of upper and lower case. */
  predicate ToBoolean(s: string)
  {
    |s| == 4 && forall i :: 0 <= i < 4 ==> LowerAscii(s[i]) == "true"[i]
  }

  /** `toBoolean` reads back what `Boolean.toString` writes, and accepts upper case too. */
  lemma ToBooleanSpec(b: bool)
    ensures ToBoolean(BoolString(b)) == b
    ensures ToBoolean("TRUE") && ToBoolean("True") && !ToBoolean("") && !ToBoolean("yes") && !ToBoolean("1")
  {
    if !b {
      assert LowerAscii(BoolString(b)[1]) != "true"[1];
    }
    assert LowerAscii("yes"[0]) != "true"[0];
  }

  // ---- getClientNotifyID ----

  /** `getClientNotifyID`: the client id offset by 100 in 32-bit arithmetic. */
  function ClientNotifyId(clientId: Int32): (r: Int32)
    ensures clientId <= INT_MAX - NOTIFY_ID_OFFSET ==> r == clientId + NOTIFY_ID_OFFSET
  {
    Wrap32(clientId + NOTIFY_ID_OFFSET)
  }

  /** Distinct clients never share a notification id, even across the 32-bit wrap. */
  lemma ClientNotifyIdInjective(a: Int32, b: Int32)
    requires ClientNotifyId(a) == ClientNotifyId(b)
    ensures a == b
  {
  }

  // ---- the service's state ----

  class MainService {
    /** `isHalfScale`: unset (null) until the first `half_scale` call. */
    var isHalfScale: Option<bool>
    /** `isStart`: whether screen capture is running. */
    var isStart: bool
    var wakeLockHeld: bool
    /** Platform calls made so far: wake lock, capture and refresh. */
    var effects: seq<Effect>
    /** The process-wide `SCREEN_INFO`. */
    const screenInfo: Info

    constructor (screenInfo: Info)
      ensures isHalfScale == None && !isStart && !wakeLockHeld && effects == []
      ensures this.screenInfo == screenInfo
    {
      isHalfScale := None;
      isStart := false;
      wakeLockHeld := false;
      effects := [];
      this.screenInfo := screenInfo;
    }

    /**
     * `rustPointerInput`: on a dark screen, kind 0 or any input whose mask
     * is LEFT_DOWN only turns the screen on (the wake lock is re-acquired
     * for 5 seconds) and is not forwarded; otherwise kind 0 goes to
     * `onTouchInput`, kind 1 to `onMouseInput` with the current scale, and
     * other kinds are dropped. `ctx` is the registered input service, if any.
     */
    method RustPointerInput(ctx: InputServiceClass.InputService?, interactive: bool, kind: int, mask: int, x: int, y: int, now: int)
      modifies this, ctx
      ensures PointerRoute(interactive, kind, mask) == WakeScreen ==>
        wakeLockHeld &&
        effects == old(effects) + (if old(wakeLockHeld) then [ReleaseWakeLock] else []) + [AcquireWakeLock(WAKE_LOCK_TIMEOUT)]
      ensures PointerRoute(interactive, kind, mask) != WakeScreen ==> effects == old(effects) && wakeLockHeld == old(wakeLockHeld)
      ensures isHalfScale == old(isHalfScale) && isStart == old(isStart)
      ensures ctx != null && PointerRoute(interactive, kind, mask) == ToTouch ==>
        ctx.Snapshot() == InputModel.TouchStep(old(ctx.Snapshot()), mask, x, y, now).s &&
        LogExtends(old(ctx.log), ctx.log, InputModel.TouchStep(old(ctx.Snapshot()), mask, x, y, now).out)
      ensures ctx != null && PointerRoute(interactive, kind, mask) == ToMouse ==>
        ctx.Snapshot() == InputModel.MouseStep(old(ctx.Snapshot()), mask, x, y, old(screenInfo.scale), ctx.longPressDuration, now).s &&
        LogExtends(old(ctx.log), ctx.log, InputModel.MouseStep(old(ctx.Snapshot()), mask, x, y, old(screenInfo.scale), ctx.longPressDuration, now).out)
      ensures ctx != null && PointerRoute(interactive, kind, mask) in {WakeScreen, Ignored} ==>
        ctx.Snapshot() == old(ctx.Snapshot()) && ctx.log == old(ctx.log)
    {
      if !interactive && (kind == 0 || mask == InputModel.LEFT_DOWN) {
        if wakeLockHeld {
          effects := effects + [ReleaseWakeLock];
          wakeLockHeld := false;
        }
        effects := effects + [AcquireWakeLock(WAKE_LOCK_TIMEOUT)];
        wakeLockHeld := true;
      } else if kind == 0 {
        if ctx != null {
          ctx.OnTouchInput(mask, x, y, now);
        }
      } else if kind == 1 {
        if ctx != null {
          ctx.OnMouseInput(mask, x, y, screenInfo.scale, now);
        }
      }
    }

    /**
     * `updateScreenInfo`, given the orientation and the window metrics, and
     * whether a capture restart succeeds. It writes all four `SCREEN_INFO`
     * fields, and refreshes, only when the screen is not empty and the new
     * width differs from the stored one.
     */
    method UpdateScreenInfo(orientation: int, metricsW: int, metricsH: int, metricsDpi: int, restartSucceeds: bool)
      modifies this, screenInfo
      ensures isHalfScale == old(isHalfScale) && wakeLockHeld == old(wakeLockHeld)
      ensures var d := TargetDims(old(isHalfScale), orientation, metricsW, metricsH, metricsDpi);
        if WritesScreenInfo(old(isHalfScale), orientation, metricsW, metricsH, metricsDpi, old(screenInfo.width)) then
          screenInfo.width == d.width && screenInfo.height == d.height &&
          screenInfo.scale == d.scale && screenInfo.dpi == d.dpi &&
          effects == old(effects) + RefreshEffects(old(isStart)) &&
          isStart == (old(isStart) && restartSucceeds)
        else
          screenInfo.width == old(screenInfo.width) && screenInfo.height == old(screenInfo.height) &&
          screenInfo.scale == old(screenInfo.scale) && screenInfo.dpi == old(screenInfo.dpi) &&
          effects == old(effects) && isStart == old(isStart)
    {
      var w, h, dpi := metricsW, metricsH, metricsDpi;
      var mx := if w < h then h else w;
      var mn := if w < h then w else h;
      if orientation == ORIENTATION_LANDSCAPE {
        w, h := mx, mn;
      } else {
        w, h := mn, mx;
      }
      var scale := 1;
      if w != 0 && h != 0 {
        if isHalfScale == Some(true) && (w > MAX_SCREEN_SIZE || h > MAX_SCREEN_SIZE) {
          scale := 2;
          w := Half(w);
          h := Half(h);
          dpi := Half(dpi);
        }
        if screenInfo.width != w {
          screenInfo.width := w;
          screenInfo.height := h;
          screenInfo.scale := scale;
          screenInfo.dpi := dpi;
          if isStart {
            effects := effects + [StopCapture];
            isStart := false;
            effects := effects + [RefreshScreen];
            effects := effects + [StartCapture];
            isStart := restartSucceeds;
          } else {
            effects := effects + [RefreshScreen];
          }
        }
      }
    }

    /**
     * The `half_scale` branch of `rustSetByName`: the argument is parsed
     * with `toBoolean`, and only a change of the setting (an unset setting
     * always counts as changed) stores it and re-runs `updateScreenInfo`.
     */
    method SetHalfScale(arg1: string, orientation: int, metricsW: int, metricsH: int, metricsDpi: int, restartSucceeds: bool)
      modifies this, screenInfo
      ensures wakeLockHeld == old(wakeLockHeld)
      ensures old(isHalfScale) == Some(ToBoolean(arg1)) ==>
        isHalfScale == old(isHalfScale) && isStart == old(isStart) && effects == old(effects) &&
        screenInfo.width == old(screenInfo.width) && screenInfo.height == old(screenInfo.height) &&
        screenInfo.scale == old(screenInfo.scale) && screenInfo.dpi == old(screenInfo.dpi)
      ensures old(isHalfScale) != Some(ToBoolean(arg1)) ==>
        isHalfScale == Some(ToBoolean(arg1)) &&
        var d := TargetDims(isHalfScale, orientation, metricsW, metricsH, metricsDpi);
        if WritesScreenInfo(isHalfScale, orientation, metricsW, metricsH, metricsDpi, old(screenInfo.width)) then
          screenInfo.width == d.width && screenInfo.height == d.height &&
          screenInfo.scale == d.scale && screenInfo.dpi == d.dpi &&
          effects == old(effects) + RefreshEffects(old(isStart)) &&
          isStart == (old(isStart) && restartSucceeds)
        else
          screenInfo.width == old(screenInfo.width) && screenInfo.height == old(screenInfo.height) &&
          screenInfo.scale == old(screenInfo.scale) && screenInfo.dpi == old(screenInfo.dpi) &&
          effects == old(effects) && isStart == old(isStart)
    {
      var halfScale := ToBoolean(arg1);
      if isHalfScale != Some(halfScale) {
        isHalfScale := Some(halfScale);
        UpdateScreenInfo(orientation, metricsW, metricsH, metricsDpi, restartSucceeds);
      }
    }

    /** `rustGetByName`: the screen size as JSON, the capture flag as text, and "" for any other name. */
    function GetByName(name: string): (r: string)
      reads this, screenInfo
      ensures name == "is_start" ==> r == BoolString(isStart) && ToBoolean(r) == isStart
      ensures name == "screen_size" ==> ParseScreenSize(r) == Some((screenInfo.width, screenInfo.height, screenInfo.scale))
      ensures name != "screen_size" && name != "is_start" ==> r == ""
    {
      ToBooleanSpec(isStart);
      ScreenSizeRoundTrip(screenInfo.width, screenInfo.height, screenInfo.scale);
      if name == "screen_size" then ScreenSizeJson(screenInfo.width, screenInfo.height, screenInfo.scale)
      else if name == "is_start" then BoolString(isStart)
      else ""
    }
  }

  /**
   * A change of height alone, at the same stored width, never touches
   * `SCREEN_INFO`; nor does an empty screen.
   */
  lemma HeightOnlyChangeIgnored(isHalfScale: Option<bool>, orientation: int, w0: int, h0: int, dpi0: int, storedWidth: int)
    requires TargetDims(isHalfScale, orientation, w0, h0, dpi0).width == storedWidth || w0 == 0 || h0 == 0
    ensures !WritesScreenInfo(isHalfScale, orientation, w0, h0, dpi0, storedWidth)
  {
  }

  /**
   * A screen that has just been written is not written again by the same
   * metrics, so repeated calls with unchanged geometry refresh at most once.
   */
  lemma UpdateIdempotent(isHalfScale: Option<bool>, orientation: int, w0: int, h0: int, dpi0: int, storedWidth: int)
    requires WritesScreenInfo(isHalfScale, orientation, w0, h0, dpi0, storedWidth)
    ensures !WritesScreenInfo(isHalfScale, orientation, w0, h0, dpi0, TargetDims(isHalfScale, orientation, w0, h0, dpi0).width)
  {
  }
}
