/**
 * The pure state machine of the input service (`InputService.kt`): its
 * state record, one step function per entry point (pointer, touch, key
 * event, timer and handler callbacks, `disableSelf`), and the properties of
 * those steps. A step returns the new state and the requests it passes to
 * the injection sink, in order. The class in `InputServiceClass` runs the
 * same logic imperatively and is proved to agree with these functions.
 */
module InputModel {
  import opened Wrappers
  import opened AndroidCodes
  import opened InputEvents
  import opened KeyMapping

  // pointer masks of the wire protocol
  const LEFT_DOWN: int := 9
  const LEFT_MOVE: int := 8
  const LEFT_UP: int := 10
  const RIGHT_UP: int := 18
  const BACK_UP: int := 66
  const WHEEL_BUTTON_DOWN: int := 33
  const WHEEL_BUTTON_UP: int := 34
  const WHEEL_DOWN: int := 523331
  const WHEEL_UP: int := 963

  // touch phases
  const TOUCH_SCALE_START: int := 1
  const TOUCH_SCALE: int := 2
  const TOUCH_SCALE_END: int := 3
  const TOUCH_PAN_START: int := 4
  const TOUCH_PAN_UPDATE: int := 5
  const TOUCH_PAN_END: int := 6

  // keyboard modes (`KeyboardMode.number`)
  const LEGACY_MODE: int := 0
  const MAP_MODE: int := 1
  const TRANSLATE_MODE: int := 2

  const WHEEL_STEP: int := 120
  const LONG_TAP_DELAY: int := 200
  const LONG_PRESS_JITTER: int := 8
  const UP_RETRY_DELAY: int := 10
  const MOTION_DEDUP_WINDOW: int := 250   // guard inside injectMotionEvent
  const MOVE_THROTTLE: int := 16          // guard inside injectMotionEvent, about 60 Hz
  const LEFT_DEDUP_WINDOW: int := 100     // call-site checks of LEFT_DOWN / LEFT_UP
  const PAN_DEDUP_WINDOW: int := 200      // call-site checks of PAN_START / PAN_END

  /** A task on the service's `java.util.Timer`. */
  datatype TimerTask = LongPressTask(due: int) | RecentAppsTask(id: nat, due: int)

  /** A runnable posted with `handler.postDelayed`. */
  datatype HandlerTask = KeyUpTask(keyCode: int, due: int) | TouchUpTask(x: int, y: int, due: int)

  /**
   * The fields of the service. `recentActionTask` names the timer task the
   * field refers to by its id; `timerCancelled` records `timer.cancel()`;
   * `textJobs` are the texts whose worker threads have not run yet;
   * `registered` is `InputService.ctx == this`.
   */
  datatype S = S(
    leftIsDown: bool, isWaitingLongPress: bool,
    mouseX: int, mouseY: int, lastX: int, lastY: int,
    lastActionType: int, lastEventTime: int, lastDownTime: int,
    recentActionTask: Option<nat>, nextTaskId: nat,
    timerTasks: seq<TimerTask>, timerCancelled: bool,
    handlerTasks: seq<HandlerTask>, textJobs: seq<seq<U16>>,
    registered: bool)

  /** The state right after the service is created and initialised. */
  function Initial(): S
  {
    S(false, false, 0, 0, 0, 0, -1, 0, 0, None, 0, [], false, [], [], true)
  }

  /** A step's new state and the requests it sent to the sink, in order. */
  datatype Step = Step(s: S, out: seq<Request>)

  /** `b` run after `a` (b is computed from `a.s`). */
  function Then(a: Step, b: Step): Step
  {
    Step(b.s, a.out + b.out)
  }

  function Abs(x: int): int { if x < 0 then -x else x }
  function Max(a: int, b: int): int { if a < b then b else a }

  // ---- injectMotionEvent: the timing/dedup guard ----

  predicate MotionSkipped(s: S, action: int, isLongPress: bool, now: int)
  {
    (!isLongPress && (action == ACTION_DOWN || action == ACTION_UP) &&
     action == s.lastActionType && now - s.lastEventTime < MOTION_DEDUP_WINDOW)
    || (action == ACTION_MOVE && action == s.lastActionType && now - s.lastEventTime < MOVE_THROTTLE)
  }

  function InjectMotion(s: S, action: int, x: int, y: int, isLongPress: bool, now: int): Step
  {
    if MotionSkipped(s, action, isLongPress, now) then Step(s, [])
    else
      var downTime := if action == ACTION_DOWN then now else s.lastDownTime;
      var retry := if action == ACTION_UP then Some(Motion(action, x, y, downTime, now + UP_RETRY_DELAY)) else None;
      Step(s.(lastActionType := action, lastEventTime := now, lastDownTime := downTime),
           [Request(Motion(action, x, y, downTime, now), retry)])
  }

  // ---- injectKeyEvent, injectLongPress, injectScroll, injectText ----

  function InjectKey(s: S, keyCode: int, action: int, now: int): Step
  {
    var s' := if action == KEY_ACTION_DOWN
      then s.(handlerTasks := s.handlerTasks + [KeyUpTask(keyCode, now + AutoUpDelay(keyCode))])
      else s;
    Step(s', [Request(Key(action, keyCode, 0, 0, now, Keyboard), None)])
  }

  function LongPressStep(s: S, x: int, y: int, longPressDuration: nat, now: int): Step
  {
    var d := InjectMotion(s, ACTION_DOWN, x, y, false, now);
    Step(d.s.(handlerTasks := d.s.handlerTasks + [TouchUpTask(x, y, now + longPressDuration)]), d.out)
  }

  function ScrollStep(s: S, x: int, y: int, h: int, v: int, now: int): Step
  {
    Step(s, [Request(ScrollMotion(x, y, h, v, now), None)])
  }

  /** `injectText`: an empty text is refused, any other text is handed to a new worker. */
  function QueueText(s: S, text: seq<U16>): S
  {
    if text == [] then s else s.(textJobs := s.textJobs + [text])
  }

  // ---- onMouseInput ----

  /** The move branch (mask 0 or LEFT_MOVE): new scaled position, jitter check, MOVE. */
  function MoveTo(s: S, x: int, y: int, scale: int, now: int): Step
  {
    var nx, ny := x * scale, y * scale;
    var waiting := s.isWaitingLongPress && !(Abs(s.mouseX - nx) + Abs(s.mouseY - ny) > LONG_PRESS_JITTER);
    InjectMotion(s.(mouseX := nx, mouseY := ny, isWaitingLongPress := waiting), ACTION_MOVE, nx, ny, false, now)
  }

  /** While the left button is held, a drag MOVE at the current position. */
  function DragIfDown(a: Step, now: int): Step
  {
    if a.s.leftIsDown then Then(a, InjectMotion(a.s, ACTION_MOVE, a.s.mouseX, a.s.mouseY, false, now)) else a
  }

  function LeftDown(s: S, longPressDuration: nat, now: int): Step
  {
    if s.lastActionType == ACTION_DOWN && now - s.lastEventTime < LEFT_DEDUP_WINDOW then Step(s, [])
    else
      var s1 := s.(isWaitingLongPress := true);
      if s1.timerCancelled then Step(s1, [])   // Timer.schedule throws on a cancelled timer
      else
        var s2 := s1.(timerTasks := s1.timerTasks + [LongPressTask(now + longPressDuration)], leftIsDown := true);
        InjectMotion(s2, ACTION_DOWN, s2.mouseX, s2.mouseY, false, now)
  }

  /** Removes the recent-apps task `id` from the timer queue (`TimerTask.cancel`). */
  function CancelTask(ts: seq<TimerTask>, id: nat): (r: seq<TimerTask>)
    ensures forall t :: t in r ==> t in ts && !(t.RecentAppsTask? && t.id == id)
    ensures forall t :: t in ts && !(t.RecentAppsTask? && t.id == id) ==> t in r
  {
    if ts == [] then []
    else (if ts[0].RecentAppsTask? && ts[0].id == id then [] else [ts[0]]) + CancelTask(ts[1..], id)
  }

  /** The masks after the drag check: LEFT_UP, RIGHT_UP, BACK_UP and the wheel. */
  function AfterDrag(s: S, mask: int, longPressDuration: nat, now: int): Step
  {
    if mask == LEFT_UP then
      if s.lastActionType == ACTION_UP && now - s.lastEventTime < LEFT_DEDUP_WINDOW then Step(s, [])
      else if s.leftIsDown then
        InjectMotion(s.(leftIsDown := false, isWaitingLongPress := false), ACTION_UP, s.mouseX, s.mouseY, false, now)
      else Step(s, [])
    else if mask == RIGHT_UP then LongPressStep(s, s.mouseX, s.mouseY, longPressDuration, now)
    else if mask == BACK_UP then InjectKey(s, KEYCODE_BACK, KEY_ACTION_DOWN, now)
    else if mask == WHEEL_BUTTON_DOWN then
      var id := s.nextTaskId;
      var s1 := s.(recentActionTask := Some(id), nextTaskId := id + 1);
      if s1.timerCancelled then Step(s1, [])
      else Step(s1.(timerTasks := s1.timerTasks + [RecentAppsTask(id, now + LONG_TAP_DELAY)]), [])
    else if mask == WHEEL_BUTTON_UP then
      match s.recentActionTask
      case None => Step(s, [])
      case Some(id) => InjectKey(s.(timerTasks := CancelTask(s.timerTasks, id)), KEYCODE_HOME, KEY_ACTION_DOWN, now)
    else if mask == WHEEL_DOWN then ScrollStep(s, s.mouseX, s.mouseY, 0, -WHEEL_STEP, now)
    else if mask == WHEEL_UP then ScrollStep(s, s.mouseX, s.mouseY, 0, WHEEL_STEP, now)
    else Step(s, [])
  }

  function MouseStep(s: S, mask: int, x0: int, y0: int, scale: int, longPressDuration: nat, now: int): Step
  {
    var x, y := Max(0, x0), Max(0, y0);
    var m := if mask == 0 || mask == LEFT_MOVE then MoveTo(s, x, y, scale, now) else Step(s, []);
    if mask == LEFT_DOWN then LeftDown(s, longPressDuration, now)
    else
      var d := DragIfDown(m, now);
      Then(d, AfterDrag(d.s, mask, longPressDuration, now))
  }

  // ---- onTouchInput ----

  function TouchStep(s: S, mask: int, x: int, y: int, now: int): Step
  {
    if mask == TOUCH_SCALE_START then Step(s.(lastX := x, lastY := y), [])
    else if mask == TOUCH_SCALE then
      var dx, dy := x - s.lastX, y - s.lastY;
      Step(s.(lastX := x, lastY := y), [Request(Pinch(x - dx, y - dy, x + dx, y + dy, now), None)])
    else if mask == TOUCH_SCALE_END then Step(s, [])
    else if mask == TOUCH_PAN_START then
      if s.lastActionType == ACTION_DOWN && now - s.lastEventTime < PAN_DEDUP_WINDOW then Step(s, [])
      else InjectMotion(s.(lastX := x, lastY := y), ACTION_DOWN, x, y, false, now)
    else if mask == TOUCH_PAN_UPDATE then
      var m := InjectMotion(s, ACTION_MOVE, x, y, false, now);
      Step(m.s.(lastX := x, lastY := y), m.out)
    else if mask == TOUCH_PAN_END then
      if s.lastActionType == ACTION_UP && now - s.lastEventTime < PAN_DEDUP_WINDOW then Step(s, [])
      else InjectMotion(s, ACTION_UP, x, y, false, now)
    else Step(s, [])
  }

  // ---- onKeyEvent / handleControlKey ----

  /** The `union` oneof of the protobuf `KeyEvent`: at most one of its fields is set. */
  datatype KeyUnion =
    | ControlKeyField(key: ControlKey)
    | ChrField(chr: Int32)
    | SeqField(text: seq<U16>)
    | OtherField        // `unicode` or `win2win_hotkey`
    | NoField

  /** A parsed key event: mode number, the oneof, and the down and press flags. */
  datatype KeyMsg = KeyMsg(mode: int, union: KeyUnion, down: bool, press: bool)

  /** `getChr()`: the chr field, or protobuf's default 0 when another field of the oneof is set. */
  function ChrOf(m: KeyMsg): int
  {
    if m.union.ChrField? then m.union.chr else 0
  }

  function KeyAction(down: bool): int
  {
    if down then KEY_ACTION_DOWN else KEY_ACTION_UP
  }

  /** `handleControlKey` returns true exactly for a control key the table maps. */
  predicate HandlesControlKey(m: KeyMsg)
  {
    m.union.ControlKeyField? && ControlKeyCode(m.union.key) != 0
  }

  predicate SupportedMode(mode: int)
  {
    mode == LEGACY_MODE || mode == MAP_MODE || mode == TRANSLATE_MODE
  }

  /** `onKeyEvent` on the result of `KeyEvent.parseFrom`: `None` is a parse failure. */
  function KeyEventStep(s: S, parsed: Option<KeyMsg>, now: int): Step
  {
    match parsed
    case None => Step(s, [])
    case Some(m) =>
      if !SupportedMode(m.mode) then Step(s, [])
      else if HandlesControlKey(m) then InjectKey(s, ControlKeyCode(m.union.key), KeyAction(m.down), now)
      else if m.mode == LEGACY_MODE then
        if m.union.ChrField? && (m.down || m.press) && m.union.chr != 0 then
          match ToChars(m.union.chr)
          case None => Step(s, [])              // Character.toChars throws; onKeyEvent catches it
          case Some(t) => Step(QueueText(s, t), [])
        else InjectKey(s, ChrOf(m), KeyAction(m.down), now)
      else if m.union.SeqField? && m.union.text != [] then Step(QueueText(s, m.union.text), [])
      else InjectKey(s, ChrOf(m), KeyAction(m.down), now)
  }

  // ---- timer and handler callbacks, disableSelf ----

  function RemoveAt<T>(xs: seq<T>, i: nat): (r: seq<T>)
    requires i < |xs|
    ensures |r| == |xs| - 1
    ensures forall j :: 0 <= j < i ==> r[j] == xs[j]
    ensures forall j :: i <= j < |r| ==> r[j] == xs[j + 1]
  {
    xs[..i] + xs[i + 1..]
  }

  /** Runs timer task `i`: a long press, or the recent-apps key. */
  function FireTimerStep(s: S, i: nat, now: int): Step
    requires i < |s.timerTasks|
  {
    var s1 := s.(timerTasks := RemoveAt(s.timerTasks, i));
    match s.timerTasks[i]
    case LongPressTask(_) =>
      if s1.isWaitingLongPress
      then InjectMotion(s1.(isWaitingLongPress := false), ACTION_DOWN, s1.mouseX, s1.mouseY, true, now)
      else Step(s1, [])
    case RecentAppsTask(_, _) =>
      var k := InjectKey(s1, KEYCODE_APP_SWITCH, KEY_ACTION_DOWN, now);
      Step(k.s.(recentActionTask := None), k.out)
  }

  /** Runs handler task `i`: an automatic key-up, or the release of a right-click long press. */
  function FireHandlerStep(s: S, i: nat, now: int): Step
    requires i < |s.handlerTasks|
  {
    var s1 := s.(handlerTasks := RemoveAt(s.handlerTasks, i));
    match s.handlerTasks[i]
    case KeyUpTask(code, _) => InjectKey(s1, code, KEY_ACTION_UP, now)
    case TouchUpTask(x, y, _) => InjectMotion(s1, ACTION_UP, x, y, false, now)
  }

  /** `disableSelf`: drops every handler callback, cancels the timer and unregisters the service. */
  function Disabled(s: S): S
  {
    s.(handlerTasks := [], timerTasks := [], timerCancelled := true, registered := false)
  }

  // =====================================================================
  // Properties
  // =====================================================================

  /**
   * The guard of `injectMotionEvent`. A DOWN or UP that is not a long press
   * and repeats the last action type within 250 ms, and a MOVE within 16 ms
   * of a previous MOVE, are skipped and change nothing. Any other action is
   * sent exactly once. It then records the action type and `now`, and moves
   * `lastDownTime` only on DOWN. The event carries the new down time, and
   * only an UP has a retry: the same event with the same down time, 10 ms
   * later.
   */
  lemma InjectMotionSpec(s: S, action: int, x: int, y: int, isLongPress: bool, now: int)
    ensures var r := InjectMotion(s, action, x, y, isLongPress, now);
      (r.out == [] <==>
        ((!isLongPress && (action == ACTION_DOWN || action == ACTION_UP) && action == s.lastActionType && now - s.lastEventTime < 250)
         || (action == ACTION_MOVE && s.lastActionType == ACTION_MOVE && now - s.lastEventTime < 16)))
      && (r.out == [] ==> r.s == s)
      && (r.out != [] ==>
            |r.out| == 1 &&
            r.s.lastActionType == action && r.s.lastEventTime == now &&
            r.s.lastDownTime == (if action == ACTION_DOWN then now else s.lastDownTime) &&
            r.s == s.(lastActionType := action, lastEventTime := now, lastDownTime := r.s.lastDownTime) &&
            r.out[0].event == Motion(action, x, y, r.s.lastDownTime, now) &&
            (r.out[0].retry.Some? <==> action == ACTION_UP) &&
            (action == ACTION_UP ==> r.out[0].retry.value == Motion(action, x, y, s.lastDownTime, now + 10)))
  {
  }

  /** The guard never holds back a different action type, a long-press DOWN, or anything after its window. */
  lemma GuardLetsThrough(s: S, action: int, x: int, y: int, isLongPress: bool, now: int)
    requires action != s.lastActionType
          || (isLongPress && action != ACTION_MOVE)
          || now - s.lastEventTime >= 250
          || (action == ACTION_MOVE && now - s.lastEventTime >= 16)
    ensures |InjectMotion(s, action, x, y, isLongPress, now).out| == 1
  {
  }

  /**
   * Of two identical DOWNs (or UPs) less than 250 ms apart, only the first
   * reaches the sink, whenever the first one itself passes the guard.
   */
  lemma DuplicatePressSuppressed(s: S, action: int, x: int, y: int, x': int, y': int, t: int, d: int)
    requires action == ACTION_DOWN || action == ACTION_UP
    requires !MotionSkipped(s, action, false, t) && 0 <= d < 250
    ensures var first := InjectMotion(s, action, x, y, false, t);
      |first.out| == 1 && InjectMotion(first.s, action, x', y', false, t + d) == Step(first.s, [])
  {
  }

  /**
   * Mouse move (mask 0 or LEFT_MOVE): the position becomes the clamped
   * coordinates times the scale; a pending long press is dropped exactly
   * when the Manhattan distance from the old position exceeds 8. One MOVE
   * at the new position is requested, skipped only within 16 ms of a
   * previous MOVE; the drag MOVE that follows while the button is held is
   * always throttled away.
   */
  lemma MouseMoveSpec(s: S, mask: int, x0: int, y0: int, scale: int, lpd: nat, now: int)
    requires mask == 0 || mask == LEFT_MOVE
    ensures var r := MouseStep(s, mask, x0, y0, scale, lpd, now);
      var nx, ny := Max(0, x0) * scale, Max(0, y0) * scale;
      r.s.mouseX == nx && r.s.mouseY == ny &&
      r.s.isWaitingLongPress == (s.isWaitingLongPress && Abs(s.mouseX - nx) + Abs(s.mouseY - ny) <= 8) &&
      r.s.leftIsDown == s.leftIsDown &&
      r.s.timerTasks == s.timerTasks && r.s.handlerTasks == s.handlerTasks &&
      (r.out == [] <==> (s.lastActionType == ACTION_MOVE && now - s.lastEventTime < 16)) &&
      (r.out != [] ==> r.out == [Request(Motion(ACTION_MOVE, nx, ny, s.lastDownTime, now), None)])
  {
    var m := MoveTo(s, Max(0, x0), Max(0, y0), scale, now);
    assert (m.s.lastActionType == ACTION_MOVE && m.s.lastEventTime == now) || m.out == [];
  }

  /**
   * LEFT_DOWN: ignored when the last action was a DOWN less than 100 ms ago.
   * Otherwise it marks the button held and a long press pending, arms the
   * long-press timer for `now + longPressDuration` and requests a DOWN at
   * the current position; that DOWN is itself held back by the 250 ms guard
   * when the previous DOWN is 100 to 249 ms old.
   */
  lemma LeftDownSpec(s: S, x0: int, y0: int, scale: int, lpd: nat, now: int)
    ensures var r := MouseStep(s, LEFT_DOWN, x0, y0, scale, lpd, now);
      (s.lastActionType == ACTION_DOWN && now - s.lastEventTime < 100 ==> r == Step(s, [])) &&
      (!(s.lastActionType == ACTION_DOWN && now - s.lastEventTime < 100) && !s.timerCancelled ==>
        r.s.leftIsDown && r.s.isWaitingLongPress &&
        r.s.timerTasks == s.timerTasks + [LongPressTask(now + lpd)] &&
        (r.out == [] <==> (s.lastActionType == ACTION_DOWN && now - s.lastEventTime < 250)) &&
        (r.out != [] ==> r.out == [Request(Motion(ACTION_DOWN, s.mouseX, s.mouseY, now, now), None)]))
  {
  }

  /**
   * When the long-press task fires with the flag still set, it clears the
   * flag and requests a DOWN at the position current at firing time, which
   * the guard never holds back; with the flag cleared it does nothing.
   */
  lemma LongPressFireSpec(s: S, i: nat, now: int)
    requires i < |s.timerTasks| && s.timerTasks[i].LongPressTask?
    ensures var r := FireTimerStep(s, i, now);
      r.s.timerTasks == RemoveAt(s.timerTasks, i) && !r.s.isWaitingLongPress &&
      (s.isWaitingLongPress ==> r.out == [Request(Motion(ACTION_DOWN, s.mouseX, s.mouseY, now, now), None)]) &&
      (!s.isWaitingLongPress ==> r.out == [])
  {
  }

  /**
   * The guarded drag MOVE that runs before every mask other than a move and
   * LEFT_DOWN: sent (unless throttled) exactly while the button is held.
   */
  function HeldDrag(s: S, now: int): Step
  {
    if s.leftIsDown then InjectMotion(s, ACTION_MOVE, s.mouseX, s.mouseY, false, now) else Step(s, [])
  }

  /**
   * Every mask other than a move and LEFT_DOWN first sends the drag MOVE at
   * the current position while the button is held, and then runs its own
   * block on the state that MOVE leaves. Without the button held the mask's
   * block runs on the state as it was.
   */
  lemma HeldButtonDragsFirst(s: S, mask: int, x0: int, y0: int, scale: int, lpd: nat, now: int)
    requires mask != LEFT_DOWN && mask != 0 && mask != LEFT_MOVE
    ensures var d := HeldDrag(s, now);
      MouseStep(s, mask, x0, y0, scale, lpd, now) == Then(d, AfterDrag(d.s, mask, lpd, now))
    ensures !s.leftIsDown ==> MouseStep(s, mask, x0, y0, scale, lpd, now) == AfterDrag(s, mask, lpd, now)
    ensures var d := HeldDrag(s, now);
      d.s.mouseX == s.mouseX && d.s.mouseY == s.mouseY && d.s.leftIsDown == s.leftIsDown &&
      d.s.handlerTasks == s.handlerTasks && d.s.timerTasks == s.timerTasks &&
      d.s.recentActionTask == s.recentActionTask &&
      (s.leftIsDown && !(s.lastActionType == ACTION_MOVE && now - s.lastEventTime < 16) ==>
        d.out == [Request(Motion(ACTION_MOVE, s.mouseX, s.mouseY, s.lastDownTime, now), None)]) &&
      (!s.leftIsDown || (s.lastActionType == ACTION_MOVE && now - s.lastEventTime < 16) ==> d == Step(s, []))
  {
  }

  /**
   * LEFT_UP while the button is held always releases: the drag MOVE leaves
   * MOVE as the last action, so neither the 100 ms check nor the 250 ms
   * guard can hold the UP back. Both flags are cleared and the last request
   * is the UP at the current position with its retry.
   */
  lemma LeftUpWhileHeldReleases(s: S, x0: int, y0: int, scale: int, lpd: nat, now: int)
    requires s.leftIsDown
    ensures var r := MouseStep(s, LEFT_UP, x0, y0, scale, lpd, now);
      !r.s.leftIsDown && !r.s.isWaitingLongPress && 1 <= |r.out| <= 2 &&
      r.out[|r.out| - 1].event.Motion? && r.out[|r.out| - 1].event.action == ACTION_UP &&
      r.out[|r.out| - 1].event.x == s.mouseX && r.out[|r.out| - 1].event.y == s.mouseY &&
      r.out[|r.out| - 1].retry.Some? &&
      (|r.out| == 2 ==> r.out[0].event.Motion? && r.out[0].event.action == ACTION_MOVE)
    ensures MouseStep(s, LEFT_UP, x0, y0, scale, lpd, now).out ==
      HeldDrag(s, now).out +
      [Request(Motion(ACTION_UP, s.mouseX, s.mouseY, s.lastDownTime, now), Some(Motion(ACTION_UP, s.mouseX, s.mouseY, s.lastDownTime, now + 10)))]
  {
    var d := DragIfDown(Step(s, []), now);
    assert d.s.lastActionType == ACTION_MOVE;
  }

  /** LEFT_UP with the button not held changes nothing and sends nothing. */
  lemma LeftUpNotHeldIgnored(s: S, x0: int, y0: int, scale: int, lpd: nat, now: int)
    requires !s.leftIsDown
    ensures MouseStep(s, LEFT_UP, x0, y0, scale, lpd, now) == Step(s, [])
  {
  }

  /**
   * RIGHT_UP is a long press at the current position, after the drag MOVE
   * when the button is held: a guarded DOWN now, and an UP at the same
   * position posted for `now + longPressDuration`.
   */
  lemma RightUpSpec(s: S, x0: int, y0: int, scale: int, lpd: nat, now: int)
    ensures var r := MouseStep(s, RIGHT_UP, x0, y0, scale, lpd, now);
      var d := HeldDrag(s, now);
      r.s.handlerTasks == s.handlerTasks + [TouchUpTask(s.mouseX, s.mouseY, now + lpd)] &&
      r.out == d.out + InjectMotion(d.s, ACTION_DOWN, s.mouseX, s.mouseY, false, now).out
  {
    HeldButtonDragsFirst(s, RIGHT_UP, x0, y0, scale, lpd, now);
  }

  /**
   * BACK_UP presses KEYCODE_BACK, after the drag MOVE when the button is
   * held, and the release is posted 10 ms later.
   */
  lemma BackUpSpec(s: S, x0: int, y0: int, scale: int, lpd: nat, now: int)
    ensures var r := MouseStep(s, BACK_UP, x0, y0, scale, lpd, now);
      var d := HeldDrag(s, now);
      r.out == d.out + [Request(Key(KEY_ACTION_DOWN, KEYCODE_BACK, 0, 0, now, Keyboard), None)] &&
      r.s.handlerTasks == s.handlerTasks + [KeyUpTask(KEYCODE_BACK, now + 10)]
  {
    HeldButtonDragsFirst(s, BACK_UP, x0, y0, scale, lpd, now);
  }

  /**
   * WHEEL_DOWN and WHEEL_UP scroll by -120 and +120 vertically at the
   * current position, after the drag MOVE when the button is held; the
   * scroll itself changes no field, so without the button held nothing changes.
   */
  lemma WheelScrollSpec(s: S, mask: int, x0: int, y0: int, scale: int, lpd: nat, now: int)
    requires mask == WHEEL_DOWN || mask == WHEEL_UP
    ensures var r := MouseStep(s, mask, x0, y0, scale, lpd, now);
      var d := HeldDrag(s, now);
      r.s == d.s && (!s.leftIsDown ==> r.s == s) &&
      r.out == d.out + [Request(ScrollMotion(s.mouseX, s.mouseY, 0, if mask == WHEEL_DOWN then -120 else 120, now), None)]
  {
    HeldButtonDragsFirst(s, mask, x0, y0, scale, lpd, now);
  }

  /**
   * WHEEL_BUTTON_UP with a task reference cancels that task and presses
   * HOME (after the drag MOVE when the button is held), but leaves the
   * reference in place, so a second WHEEL_BUTTON_UP presses HOME again.
   * Without a reference it sends only the drag MOVE.
   */
  lemma WheelButtonUpSpec(s: S, x0: int, y0: int, scale: int, lpd: nat, now: int)
    ensures var r := MouseStep(s, WHEEL_BUTTON_UP, x0, y0, scale, lpd, now);
      var d := HeldDrag(s, now);
      (s.recentActionTask.None? ==> r == d) &&
      (s.recentActionTask.Some? ==>
        r.s.recentActionTask == s.recentActionTask &&
        (forall t :: t in r.s.timerTasks ==> !(t.RecentAppsTask? && t.id == s.recentActionTask.value)) &&
        r.out == d.out + [Request(Key(KEY_ACTION_DOWN, KEYCODE_HOME, 0, 0, now, Keyboard), None)] &&
        var r2 := MouseStep(r.s, WHEEL_BUTTON_UP, x0, y0, scale, lpd, now);
        r2.out != [] && r2.out[|r2.out| - 1] == Request(Key(KEY_ACTION_DOWN, KEYCODE_HOME, 0, 0, now, Keyboard), None))
  {
    HeldButtonDragsFirst(s, WHEEL_BUTTON_UP, x0, y0, scale, lpd, now);
    var d := HeldDrag(s, now);
    if s.recentActionTask.Some? {
      var r := MouseStep(s, WHEEL_BUTTON_UP, x0, y0, scale, lpd, now);
      assert r.s.recentActionTask == s.recentActionTask;
      HeldButtonDragsFirst(r.s, WHEEL_BUTTON_UP, x0, y0, scale, lpd, now);
    }
  }

  /**
   * A quick wheel click (WHEEL_BUTTON_DOWN then WHEEL_BUTTON_UP before the
   * task runs) presses HOME once and leaves no recent-apps task pending,
   * so APP_SWITCH is never pressed.
   */
  lemma WheelClickGivesHome(s: S, x0: int, y0: int, scale: int, lpd: nat, t1: int, t2: int)
    requires !s.leftIsDown && !s.timerCancelled
    requires forall t :: t in s.timerTasks ==> !t.RecentAppsTask?
    ensures var a := MouseStep(s, WHEEL_BUTTON_DOWN, x0, y0, scale, lpd, t1);
      var b := MouseStep(a.s, WHEEL_BUTTON_UP, x0, y0, scale, lpd, t2);
      a.out == [] &&
      b.out == [Request(Key(KEY_ACTION_DOWN, KEYCODE_HOME, 0, 0, t2, Keyboard), None)] &&
      forall t :: t in b.s.timerTasks ==> !t.RecentAppsTask?
  {
    var a := MouseStep(s, WHEEL_BUTTON_DOWN, x0, y0, scale, lpd, t1);
    assert a.s.recentActionTask == Some(s.nextTaskId);
    assert a.s.timerTasks == s.timerTasks + [RecentAppsTask(s.nextTaskId, t1 + 200)];
    WheelButtonUpSpec(a.s, x0, y0, scale, lpd, t2);
  }

  /**
   * A held wheel button: WHEEL_BUTTON_DOWN arms a task due 200 ms later;
   * when it runs it presses APP_SWITCH and clears the reference, so the
   * later WHEEL_BUTTON_UP presses nothing.
   */
  lemma WheelHoldGivesRecents(s: S, x0: int, y0: int, scale: int, lpd: nat, t1: int, t2: int, t3: int)
    requires !s.leftIsDown && !s.timerCancelled
    ensures var a := MouseStep(s, WHEEL_BUTTON_DOWN, x0, y0, scale, lpd, t1);
      var i := |a.s.timerTasks| - 1;
      a.s.timerTasks[i] == RecentAppsTask(s.nextTaskId, t1 + 200) &&
      var f := FireTimerStep(a.s, i, t2);
      f.out == [Request(Key(KEY_ACTION_DOWN, KEYCODE_APP_SWITCH, 0, 0, t2, Keyboard), None)] &&
      f.s.recentActionTask.None? &&
      MouseStep(f.s, WHEEL_BUTTON_UP, x0, y0, scale, lpd, t3).out == []
  {
  }

  /**
   * Pinch (TOUCH_SCALE): one two-pointer MOVE placed symmetrically about the
   * current point, each pointer offset by the delta from the last point,
   * which becomes the current point. No other touch phase starts a pinch,
   * and SCALE_START and SCALE_END request nothing.
   */
  lemma TouchScaleSpec(s: S, x: int, y: int, now: int)
    ensures var r := TouchStep(s, TOUCH_SCALE, x, y, now);
      |r.out| == 1 && r.out[0].retry.None? && r.out[0].event.Pinch? &&
      var p := r.out[0].event;
      p.x0 == s.lastX && p.y0 == s.lastY && p.x0 + p.x1 == 2 * x && p.y0 + p.y1 == 2 * y &&
      p.x1 - p.x0 == 2 * (x - s.lastX) && p.y1 - p.y0 == 2 * (y - s.lastY) &&
      r.s == s.(lastX := x, lastY := y)
    ensures TouchStep(s, TOUCH_SCALE_START, x, y, now) == Step(s.(lastX := x, lastY := y), [])
    ensures TouchStep(s, TOUCH_SCALE_END, x, y, now) == Step(s, [])
  {
  }

  /**
   * PAN_START and PAN_END are dropped within 200 ms of a DOWN or an UP
   * respectively; otherwise they go through the guard. PAN_UPDATE always
   * records the point but its MOVE still goes through the 16 ms throttle.
   */
  lemma TouchPanSpec(s: S, x: int, y: int, now: int)
    ensures s.lastActionType == ACTION_DOWN && now - s.lastEventTime < 200 ==>
      TouchStep(s, TOUCH_PAN_START, x, y, now) == Step(s, [])
    ensures !(s.lastActionType == ACTION_DOWN && now - s.lastEventTime < 200) ==>
      TouchStep(s, TOUCH_PAN_START, x, y, now) == InjectMotion(s.(lastX := x, lastY := y), ACTION_DOWN, x, y, false, now)
    ensures s.lastActionType == ACTION_UP && now - s.lastEventTime < 200 ==>
      TouchStep(s, TOUCH_PAN_END, x, y, now) == Step(s, [])
    ensures !(s.lastActionType == ACTION_UP && now - s.lastEventTime < 200) ==>
      TouchStep(s, TOUCH_PAN_END, x, y, now) == InjectMotion(s, ACTION_UP, x, y, false, now)
    ensures var u := TouchStep(s, TOUCH_PAN_UPDATE, x, y, now);
      u.s.lastX == x && u.s.lastY == y &&
      (u.out == [] <==> (s.lastActionType == ACTION_MOVE && now - s.lastEventTime < 16))
  {
  }

  /**
   * The pan scenario: PAN_START, PAN_UPDATE, PAN_END give a DOWN at the
   * start point, then a MOVE and an UP at the end point, all with the
   * start's down time.
   */
  lemma PanScenario(s: S, x1: int, y1: int, x2: int, y2: int, t1: int, t2: int, t3: int)
    requires !(s.lastActionType == ACTION_DOWN && t1 - s.lastEventTime < 250)
    ensures var a := TouchStep(s, TOUCH_PAN_START, x1, y1, t1);
      var b := TouchStep(a.s, TOUCH_PAN_UPDATE, x2, y2, t2);
      var c := TouchStep(b.s, TOUCH_PAN_END, x2, y2, t3);
      a.out + b.out + c.out == [
        Request(Motion(ACTION_DOWN, x1, y1, t1, t1), None),
        Request(Motion(ACTION_MOVE, x2, y2, t1, t2), None),
        Request(Motion(ACTION_UP, x2, y2, t1, t3), Some(Motion(ACTION_UP, x2, y2, t1, t3 + 10)))]
  {
  }

  /**
   * A mapped control key in any supported mode injects exactly one key
   * action (DOWN when `down`, else UP) of its table code and stops there.
   */
  lemma ControlKeyDispatch(s: S, m: KeyMsg, now: int)
    requires SupportedMode(m.mode) && HandlesControlKey(m)
    ensures var r := KeyEventStep(s, Some(m), now);
      r.out == [Request(Key(KeyAction(m.down), ControlKeyCode(m.union.key), 0, 0, now, Keyboard), None)] &&
      r.s.textJobs == s.textJobs
  {
  }

  /**
   * An unmapped control key falls through: no field of the oneof but the
   * control key is set, so `getChr()` is 0 and the raw path injects key
   * code 0, DOWN or UP by `down`.
   */
  lemma UnmappedControlKeyFallsThrough(s: S, m: KeyMsg, now: int)
    requires SupportedMode(m.mode) && m.union.ControlKeyField? && m.union.key.OtherKey?
    ensures KeyEventStep(s, Some(m), now) == InjectKey(s, 0, KeyAction(m.down), now)
  {
  }

  /**
   * Legacy mode: a nonzero chr with `down` or `press` becomes text (its
   * UTF-16 form) and no key is injected; an invalid code point makes
   * `Character.toChars` throw and nothing happens at all.
   */
  lemma LegacyChrDispatch(s: S, m: KeyMsg, now: int)
    requires m.mode == LEGACY_MODE && m.union.ChrField? && m.union.chr != 0 && (m.down || m.press)
    ensures var r := KeyEventStep(s, Some(m), now);
      r.out == [] &&
      (m.union.chr < 0 || m.union.chr > 0x10_FFFF ==> r.s == s) &&
      (0 < m.union.chr <= 0x10_FFFF ==>
        r.s == s.(textJobs := s.textJobs + [ToChars(m.union.chr).value]) &&
        CodePointOf(ToChars(m.union.chr).value) == m.union.chr)
  {
    ToCharsRoundTrip(m.union.chr);
  }

  /** Translate and map modes hand a non-empty text sequence to the text worker and inject nothing. */
  lemma SeqDispatch(s: S, m: KeyMsg, now: int)
    requires (m.mode == TRANSLATE_MODE || m.mode == MAP_MODE) && m.union.SeqField? && m.union.text != []
    ensures KeyEventStep(s, Some(m), now) == Step(s.(textJobs := s.textJobs + [m.union.text]), [])
  {
  }

  /**
   * Otherwise the chr value is injected as a raw key code, DOWN or UP by
   * `down`: in legacy mode when chr is absent or 0 or neither flag is set,
   * in the other modes when there is no non-empty text.
   */
  lemma RawKeyDispatch(s: S, m: KeyMsg, now: int)
    requires SupportedMode(m.mode) && !HandlesControlKey(m)
    requires m.mode == LEGACY_MODE ==> !(m.union.ChrField? && (m.down || m.press) && m.union.chr != 0)
    requires m.mode != LEGACY_MODE ==> !(m.union.SeqField? && m.union.text != [])
    ensures KeyEventStep(s, Some(m), now) == InjectKey(s, ChrOf(m), KeyAction(m.down), now)
  {
  }

  /** A parse failure or an unsupported mode injects nothing and changes nothing. */
  lemma KeyEventDropped(s: S, parsed: Option<KeyMsg>, now: int)
    requires parsed.None? || !SupportedMode(parsed.value.mode)
    ensures KeyEventStep(s, parsed, now) == Step(s, [])
  {
  }

  /**
   * Every DOWN through `injectKeyEvent` posts an UP of the same key code,
   * due after the class delay; an UP posts nothing. The posted task, when
   * it runs, injects exactly that UP and posts nothing further.
   */
  lemma KeyDownSchedulesRelease(s: S, keyCode: int, now: int, t: int)
    ensures var d := InjectKey(s, keyCode, KEY_ACTION_DOWN, now);
      var i := |d.s.handlerTasks| - 1;
      d.s.handlerTasks == s.handlerTasks + [KeyUpTask(keyCode, now + AutoUpDelay(keyCode))] &&
      var f := FireHandlerStep(d.s, i, t);
      f.out == [Request(Key(KEY_ACTION_UP, keyCode, 0, 0, t, Keyboard), None)] &&
      f.s.handlerTasks == s.handlerTasks
    ensures InjectKey(s, keyCode, KEY_ACTION_UP, now).s == s
  {
    var d := InjectKey(s, keyCode, KEY_ACTION_DOWN, now);
    assert RemoveAt(d.s.handlerTasks, |d.s.handlerTasks| - 1) == s.handlerTasks;
  }

  /**
   * An explicit key-up does not cancel the automatic one: a key down followed
   * by its explicit up still leaves the automatic UP pending.
   */
  lemma ExplicitUpKeepsAutoUp(s: S, m: KeyMsg, m': KeyMsg, t1: int, t2: int)
    requires SupportedMode(m.mode) && HandlesControlKey(m) && m.down
    requires m' == m.(down := false)
    ensures var a := KeyEventStep(s, Some(m), t1);
      var b := KeyEventStep(a.s, Some(m'), t2);
      b.out == [Request(Key(KEY_ACTION_UP, ControlKeyCode(m.union.key), 0, 0, t2, Keyboard), None)] &&
      KeyUpTask(ControlKeyCode(m.union.key), t1 + AutoUpDelay(ControlKeyCode(m.union.key))) in b.s.handlerTasks
  {
  }

  /** After `disableSelf` nothing is pending on the timer or the handler, and no new timer task can be armed. */
  lemma DisableSelfSpec(s: S, x0: int, y0: int, scale: int, lpd: nat, now: int)
    ensures var d := Disabled(s);
      d.timerTasks == [] && d.handlerTasks == [] && !d.registered &&
      MouseStep(d, LEFT_DOWN, x0, y0, scale, lpd, now).s.timerTasks == [] &&
      MouseStep(d, WHEEL_BUTTON_DOWN, x0, y0, scale, lpd, now).s.timerTasks == []
  {
  }
}
