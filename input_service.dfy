/**
 * The input service as the object it is in `InputService.kt`: its fields are
 * updated in place by the entry points, in the order the Kotlin code does.
 * The sink (`injectEvent`, the reflective call into `InputManager`) is
 * modelled by `InjectEvent`, which records each call and the answer it got
 * in the ghost `log`; the answer is not under the service's control. Each
 * method is proved to move the fields exactly as the matching step
 * function of `InputModel` does and to extend the log by sink calls that
 * carry out that step's requests.
 */
module InputServiceClass {
  import opened Wrappers
  import opened AndroidCodes
  import opened InputEvents
  import opened KeyMapping
  import opened InputModel

  class InputService {
    var leftIsDown: bool
    var isWaitingLongPress: bool
    var mouseX: int
    var mouseY: int
    var lastX: int
    var lastY: int
    var lastActionType: int
    var lastEventTime: int
    var lastDownTime: int
    var recentActionTask: Option<nat>
    var nextTaskId: nat
    var timerTasks: seq<TimerTask>
    var timerCancelled: bool
    var handlerTasks: seq<HandlerTask>
    var textJobs: seq<seq<U16>>
    var registered: bool
    /** Tap timeout plus long-press timeout, read from the system configuration. */
    const longPressDuration: nat
    /** Every call made to the injection sink so far, with its answer. */
    ghost var log: seq<Injection>

    /** The fields of the service as a value (everything but the sink's log). */
    function Snapshot(): S
      reads this`leftIsDown, this`isWaitingLongPress, this`mouseX, this`mouseY,
        this`lastX, this`lastY, this`lastActionType, this`lastEventTime,
        this`lastDownTime, this`recentActionTask, this`nextTaskId, this`timerTasks,
        this`timerCancelled, this`handlerTasks, this`textJobs, this`registered
    {
      S(leftIsDown, isWaitingLongPress, mouseX, mouseY, lastX, lastY,
        lastActionType, lastEventTime, lastDownTime, recentActionTask, nextTaskId,
        timerTasks, timerCancelled, handlerTasks, textJobs, registered)
    }

    /** Creation followed by `initializeWithContext`, which registers the service. */
    constructor (longPressDuration: nat)
      ensures Snapshot() == Initial() && log == []
      ensures this.longPressDuration == longPressDuration
    {
      leftIsDown, isWaitingLongPress := false, false;
      mouseX, mouseY, lastX, lastY := 0, 0, 0, 0;
      lastActionType, lastEventTime, lastDownTime := -1, 0, 0;
      recentActionTask, nextTaskId := None, 0;
      timerTasks, timerCancelled := [], false;
      handlerTasks, textJobs := [], [];
      registered := true;
      this.longPressDuration := longPressDuration;
      log := [];
    }

    /** The sink: hands one event to the system, which accepts it or not. */
    method InjectEvent(e: Event) returns (ok: bool)
      modifies this`log
      ensures log == old(log) + [Injection(e, ok)]
    {
      ok :| true;
      log := log + [Injection(e, ok)];
    }

    /**
     * `injectMotionEvent`: the guard, the bookkeeping of the last action,
     * one sink call, and one retry 10 ms later for a failed UP. The answer
     * is true for a skipped event and otherwise the sink's last answer.
     */
    method InjectMotionEvent(action: int, x: int, y: int, isLongPress: bool, now: int) returns (ok: bool)
      modifies this`lastActionType, this`lastEventTime, this`lastDownTime, this`log
      ensures Snapshot() == InjectMotion(old(Snapshot()), action, x, y, isLongPress, now).s
      ensures LogExtends(old(log), log, InjectMotion(old(Snapshot()), action, x, y, isLongPress, now).out)
      ensures MotionSkipped(old(Snapshot()), action, isLongPress, now) ==> ok && log == old(log)
      ensures !MotionSkipped(old(Snapshot()), action, isLongPress, now) ==> |log| > |old(log)| && ok == log[|log| - 1].ok
    {
      if !isLongPress && (action == ACTION_DOWN || action == ACTION_UP) &&
         action == lastActionType && now - lastEventTime < MOTION_DEDUP_WINDOW {
        LogExtendsRefl(log);
        return true;
      }
      if action == ACTION_MOVE && action == lastActionType && now - lastEventTime < MOVE_THROTTLE {
        LogExtendsRefl(log);
        return true;
      }
      var downTime := RecordMotion(action, now);
      var retry := if action == ACTION_UP then Some(Motion(action, x, y, downTime, now + UP_RETRY_DELAY)) else None;
      ok := SendRequest(Request(Motion(action, x, y, downTime, now), retry));
    }

    /** The bookkeeping of an event that passed the guard: its action, its time and, for a DOWN, the gesture's start. */
    method RecordMotion(action: int, now: int) returns (downTime: int)
      modifies this`lastActionType, this`lastEventTime, this`lastDownTime
      ensures downTime == if action == ACTION_DOWN then now else old(lastDownTime)
      ensures Snapshot() == old(Snapshot()).(lastActionType := action, lastEventTime := now, lastDownTime := downTime)
    {
      lastActionType := action;
      lastEventTime := now;
      downTime := if action == ACTION_DOWN then now else lastDownTime;
      if action == ACTION_DOWN {
        lastDownTime := downTime;
      }
    }

    /** One request to the sink: its event, then its retry event if the sink refused the first. */
    method SendRequest(req: Request) returns (ok: bool)
      modifies this`log
      ensures LogExtends(old(log), log, [req])
      ensures |log| > |old(log)| && ok == log[|log| - 1].ok
    {
      ghost var l0 := log;
      var result := InjectEvent(req.event);
      if !result && req.retry.Some? {
        var retryResult := InjectEvent(req.retry.value);
        LogExtendsRetry(l0, Injection(req.event, result), Injection(req.retry.value, retryResult), req);
        return retryResult;
      }
      LogExtendsSingle(l0, Injection(req.event, result), req);
      return result;
    }

    /** `injectKeyEvent`: one key event; a DOWN posts its own UP after the key's delay. */
    method InjectKeyEvent(keyCode: int, action: int, now: int) returns (ok: bool)
      modifies this`handlerTasks, this`log
      ensures Snapshot() == InjectKey(old(Snapshot()), keyCode, action, now).s
      ensures LogExtends(old(log), log, InjectKey(old(Snapshot()), keyCode, action, now).out)
      ensures log == old(log) + [Injection(Key(action, keyCode, 0, 0, now, Keyboard), ok)]
    {
      ghost var l0 := log;
      var event := Key(action, keyCode, 0, 0, now, Keyboard);
      ok := InjectEvent(event);
      if action == KEY_ACTION_DOWN {
        var delay := AutoUpDelay(keyCode);
        handlerTasks := handlerTasks + [KeyUpTask(keyCode, now + delay)];
      }
      LogExtendsSingle(l0, Injection(event, ok), Request(event, None));
    }

    /** `injectLongPress`: a DOWN now and an UP at the same point posted for later. */
    method InjectLongPress(x: int, y: int, now: int) returns (ok: bool)
      modifies this`handlerTasks, this`lastActionType, this`lastEventTime, this`lastDownTime, this`log
      ensures Snapshot() == LongPressStep(old(Snapshot()), x, y, longPressDuration, now).s
      ensures LogExtends(old(log), log, LongPressStep(old(Snapshot()), x, y, longPressDuration, now).out)
    {
      ok := InjectMotionEvent(ACTION_DOWN, x, y, false, now);
      handlerTasks := handlerTasks + [TouchUpTask(x, y, now + longPressDuration)];
    }

    /** `injectScroll`: one mouse scroll event with the given axis values. */
    method InjectScroll(x: int, y: int, h: int, v: int, now: int) returns (ok: bool)
      modifies this`log
      ensures LogExtends(old(log), log, ScrollStep(old(Snapshot()), x, y, h, v, now).out)
      ensures log == old(log) + [Injection(ScrollMotion(x, y, h, v, now), ok)]
    {
      var event := ScrollMotion(x, y, h, v, now);
      ghost var l0 := log;
      ok := InjectEvent(event);
      LogExtendsSingle(l0, Injection(event, ok), Request(event, None));
    }

    /** `injectText`: false for an empty text; otherwise a worker is started for it. */
    method InjectText(text: seq<U16>) returns (ok: bool)
      modifies this`textJobs
      ensures ok <==> text != []
      ensures Snapshot() == QueueText(old(Snapshot()), text)
    {
      if text == [] {
        return false;
      }
      textJobs := textJobs + [text];
      return true;
    }

    /**
     * `onMouseInput`: the coordinates are clamped at 0, then the blocks of
     * the Kotlin method run in order: the move, LEFT_DOWN (which ends the
     * call), the drag while held, and the remaining masks.
     */
    method OnMouseInput(mask: int, x0: int, y0: int, scale: int, now: int)
      modifies this
      ensures Snapshot() == MouseStep(old(Snapshot()), mask, x0, y0, scale, longPressDuration, now).s
      ensures LogExtends(old(log), log, MouseStep(old(Snapshot()), mask, x0, y0, scale, longPressDuration, now).out)
    {
      ghost var s0, l0 := Snapshot(), log;
      var x, y := Max(0, x0), Max(0, y0);
      if mask == 0 || mask == LEFT_MOVE {
        MovePointer(x, y, scale, now);
      } else {
        LogExtendsRefl(log);
      }
      ghost var m := if mask == 0 || mask == LEFT_MOVE then MoveTo(s0, x, y, scale, now) else Step(s0, []);
      if mask == LEFT_DOWN {
        LeftButtonDown(now);
        return;
      }
      ghost var l1 := log;
      DragIfHeld(now);
      ghost var l2 := log;
      LogExtendsTrans(l0, l1, l2, m.out, DragIfDown(Step(m.s, []), now).out);
      ghost var d := DragIfDown(m, now);
      assert d.out == m.out + DragIfDown(Step(m.s, []), now).out;
      ButtonAction(mask, now);
      LogExtendsTrans(l0, l2, log, d.out, AfterDrag(d.s, mask, longPressDuration, now).out);
    }

    /** The move block: scaled position, long-press jitter check, MOVE. */
    method MovePointer(x: int, y: int, scale: int, now: int)
      modifies this`mouseX, this`mouseY, this`isWaitingLongPress, this`lastActionType, this`lastEventTime, this`lastDownTime, this`log
      ensures Snapshot() == MoveTo(old(Snapshot()), x, y, scale, now).s
      ensures LogExtends(old(log), log, MoveTo(old(Snapshot()), x, y, scale, now).out)
    {
      var oldX, oldY := mouseX, mouseY;
      mouseX := x * scale;
      mouseY := y * scale;
      if isWaitingLongPress {
        var delta := Abs(oldX - mouseX) + Abs(oldY - mouseY);
        if delta > LONG_PRESS_JITTER {
          isWaitingLongPress := false;
        }
      }
      var _ := InjectMotionEvent(ACTION_MOVE, mouseX, mouseY, false, now);
    }

    /** The LEFT_DOWN block: duplicate check, long-press timer, DOWN. */
    method LeftButtonDown(now: int)
      modifies this`isWaitingLongPress, this`timerTasks, this`leftIsDown, this`lastActionType, this`lastEventTime, this`lastDownTime, this`log
      ensures Snapshot() == LeftDown(old(Snapshot()), longPressDuration, now).s
      ensures LogExtends(old(log), log, LeftDown(old(Snapshot()), longPressDuration, now).out)
    {
      if lastActionType == ACTION_DOWN && now - lastEventTime < LEFT_DEDUP_WINDOW {
        LogExtendsRefl(log);
        return;
      }
      isWaitingLongPress := true;
      if timerCancelled {
        LogExtendsRefl(log);
        return;   // Timer.schedule throws on a cancelled timer
      }
      timerTasks := timerTasks + [LongPressTask(now + longPressDuration)];
      leftIsDown := true;
      var _ := InjectMotionEvent(ACTION_DOWN, mouseX, mouseY, false, now);
    }

    /** The drag block: a MOVE at the current position while the left button is held. */
    method DragIfHeld(now: int)
      modifies this
      ensures Snapshot() == DragIfDown(Step(old(Snapshot()), []), now).s
      ensures LogExtends(old(log), log, DragIfDown(Step(old(Snapshot()), []), now).out)
    {
      if leftIsDown {
        ghost var s0 := Snapshot();
        var _ := InjectMotionEvent(ACTION_MOVE, mouseX, mouseY, false, now);
        assert DragIfDown(Step(s0, []), now).out == InjectMotion(s0, ACTION_MOVE, s0.mouseX, s0.mouseY, false, now).out;
      } else {
        LogExtendsRefl(log);
      }
    }

    /** The blocks after the drag: LEFT_UP, RIGHT_UP, BACK_UP, the wheel button and the wheel. */
    method ButtonAction(mask: int, now: int)
      modifies this
      ensures Snapshot() == AfterDrag(old(Snapshot()), mask, longPressDuration, now).s
      ensures LogExtends(old(log), log, AfterDrag(old(Snapshot()), mask, longPressDuration, now).out)
    {
      if mask == LEFT_UP {
        LeftButtonUp(now);
      } else if mask == RIGHT_UP {
        var _ := InjectLongPress(mouseX, mouseY, now);
      } else if mask == BACK_UP {
        var _ := InjectKeyEvent(KEYCODE_BACK, KEY_ACTION_DOWN, now);
      } else if mask == WHEEL_BUTTON_DOWN {
        WheelButtonDown(now);
      } else if mask == WHEEL_BUTTON_UP {
        WheelButtonUp(now);
      } else if mask == WHEEL_DOWN {
        var _ := InjectScroll(mouseX, mouseY, 0, -WHEEL_STEP, now);
      } else if mask == WHEEL_UP {
        var _ := InjectScroll(mouseX, mouseY, 0, WHEEL_STEP, now);
      } else {
        LogExtendsRefl(log);
      }
    }

    /** The LEFT_UP block: duplicate check, then an UP if the left button is held. */
    method LeftButtonUp(now: int)
      modifies this
      ensures Snapshot() == AfterDrag(old(Snapshot()), LEFT_UP, longPressDuration, now).s
      ensures LogExtends(old(log), log, AfterDrag(old(Snapshot()), LEFT_UP, longPressDuration, now).out)
    {
      if lastActionType == ACTION_UP && now - lastEventTime < LEFT_DEDUP_WINDOW {
        LogExtendsRefl(log);
        return;
      }
      if leftIsDown {
        leftIsDown := false;
        isWaitingLongPress := false;
        var _ := InjectMotionEvent(ACTION_UP, mouseX, mouseY, false, now);
      } else {
        LogExtendsRefl(log);
      }
    }

    /** The WHEEL_BUTTON_DOWN block: a fresh recent-apps task 200 ms later. */
    method WheelButtonDown(now: int)
      modifies this
      ensures Snapshot() == AfterDrag(old(Snapshot()), WHEEL_BUTTON_DOWN, longPressDuration, now).s
      ensures log == old(log)
    {
      // timer.purge(): cancelled tasks are never kept in timerTasks
      var id := nextTaskId;
      nextTaskId := nextTaskId + 1;
      recentActionTask := Some(id);
      if !timerCancelled {   // Timer.schedule throws on a cancelled timer
        timerTasks := timerTasks + [RecentAppsTask(id, now + LONG_TAP_DELAY)];
      }
      LogExtendsRefl(log);
    }

    /** The WHEEL_BUTTON_UP block: cancel the recent-apps task and press HOME, if one was scheduled. */
    method WheelButtonUp(now: int)
      modifies this
      ensures Snapshot() == AfterDrag(old(Snapshot()), WHEEL_BUTTON_UP, longPressDuration, now).s
      ensures LogExtends(old(log), log, AfterDrag(old(Snapshot()), WHEEL_BUTTON_UP, longPressDuration, now).out)
    {
      if recentActionTask.Some? {
        timerTasks := CancelTask(timerTasks, recentActionTask.value);
        var _ := InjectKeyEvent(KEYCODE_HOME, KEY_ACTION_DOWN, now);
      } else {
        LogExtendsRefl(log);
      }
    }

    /** `onTouchInput`, statement by statement. */
    method OnTouchInput(mask: int, x: int, y: int, now: int)
      modifies this
      ensures Snapshot() == TouchStep(old(Snapshot()), mask, x, y, now).s
      ensures LogExtends(old(log), log, TouchStep(old(Snapshot()), mask, x, y, now).out)
    {
      if mask == TOUCH_SCALE_START {
        lastX, lastY := x, y;
        LogExtendsRefl(log);
      } else if mask == TOUCH_SCALE {
        TouchScale(x, y, now);
      } else if mask == TOUCH_PAN_START {
        TouchPanStart(x, y, now);
      } else if mask == TOUCH_PAN_UPDATE {
        var _ := InjectMotionEvent(ACTION_MOVE, x, y, false, now);
        lastX, lastY := x, y;
      } else if mask == TOUCH_PAN_END {
        TouchPanEnd(x, y, now);
      } else {
        LogExtendsRefl(log);
      }
    }

    /** The SCALE block: a pinch mirrored about the new point by the finger's movement. */
    method TouchScale(x: int, y: int, now: int)
      modifies this
      ensures Snapshot() == TouchStep(old(Snapshot()), TOUCH_SCALE, x, y, now).s
      ensures LogExtends(old(log), log, TouchStep(old(Snapshot()), TOUCH_SCALE, x, y, now).out)
    {
      var deltaX, deltaY := x - lastX, y - lastY;
      lastX, lastY := x, y;
      var event := Pinch(x - deltaX, y - deltaY, x + deltaX, y + deltaY, now);
      ghost var l0 := log;
      var ok := InjectEvent(event);
      LogExtendsSingle(l0, Injection(event, ok), Request(event, None));
    }

    /** The PAN_START block: duplicate check, then a DOWN at the new point. */
    method TouchPanStart(x: int, y: int, now: int)
      modifies this
      ensures Snapshot() == TouchStep(old(Snapshot()), TOUCH_PAN_START, x, y, now).s
      ensures LogExtends(old(log), log, TouchStep(old(Snapshot()), TOUCH_PAN_START, x, y, now).out)
    {
      if lastActionType == ACTION_DOWN && now - lastEventTime < PAN_DEDUP_WINDOW {
        LogExtendsRefl(log);
        return;
      }
      lastX, lastY := x, y;
      var _ := InjectMotionEvent(ACTION_DOWN, x, y, false, now);
    }

    /** The PAN_END block: duplicate check, then an UP at the new point. */
    method TouchPanEnd(x: int, y: int, now: int)
      modifies this
      ensures Snapshot() == TouchStep(old(Snapshot()), TOUCH_PAN_END, x, y, now).s
      ensures LogExtends(old(log), log, TouchStep(old(Snapshot()), TOUCH_PAN_END, x, y, now).out)
    {
      if lastActionType == ACTION_UP && now - lastEventTime < PAN_DEDUP_WINDOW {
        LogExtendsRefl(log);
        return;
      }
      var _ := InjectMotionEvent(ACTION_UP, x, y, false, now);
    }

    /** `handleControlKey`: true, after injecting its key, exactly for a control key the table maps. */
    method HandleControlKey(m: KeyMsg, now: int) returns (handled: bool)
      modifies this
      ensures handled <==> HandlesControlKey(m)
      ensures handled ==> Snapshot() == InjectKey(old(Snapshot()), ControlKeyCode(m.union.key), KeyAction(m.down), now).s
      ensures handled ==> LogExtends(old(log), log, InjectKey(old(Snapshot()), ControlKeyCode(m.union.key), KeyAction(m.down), now).out)
      ensures !handled ==> Snapshot() == old(Snapshot()) && log == old(log)
    {
      if m.union.ControlKeyField? {
        var action := if m.down then KEY_ACTION_DOWN else KEY_ACTION_UP;
        var keyCode := ControlKeyCode(m.union.key);
        if keyCode != 0 {
          var _ := InjectKeyEvent(keyCode, action, now);
          return true;
        }
      }
      return false;
    }

    /** `onKeyEvent` on the parsed message; `None` stands for a message that does not parse. */
    method OnKeyEvent(parsed: Option<KeyMsg>, now: int)
      modifies this
      ensures Snapshot() == KeyEventStep(old(Snapshot()), parsed, now).s
      ensures LogExtends(old(log), log, KeyEventStep(old(Snapshot()), parsed, now).out)
    {
      LogExtendsRefl(log);
      if parsed.None? {
        return;   // parseFrom throws; the exception is caught
      }
      var keyEvent := parsed.value;
      if keyEvent.mode == LEGACY_MODE {
        var handled := HandleControlKey(keyEvent, now);
        if handled {
          return;
        }
        var keyCode := ChrOf(keyEvent);
        var down := keyEvent.down;
        if keyEvent.union.ChrField? && (down || keyEvent.press) {
          var chr := keyEvent.union.chr;
          if chr != 0 {
            match ToChars(chr)
            case None =>
              return;   // Character.toChars throws; the exception is caught
            case Some(text) =>
              var _ := InjectText(text);
              return;
          }
        }
        if down {
          var _ := InjectKeyEvent(keyCode, KEY_ACTION_DOWN, now);
        } else {
          var _ := InjectKeyEvent(keyCode, KEY_ACTION_UP, now);
        }
      } else if keyEvent.mode == TRANSLATE_MODE || keyEvent.mode == MAP_MODE {
        var handled := HandleControlKey(keyEvent, now);
        if handled {
          return;
        }
        if keyEvent.union.SeqField? && keyEvent.union.text != [] {
          var _ := InjectText(keyEvent.union.text);
          return;
        }
        var keyCode := ChrOf(keyEvent);
        if keyEvent.down {
          var _ := InjectKeyEvent(keyCode, KEY_ACTION_DOWN, now);
        } else {
          var _ := InjectKeyEvent(keyCode, KEY_ACTION_UP, now);
        }
      }
      // any other mode is unsupported and ignored
    }

    /**
     * The worker thread of `injectText`, run for pending job `i`: each
     * UTF-16 unit becomes the key events of the virtual keyboard's
     * character map or, where that has none, the events of
     * `getEventsForChar`; each event is handed to the sink once, whatever
     * it answers.
     */
    method RunTextJob(i: nat, charMap: CharMap, now: int)
      requires i < |textJobs|
      modifies this`textJobs, this`log
      ensures Snapshot() == old(Snapshot()).(textJobs := RemoveAt(old(textJobs), i))
      ensures |old(log)| <= |log| && log[..|old(log)|] == old(log)
      ensures Events(log[|old(log)|..]) == TextEvents(old(textJobs)[i], charMap, now)
      ensures LogExtends(old(log), log, NoRetry(TextEvents(old(textJobs)[i], charMap, now)))
    {
      var text := textJobs[i];
      textJobs := RemoveAt(textJobs, i);
      ghost var s1, l0 := Snapshot(), log;
      var k := 0;
      while k < |text|
        invariant 0 <= k <= |text|
        invariant Snapshot() == s1
        invariant |l0| <= |log| && log[..|l0|] == l0
        invariant Events(log[|l0|..]) == TextEvents(text[..k], charMap, now)
      {
        var c := text[k];
        var events := match charMap(c) case Some(evs) => evs case None => GetEventsForChar(c, now);
        assert events == CharEvents(c, charMap, now);
        ghost var lk := log;
        InjectAll(events);
        EventsOfExtension(l0, lk, log);
        TextEventsStep(text, k, charMap, now);
        k := k + 1;
      }
      assert text[..k] == text;
      RealisesNoRetry(TextEvents(text, charMap, now), log[|l0|..]);
    }

    /** The inner loop of the text worker: each event to the sink once, in order. */
    method InjectAll(events: seq<Event>)
      modifies this`log
      ensures |old(log)| <= |log| && log[..|old(log)|] == old(log)
      ensures Events(log[|old(log)|..]) == events
    {
      var j := 0;
      while j < |events|
        invariant 0 <= j <= |events|
        invariant |old(log)| <= |log| && log[..|old(log)|] == old(log)
        invariant Events(log[|old(log)|..]) == events[..j]
      {
        ghost var lj := log;
        var _ := InjectEvent(events[j]);
        assert log[|old(log)|..] == lj[|old(log)|..] + [log[|log| - 1]];
        assert events[..j + 1] == events[..j] + [events[j]];
        j := j + 1;
      }
      assert events[..j] == events;
    }

    /**
     * The timer thread runs pending task `i`, which is due and no later
     * than any other pending timer task: a long press, or the recent-apps key.
     */
    method FireTimerTask(i: nat, now: int)
      requires i < |timerTasks| && timerTasks[i].due <= now
      requires forall j :: 0 <= j < |timerTasks| ==> timerTasks[i].due <= timerTasks[j].due
      modifies this
      ensures Snapshot() == FireTimerStep(old(Snapshot()), i, now).s
      ensures LogExtends(old(log), log, FireTimerStep(old(Snapshot()), i, now).out)
    {
      var task := timerTasks[i];
      timerTasks := RemoveAt(timerTasks, i);
      match task
      case LongPressTask(_) =>
        if isWaitingLongPress {
          isWaitingLongPress := false;
          var _ := InjectMotionEvent(ACTION_DOWN, mouseX, mouseY, true, now);
        } else {
          LogExtendsRefl(log);
        }
      case RecentAppsTask(_, _) =>
        var _ := InjectKeyEvent(KEYCODE_APP_SWITCH, KEY_ACTION_DOWN, now);
        recentActionTask := None;
    }

    /**
     * The main looper runs posted callback `i`, which is due and no later
     * than any other posted callback: an automatic key-up or the end of a
     * long press.
     */
    method FireHandlerTask(i: nat, now: int)
      requires i < |handlerTasks| && handlerTasks[i].due <= now
      requires forall j :: 0 <= j < |handlerTasks| ==> handlerTasks[i].due <= handlerTasks[j].due
      modifies this
      ensures Snapshot() == FireHandlerStep(old(Snapshot()), i, now).s
      ensures LogExtends(old(log), log, FireHandlerStep(old(Snapshot()), i, now).out)
    {
      var task := handlerTasks[i];
      handlerTasks := RemoveAt(handlerTasks, i);
      match task
      case KeyUpTask(code, _) =>
        var _ := InjectKeyEvent(code, KEY_ACTION_UP, now);
      case TouchUpTask(x, y, _) =>
        var _ := InjectMotionEvent(ACTION_UP, x, y, false, now);
    }

    /** `disableSelf`: removes every posted callback, cancels the timer, unregisters. */
    method DisableSelf()
      modifies this
      ensures Snapshot() == Disabled(old(Snapshot())) && log == old(log)
    {
      handlerTasks := [];
      timerTasks := [];
      timerCancelled := true;
      registered := false;
    }
  }

  /** One more unit of the text adds that unit's events. */
  lemma TextEventsStep(text: seq<U16>, k: nat, charMap: CharMap, now: int)
    requires k < |text|
    ensures TextEvents(text[..k + 1], charMap, now) == TextEvents(text[..k], charMap, now) + CharEvents(text[k], charMap, now)
  {
    assert text[..k + 1][..k] == text[..k];
  }
}
