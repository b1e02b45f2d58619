# Android server of a remote-desktop client, modelled in Dafny

This project models the Android side of a remote-desktop server. It is
built around the accessibility-style input service, which turns remote
mouse, touch and keyboard messages into injected Android input events.
Most of the work is a set of timing and dedup guards, a long-press timer,
automatic key releases and a text-injection worker. Around that service
the project also models these parts:

- the main service: it routes pointer input and keeps the shared screen
  geometry up to date;
- the audio buffer pool;
- the codec report and permission check of the main activity;
- the build-script repair filter.

The modules, one or more per source file:

- `InputEvents` (input_events.dfy): the events handed to the injection
  sink, the requests the model makes, and `Realises`. `Realises` says that
  a sequence of sink calls carries out a sequence of requests, including
  the single retry of a failed UP.
- `KeyMapping` (key_mapping.dfy): the pure tables of `InputService.kt`:
  - the control-key table of `handleControlKey`;
  - the automatic key-up delays;
  - `Character.toChars`;
  - `getEventsForChar` and `createFallbackKeyEvents`;
  - the events the text worker produces.
- `InputModel` (input_model.dfy): the service's fields as a value `S`, with
  one step function per entry point. Each step returns the new state and
  the requests sent to the sink, in order. The module also holds the
  lemmas that state what each entry point does.
- `InputServiceClass` (input_service.dfy): the service as a class whose
  fields its methods update in place, statement by statement as in the
  Kotlin code. Calls to the sink are logged in a ghost `log` together
  with the answer they got. Every method is proved to move the fields as
  its step function says, and to extend the log by calls that carry out
  the step's requests.
- `MainServiceModel` (main_service.dfy):
  - `rustPointerInput`, `updateScreenInfo` and the `half_scale` branch of
    `rustSetByName`, over a `MainService` class;
  - the text `rustGetByName` returns, with a parser that reads it back;
  - `getClientNotifyID`.
- `Common` (common.dfy): the `Info`/`SCREEN_INFO` record and the
  `AudioReader` buffer pool.
- `Codecs` (main_activity.dfy): the filter of `setCodecInfo` and
  `checkSystemPermissions`.
- `FixBuild` (fix_build.dfy): the line filter of `fix_build.py`.
- `AndroidCodes` and `Wrappers`: shared constants, 32-bit wrap-around and
  Kotlin's truncating division, and `Option`.

Clocks, the sink's answers, `AudioRecord.read`, the window metrics and the
outcome of restarting capture are all parameters of the operations.

## Model

| member | source | states |
|---|---|---|
| InputModel.InjectMotionSpec | flutter/android/app/src/main/kotlin/com/carriez/flutter_hbb/InputService.kt:551-631 | Some events are skipped, change nothing and send nothing: a DOWN or UP that is not a long press and repeats the last action within 250 ms, and a MOVE within 16 ms of a MOVE. Every other event is sent once and records its action and time. The down time moves only on DOWN. Only an UP carries a retry: the same event with the same down time, 10 ms later. |
| InputModel.GuardLetsThrough | flutter/android/app/src/main/kotlin/com/carriez/flutter_hbb/InputService.kt:565-581 | A different action, a long-press DOWN or UP, or an event past its window is always sent. |
| InputModel.DuplicatePressSuppressed | flutter/android/app/src/main/kotlin/com/carriez/flutter_hbb/InputService.kt:565-572 | Of two equal DOWNs (or UPs) less than 250 ms apart, where the first passes the guard, only the first is sent. |
| InputServiceClass.InputService.InjectMotionEvent | flutter/android/app/src/main/kotlin/com/carriez/flutter_hbb/InputService.kt:551-631 | The fields move as `InjectMotion` says, and the log grows by calls that carry it out, including a second call exactly when an UP fails. The answer is true for a skipped event; otherwise it is the sink's last answer. |
| InputServiceClass.InputService.RecordMotion | flutter/android/app/src/main/kotlin/com/carriez/flutter_hbb/InputService.kt:583-589 | An event that passes the guard records its action and time; only a DOWN moves the down time, and the event carries the down time in force after that. |
| InputServiceClass.InputService.SendRequest | flutter/android/app/src/main/kotlin/com/carriez/flutter_hbb/InputService.kt:601-625 | The event goes to the sink once, and its retry goes a second time exactly when the first call fails and a retry exists. The answer is the last call's. |
| InputEvents.RealisesLength | flutter/android/app/src/main/kotlin/com/carriez/flutter_hbb/InputService.kt:606-626 | Each request costs one sink call, or two when it has a retry: the number of calls lies between the number of requests and that number plus the number of retrying requests. |
| InputEvents.RealisesNoRetry | flutter/android/app/src/main/kotlin/com/carriez/flutter_hbb/InputService.kt:742-760 | Events sent without retry are carried out by one call each, whatever the sink answers. |
| InputModel.MouseMoveSpec | flutter/android/app/src/main/kotlin/com/carriez/flutter_hbb/InputService.kt:150-172 | Mask 0 or LEFT_MOVE moves the pointer to the clamped coordinates times the scale. A pending long press is dropped exactly when the Manhattan distance moved exceeds 8. The step sends one MOVE unless the 16 ms throttle holds it back. The drag MOVE that follows is always throttled. |
| InputModel.LeftDownSpec | flutter/android/app/src/main/kotlin/com/carriez/flutter_hbb/InputService.kt:175-197 | LEFT_DOWN within 100 ms of a DOWN changes nothing. Otherwise it marks the button held and a long press pending, arms the long-press timer at now + duration, and sends a DOWN at the current position, subject to the 250 ms guard. |
| InputModel.LongPressFireSpec | flutter/android/app/src/main/kotlin/com/carriez/flutter_hbb/InputService.kt:183-190 | The long-press task, with the flag still set, clears it and sends a long-press DOWN at the position current when it fires. With the flag clear it sends nothing. |
| InputModel.HeldButtonDragsFirst | flutter/android/app/src/main/kotlin/com/carriez/flutter_hbb/InputService.kt:199-203 | Every mask other than a move and LEFT_DOWN first sends the drag MOVE at the current position while the button is held (unless throttled), then runs its own block on the state that MOVE leaves; without the button held the block runs on the unchanged state. |
| InputModel.LeftUpWhileHeldReleases | flutter/android/app/src/main/kotlin/com/carriez/flutter_hbb/InputService.kt:199-221 | LEFT_UP while held always releases: both flags are cleared. The requests are the drag MOVE (unless the 16 ms throttle drops it), then an UP at the current position with the gesture's down time and its retry. |
| InputModel.LeftUpNotHeldIgnored | flutter/android/app/src/main/kotlin/com/carriez/flutter_hbb/InputService.kt:207-221 | LEFT_UP with the button not held changes nothing. |
| InputModel.RightUpSpec | flutter/android/app/src/main/kotlin/com/carriez/flutter_hbb/InputService.kt:199-227 | RIGHT_UP is a long press at the current position: the drag MOVE if the button is held, then a guarded DOWN, and an UP posted for now + duration. |
| InputModel.BackUpSpec | flutter/android/app/src/main/kotlin/com/carriez/flutter_hbb/InputService.kt:199-234 | BACK_UP sends the drag MOVE if the button is held, then a BACK key-down, and posts its release 10 ms later. |
| InputModel.WheelScrollSpec | flutter/android/app/src/main/kotlin/com/carriez/flutter_hbb/InputService.kt:199-265 | WHEEL_DOWN and WHEEL_UP send the drag MOVE if the button is held, then one scroll of -120 or +120 at the pointer. The scroll changes no field, so without the button held the state is unchanged. |
| InputModel.WheelButtonUpSpec | flutter/android/app/src/main/kotlin/com/carriez/flutter_hbb/InputService.kt:199-256 | After the drag MOVE if the button is held: WHEEL_BUTTON_UP with a task reference cancels that task and presses HOME, but keeps the reference, so a second UP presses HOME again. Without a reference it sends only the drag MOVE. |
| InputModel.WheelClickGivesHome | flutter/android/app/src/main/kotlin/com/carriez/flutter_hbb/InputService.kt:236-256 | With the button not held, the timer not cancelled and no recent-apps task pending, a quick wheel click presses HOME once and leaves no recent-apps task pending. |
| InputModel.WheelHoldGivesRecents | flutter/android/app/src/main/kotlin/com/carriez/flutter_hbb/InputService.kt:236-256 | A held wheel button arms a task 200 ms out. When it runs it presses APP_SWITCH and clears the reference, so the later WHEEL_BUTTON_UP sends nothing. |
| InputServiceClass.InputService.OnMouseInput | flutter/android/app/src/main/kotlin/com/carriez/flutter_hbb/InputService.kt:150-266 | The fields move as `MouseStep` says, and the log carries out its requests. |
| InputServiceClass.InputService.MovePointer | flutter/android/app/src/main/kotlin/com/carriez/flutter_hbb/InputService.kt:157-172 | The move block agrees with `MoveTo`. |
| InputServiceClass.InputService.LeftButtonDown | flutter/android/app/src/main/kotlin/com/carriez/flutter_hbb/InputService.kt:175-197 | The LEFT_DOWN block agrees with `LeftDown`, including the abort when the timer is cancelled. |
| InputServiceClass.InputService.DragIfHeld | flutter/android/app/src/main/kotlin/com/carriez/flutter_hbb/InputService.kt:199-203 | The drag block agrees with `DragIfDown`. |
| InputServiceClass.InputService.ButtonAction | flutter/android/app/src/main/kotlin/com/carriez/flutter_hbb/InputService.kt:206-266 | The remaining masks agree with `AfterDrag`. |
| InputServiceClass.InputService.LeftButtonUp | flutter/android/app/src/main/kotlin/com/carriez/flutter_hbb/InputService.kt:206-221 | LEFT_UP within 100 ms of an UP changes nothing. Otherwise, with the button held, it clears both flags and sends a guarded UP; with it not held, nothing happens. |
| InputServiceClass.InputService.WheelButtonDown | flutter/android/app/src/main/kotlin/com/carriez/flutter_hbb/InputService.kt:236-247 | WHEEL_BUTTON_DOWN takes a fresh task id as the recent-apps reference and arms that task 200 ms out, unless the timer was cancelled; it sends nothing. |
| InputServiceClass.InputService.WheelButtonUp | flutter/android/app/src/main/kotlin/com/carriez/flutter_hbb/InputService.kt:249-256 | WHEEL_BUTTON_UP with a reference cancels the task and presses HOME; without one it does nothing. |
| InputModel.TouchScaleSpec | flutter/android/app/src/main/kotlin/com/carriez/flutter_hbb/InputService.kt:276-330 | A pinch is one two-pointer MOVE: the first pointer is at the last point, the pair is centred on the new point, and the new point is recorded. SCALE_START records the point, and SCALE_END does nothing. |
| InputModel.TouchPanSpec | flutter/android/app/src/main/kotlin/com/carriez/flutter_hbb/InputService.kt:331-374 | PAN_START and PAN_END are dropped within 200 ms of a DOWN or an UP respectively. Otherwise PAN_START records the point and sends a guarded DOWN, and PAN_END sends a guarded UP. PAN_UPDATE records the point, and its MOVE is throttled. |
| InputModel.PanScenario | flutter/android/app/src/main/kotlin/com/carriez/flutter_hbb/InputService.kt:331-374 | A pan gives a DOWN at the start point, then a MOVE and an UP at the end point, all with the start's down time. |
| InputServiceClass.InputService.OnTouchInput | flutter/android/app/src/main/kotlin/com/carriez/flutter_hbb/InputService.kt:269-376 | The fields move as `TouchStep` says, and the log carries out its requests. |
| InputServiceClass.InputService.TouchScale | flutter/android/app/src/main/kotlin/com/carriez/flutter_hbb/InputService.kt:283-327 | SCALE records the new point and sends one pinch whose pointers are the new point moved back and forward by the finger's movement. |
| InputServiceClass.InputService.TouchPanStart | flutter/android/app/src/main/kotlin/com/carriez/flutter_hbb/InputService.kt:332-347 | PAN_START within 200 ms of a DOWN changes nothing; otherwise it records the point and sends a guarded DOWN there. |
| InputServiceClass.InputService.TouchPanEnd | flutter/android/app/src/main/kotlin/com/carriez/flutter_hbb/InputService.kt:361-374 | PAN_END within 200 ms of an UP changes nothing; otherwise it sends a guarded UP at the point. |
| KeyMapping.ControlKeyCodeRoundTrip | flutter/android/app/src/main/kotlin/com/carriez/flutter_hbb/InputService.kt:379-440 | Exactly the listed control keys are handled, and the key code each one is injected as identifies it. |
| KeyMapping.ControlKeyCodeInjective | flutter/android/app/src/main/kotlin/com/carriez/flutter_hbb/InputService.kt:379-440 | No two handled control keys share a key code. |
| InputServiceClass.InputService.HandleControlKey | flutter/android/app/src/main/kotlin/com/carriez/flutter_hbb/InputService.kt:379-451 | Returns true exactly for a mapped control key, after injecting its key DOWN or UP; otherwise it changes nothing. |
| InputModel.ControlKeyDispatch | flutter/android/app/src/main/kotlin/com/carriez/flutter_hbb/InputService.kt:458-509 | A mapped control key, in any supported mode, injects exactly its key and nothing else. |
| InputModel.UnmappedControlKeyFallsThrough | flutter/android/app/src/main/kotlin/com/carriez/flutter_hbb/InputService.kt:458-483 | An unmapped control key falls through to the raw path with key code 0. |
| InputModel.LegacyChrDispatch | flutter/android/app/src/main/kotlin/com/carriez/flutter_hbb/InputService.kt:469-475 | In legacy mode, a nonzero chr with down or press becomes text holding its UTF-16 form. An invalid code point changes nothing. |
| InputModel.SeqDispatch | flutter/android/app/src/main/kotlin/com/carriez/flutter_hbb/InputService.kt:484-515 | Translate and map modes hand a non-empty sequence to the text worker and inject nothing. |
| InputModel.RawKeyDispatch | flutter/android/app/src/main/kotlin/com/carriez/flutter_hbb/InputService.kt:464-525 | Otherwise the chr value is injected as a raw key code, DOWN or UP according to `down`. |
| InputModel.KeyEventDropped | flutter/android/app/src/main/kotlin/com/carriez/flutter_hbb/InputService.kt:453-533 | A message that does not parse, or has an unsupported mode, does nothing. |
| InputServiceClass.InputService.OnKeyEvent | flutter/android/app/src/main/kotlin/com/carriez/flutter_hbb/InputService.kt:453-533 | The fields move as `KeyEventStep` says, and the log carries out its requests. |
| KeyMapping.ToCharsRoundTrip | flutter/android/app/src/main/kotlin/com/carriez/flutter_hbb/InputService.kt:469-473 | `Character.toChars` fails exactly outside 0..0x10FFFF. Otherwise it gives one or two UTF-16 units (a surrogate pair) that decode back to the code point. |
| KeyMapping.AutoUpDelayOfControlKey | flutter/android/app/src/main/kotlin/com/carriez/flutter_hbb/InputService.kt:689-715 | Modifier keys are released after 20 ms, navigation and editing keys after 5 ms, and all others after 10 ms. |
| KeyMapping.ModifierDelay | flutter/android/app/src/main/kotlin/com/carriez/flutter_hbb/InputService.kt:689-715 | Each of the eight modifier keys is released after 20 ms. |
| KeyMapping.NavigationDelay | flutter/android/app/src/main/kotlin/com/carriez/flutter_hbb/InputService.kt:689-715 | The arrows, tab, space, enter and both deletes are released after 5 ms. |
| KeyMapping.OtherDelay | flutter/android/app/src/main/kotlin/com/carriez/flutter_hbb/InputService.kt:689-715 | Every other mapped control key is released after 10 ms. |
| KeyMapping.ModifierReleasedLater | flutter/android/app/src/main/kotlin/com/carriez/flutter_hbb/InputService.kt:689-715 | A modifier pressed together with a navigation key is released strictly later. |
| InputModel.KeyDownSchedulesRelease | flutter/android/app/src/main/kotlin/com/carriez/flutter_hbb/InputService.kt:675-728 | A key DOWN posts an UP of the same key after its delay; when that fires it sends only that UP. An UP posts nothing. |
| InputModel.ExplicitUpKeepsAutoUp | flutter/android/app/src/main/kotlin/com/carriez/flutter_hbb/InputService.kt:675-728 | An explicit key-up does not cancel the automatic one. |
| InputServiceClass.InputService.InjectKeyEvent | flutter/android/app/src/main/kotlin/com/carriez/flutter_hbb/InputService.kt:675-728 | Sends one key event from the keyboard source and, for a DOWN, posts its release; agrees with `InjectKey`. |
| InputServiceClass.InputService.InjectLongPress | flutter/android/app/src/main/kotlin/com/carriez/flutter_hbb/InputService.kt:633-642 | A guarded DOWN now and an UP posted for now + duration at the same point; agrees with `LongPressStep`. |
| InputServiceClass.InputService.InjectScroll | flutter/android/app/src/main/kotlin/com/carriez/flutter_hbb/InputService.kt:644-673 | Sends one mouse scroll event with the given axis values and changes no field. |
| InputServiceClass.InputService.InjectText | flutter/android/app/src/main/kotlin/com/carriez/flutter_hbb/InputService.kt:730-733 | Returns false for an empty text; otherwise returns true and starts a worker for the text. |
| InputServiceClass.InputService.RunTextJob | flutter/android/app/src/main/kotlin/com/carriez/flutter_hbb/InputService.kt:735-765 | The worker removes its job, changes no other field, and sends the events of `TextEvents` for its text once each, in order, whatever the sink answers. |
| InputServiceClass.InputService.InjectAll | flutter/android/app/src/main/kotlin/com/carriez/flutter_hbb/InputService.kt:744-749 | Each event goes to the sink once, in order. |
| KeyMapping.TextEventsAppend | flutter/android/app/src/main/kotlin/com/carriez/flutter_hbb/InputService.kt:740-762 | The events of a concatenated text are the events of its parts, in order. |
| KeyMapping.TextEventsSplit | flutter/android/app/src/main/kotlin/com/carriez/flutter_hbb/InputService.kt:740-762 | The events of a text split at one unit are the events before it, then that unit's events, then the events after it. |
| KeyMapping.TextEventsFallback | flutter/android/app/src/main/kotlin/com/carriez/flutter_hbb/InputService.kt:750-756 | A unit the character map cannot give uses `getEventsForChar`. |
| KeyMapping.TextEventsAsciiPairs | flutter/android/app/src/main/kotlin/com/carriez/flutter_hbb/InputService.kt:740-798 | Without the character map, an ASCII text of known keys gives one down/up pair per unit, in order. |
| KeyMapping.GetEventsForCharSpec | flutter/android/app/src/main/kotlin/com/carriez/flutter_hbb/InputService.kt:770-819 | Every character gives a down then an up of one key code. Letters, in either case, map from KEYCODE_A; digits map from KEYCODE_0; space, '.', ',' and newline have their own keys. Anything else falls back to an unknown key whose down carries the character code. |
| KeyMapping.AsciiKeyCodeIdentifiesUpToCase | flutter/android/app/src/main/kotlin/com/carriez/flutter_hbb/InputService.kt:774-784 | Two characters with the same known key code differ at most in case. |
| InputServiceClass.InputService.FireTimerTask | flutter/android/app/src/main/kotlin/com/carriez/flutter_hbb/InputService.kt:183-190 | Running a due timer task removes it and agrees with `FireTimerStep`: a long press or APP_SWITCH. |
| InputServiceClass.InputService.FireHandlerTask | flutter/android/app/src/main/kotlin/com/carriez/flutter_hbb/InputService.kt:633-642 | Running a due posted callback removes it and agrees with `FireHandlerStep`: an automatic key-up or the end of a long press. |
| InputModel.DisableSelfSpec | flutter/android/app/src/main/kotlin/com/carriez/flutter_hbb/InputService.kt:821-829 | After `disableSelf` no timer task or callback is pending, the service is unregistered, and neither LEFT_DOWN nor WHEEL_BUTTON_DOWN can arm the timer again. |
| InputServiceClass.InputService.DisableSelf | flutter/android/app/src/main/kotlin/com/carriez/flutter_hbb/InputService.kt:821-829 | Clears the callbacks and the timer queue, cancels the timer and unregisters, sending nothing. |
| InputServiceClass.InputService.constructor | flutter/android/app/src/main/kotlin/com/carriez/flutter_hbb/InputService.kt:80-137 | A newly initialised service is registered, with no button held, no task pending and last action -1. |
| MainServiceModel.PointerRoute | flutter/android/app/src/main/kotlin/com/carriez/flutter_hbb/MainService.kt:69-89 | On a dark screen, kind 0 or any input whose mask is LEFT_DOWN only wakes the screen. Otherwise kind 0 goes to touch, kind 1 to mouse, and other kinds are dropped. Each case holds exactly under its condition. |
| MainServiceModel.MainService.RustPointerInput | flutter/android/app/src/main/kotlin/com/carriez/flutter_hbb/MainService.kt:69-89 | To wake the screen, the wake lock is released if held and then acquired for 5 s; nothing is forwarded. Touch and mouse input reach the registered input service as its steps say, the mouse with the current scale. Dropped input changes nothing. |
| MainServiceModel.Half | flutter/android/app/src/main/kotlin/com/carriez/flutter_hbb/MainService.kt:328-333 | Kotlin integer division by 2, which truncates toward zero. |
| MainServiceModel.OrientSpec | flutter/android/app/src/main/kotlin/com/carriez/flutter_hbb/MainService.kt:317-324 | Landscape puts the long side across and any other orientation the short side, keeping both sizes. On a non-square screen, width above height holds exactly in landscape. |
| MainServiceModel.ScaleDimsSpec | flutter/android/app/src/main/kotlin/com/carriez/flutter_hbb/MainService.kt:325-333 | Scale is 2 exactly when half scale is on and a side exceeds 1400; then width, height and dpi are halved. Otherwise scale is 1 and the values are kept. |
| MainServiceModel.MainService.UpdateScreenInfo | flutter/android/app/src/main/kotlin/com/carriez/flutter_hbb/MainService.kt:296-349 | SCREEN_INFO is written, all four fields with the oriented and scaled values, only for a non-empty screen whose new width differs from the stored one. Then the screen is refreshed, and a running capture is stopped and restarted. Otherwise nothing changes. |
| MainServiceModel.HeightOnlyChangeIgnored | flutter/android/app/src/main/kotlin/com/carriez/flutter_hbb/MainService.kt:326-334 | A change of height alone at the same width, or an empty screen, never writes SCREEN_INFO. |
| MainServiceModel.UpdateIdempotent | flutter/android/app/src/main/kotlin/com/carriez/flutter_hbb/MainService.kt:334-346 | Metrics that have just been written do not cause a second write. |
| MainServiceModel.MainService.SetHalfScale | flutter/android/app/src/main/kotlin/com/carriez/flutter_hbb/MainService.kt:207-213 | The argument is read with `toBoolean`. Only a change stores it and re-runs the screen update, with the update's full effect on the four metrics, the capture effects and `isStart`. An unset value always counts as a change. The wake lock is never touched. |
| MainServiceModel.ToBooleanSpec | flutter/android/app/src/main/kotlin/com/carriez/flutter_hbb/MainService.kt:207-209 | `toBoolean` reads back `Boolean.toString` and ignores case. |
| MainServiceModel.NatString | flutter/android/app/src/main/kotlin/com/carriez/flutter_hbb/MainService.kt:101-107 | The decimal form of a number is non-empty and all digits. |
| MainServiceModel.IntStringRoundTrip | flutter/android/app/src/main/kotlin/com/carriez/flutter_hbb/MainService.kt:101-107 | An integer written in decimal reads back, leaving the text that followed it. |
| MainServiceModel.KeyedIntRoundTrip | flutter/android/app/src/main/kotlin/com/carriez/flutter_hbb/MainService.kt:101-107 | A JSON key followed by an integer reads back as that integer, leaving the rest of the text. |
| MainServiceModel.ScreenSizeRoundTrip | flutter/android/app/src/main/kotlin/com/carriez/flutter_hbb/MainService.kt:101-107 | The `screen_size` JSON reads back as the width, height and scale it was written from. |
| MainServiceModel.MainService.GetByName | flutter/android/app/src/main/kotlin/com/carriez/flutter_hbb/MainService.kt:99-113 | `screen_size` gives JSON that parses back to SCREEN_INFO's width, height and scale. `is_start` gives the capture flag as text that reads back to it. Any other name gives "". |
| MainServiceModel.ClientNotifyId | flutter/android/app/src/main/kotlin/com/carriez/flutter_hbb/MainService.kt:738-740 | The client id plus 100, exact when it does not overflow 32 bits and wrapping otherwise. |
| MainServiceModel.ClientNotifyIdInjective | flutter/android/app/src/main/kotlin/com/carriez/flutter_hbb/MainService.kt:738-740 | Distinct clients get distinct notification ids, even across wrap-around. |
| MainServiceModel.MainService.constructor | flutter/android/app/src/main/kotlin/com/carriez/flutter_hbb/MainService.kt:295 | A new service has half scale unset, no capture, no wake lock and no effects. |
| Common.Info.constructor | flutter/android/app/src/main/kotlin/com/carriez/flutter_hbb/common.kt:66-68 | The record holds the four values it was built with. |
| Common.NewScreenInfo | flutter/android/app/src/main/kotlin/com/carriez/flutter_hbb/common.kt:64 | SCREEN_INFO starts at width 0, height 0, scale 1 and 200 dpi. |
| Common.ConstructorError | flutter/android/app/src/main/kotlin/com/carriez/flutter_hbb/common.kt:121-133 | A frame count outside 0..32 is "Out of bounds" (checked first); otherwise a non-positive buffer size is "Wrong bufSize"; with neither, construction succeeds. |
| Common.AudioReader.Create | flutter/android/app/src/main/kotlin/com/carriez/flutter_hbb/common.kt:121-135 | Bad arguments give the constructor's error. Otherwise a fresh reader at position 0 holds maxFrames distinct buffers of bufSize bytes. |
| Common.AudioReader.constructor | flutter/android/app/src/main/kotlin/com/carriez/flutter_hbb/common.kt:121-135 | Builds the pool of maxFrames distinct fresh buffers, each bufSize long, at position 0. |
| Common.AudioReader.Next | flutter/android/app/src/main/kotlin/com/carriez/flutter_hbb/common.kt:137-142 | The position steps on by one and goes back to 0 at the end of the pool. |
| Common.AudioReader.ReadSync | flutter/android/app/src/main/kotlin/com/carriez/flutter_hbb/common.kt:144-155 | A positive read hands out the current buffer and advances. Any other result gives null and stays put. An empty pool throws on the array access. |
| Common.AdvanceInPool | flutter/android/app/src/main/kotlin/com/carriez/flutter_hbb/common.kt:137-142 | The position never leaves the pool. |
| Common.AdvanceBeforeWrap | flutter/android/app/src/main/kotlin/com/carriez/flutter_hbb/common.kt:137-142 | Before the end of the pool, k reads move the position k places on. |
| Common.AdvanceAfterWrap | flutter/android/app/src/main/kotlin/com/carriez/flutter_hbb/common.kt:137-142 | Once the end is passed, the position has wrapped round once. |
| Common.RoundRobin | flutter/android/app/src/main/kotlin/com/carriez/flutter_hbb/common.kt:137-155 | A full round of maxFrames reads brings the position back, and no shorter round does, so buffers are reused round-robin. |
| Common.AdvancePeriodic | flutter/android/app/src/main/kotlin/com/carriez/flutter_hbb/common.kt:137-155 | After every full round the same buffers come round in the same order. |
| Codecs.AlignUpSpec | flutter/android/app/src/main/kotlin/com/carriez/flutter_hbb/MainActivity.kt:504-506 | A screen size is rounded up to the least multiple of 64 that is not below it. |
| Codecs.SoftwarePrefixWins | flutter/android/app/src/main/kotlin/com/carriez/flutter_hbb/MainActivity.kt:511-525 | Below API 29, a name on the software list (ignoring case) is never hardware, and its codec is skipped. |
| Codecs.UnlistedNameSkipped | flutter/android/app/src/main/kotlin/com/carriez/flutter_hbb/MainActivity.kt:511-525 | Below API 29, a name on neither list leaves `hw` null, and its codec is skipped. |
| Codecs.CaseInsensitiveName | flutter/android/app/src/main/kotlin/com/carriez/flutter_hbb/MainActivity.kt:517-521 | Prefixes are compared ignoring case: a lower-case MediaTek encoder name matches `OMX.MTK` and counts as hardware before Android Q. |
| Codecs.LastReportedMimeSpec | flutter/android/app/src/main/kotlin/com/carriez/flutter_hbb/MainActivity.kt:527-533 | The chosen type is "" exactly when no AVC or HEVC type is listed; otherwise it is the AVC or HEVC type at `LastReportedIndex`, the last one listed. |
| Codecs.LastReportedIndexSpec | flutter/android/app/src/main/kotlin/com/carriez/flutter_hbb/MainActivity.kt:527-533 | The index is -1 exactly when no AVC or HEVC type is listed; otherwise it points at an AVC or HEVC type with none after it. |
| Codecs.ChooseMime | flutter/android/app/src/main/kotlin/com/carriez/flutter_hbb/MainActivity.kt:527-533 | The type loop computes `LastReportedMime`. |
| Codecs.EntryForSpec | flutter/android/app/src/main/kotlin/com/carriez/flutter_hbb/MainActivity.kt:509-564 | A codec is reported exactly when it is hardware, has an AVC or HEVC type, is an encoder supporting the aligned size in either orientation, and offers NV12 or surface input. Its entry carries the name, the type and the bitrates in kbit/s. |
| Codecs.EntriesSpec | flutter/android/app/src/main/kotlin/com/carriez/flutter_hbb/MainActivity.kt:508-565 | The report keeps codec-list order, with at most one entry per codec, each being that codec's entry. |
| Codecs.OnlyHardwareEncoders | flutter/android/app/src/main/kotlin/com/carriez/flutter_hbb/MainActivity.kt:553-563 | No decoder is ever reported. Every entry is a hardware AVC or HEVC encoder with NV12 or surface input. |
| Codecs.SetCodecInfo | flutter/android/app/src/main/kotlin/com/carriez/flutter_hbb/MainActivity.kt:495-572 | The report carries the SDK version, the aligned width and height, and the entries of `Entries` for the codec list. |
| Codecs.CheckSystemPermissions | flutter/android/app/src/main/kotlin/com/carriez/flutter_hbb/MainActivity.kt:88-101 | SurfaceFlinger access alone suffices. Otherwise both capture-video-output and read-frame-buffer must be granted. |
| FixBuild.FixBuildLines | fix_build.py:12-37 | The loop computes `Fixed` over all the lines. |
| FixBuild.FixedIsSubsequence | fix_build.py:16-37 | The output is an order-preserving subsequence of the input lines. |
| FixBuild.FlagsClearEarly | fix_build.py:23-34 | Both flags stay clear through index 630. |
| FixBuild.EarlyLinesKept | fix_build.py:16-37 | Every line at index 630 or below is kept. |
| FixBuild.InsideBlock | fix_build.py:26-37 | Inside an open block, before the closing copy line, the block stays open and nothing is kept. |
| FixBuild.BlockSkipped | fix_build.py:26-37 | A copy line past index 630, outside a block, is dropped and opens a block. Every line up to and including the next copy line is dropped, and the block ends there. |
| FixBuild.KeepRule | fix_build.py:36-37 | A line that is neither a stray else nor a copy line is kept exactly when no block is open. |
| FixBuild.ElseFlagPersists | fix_build.py:18-24 | Once set, the stray-else flag stays set until a stripped `else:` line. |
| FixBuild.ElseSkipped | fix_build.py:17-24 | After the marker past index 630, the first later line that strips to `else:` is dropped and clears the flag, whatever else holds. |
| FixBuild.MarkerKept | fix_build.py:22-24 | The marker past index 630 sets the flag and is itself kept unless a block is open. |
| FixBuild.LateCopyLinesDropped | fix_build.py:26-34 | No copy line past index 630 reaches the output. |
| FixBuild.NotElse | fix_build.py:18-32 | No line holding the copy command or the marker strips to `else:`. |
| AndroidCodes.Wrap32 | flutter/android/app/src/main/kotlin/com/carriez/flutter_hbb/MainService.kt:738-740 | Reduction into the 32-bit range: congruent modulo 2^32, and the identity inside the range. |

## Left out

- Injection through `InputManager.injectInputEvent` via reflection, and the construction of `MotionEvent`/`KeyEvent` objects: the sink is abstract, and its answer is a free choice recorded in the log.
- Real timers, threads and races between the timer thread, the main looper and text workers. Firing a task is an explicit method that requires the task to be due and no later than any other pending task. Interleavings of workers with the other entry points are not modelled.
- Exact clock readings. `now` is a parameter of each entry point, and the UP retry is stamped `now + 10`, the minimum of `Thread.sleep(10)`. The clock's advance across the worker's `Thread.sleep(5)` calls is not modelled: all the events of a text job carry the job's `now`.
- `ViewConfiguration`: the long-press duration is a constructor parameter.
- Float coordinates and Kotlin `Int` overflow: `x * scale` in `onMouseInput`, the alignment in `setCodecInfo` and the screen arithmetic are unbounded integers. Only `getClientNotifyID` models 32-bit wrap-around.
- `KeyCharacterMap`: the map is an opaque parameter. Its load failure and per-character exceptions are not modelled, and neither is the `catch` branch of `createFallbackKeyEvents` (the constructor does not throw).
- The protobuf parse of `onKeyEvent` and `rustKeyEventInput`: a message is given already parsed, or as `None` for bytes that do not parse.
- `InputServiceClass.InputService.DisableSelf`: it does not reset `leftIsDown`, `isWaitingLongPress` or the guard fields, because `disableSelf` (InputService.kt:821-829) does not.
- Capture itself: `startCapture`, `stopCapture`, VirtualDisplay, MediaCodec and SurfaceFlinger, and the wake lock's expiry. The effects are recorded, and whether a restart succeeds is a parameter.
- The rest of `rustSetByName` (`add_connection` and the other names, with their JSON and FFI calls), notifications other than the id, `getScreenSize`, `translate`, `getDeviceSN` and the window metrics (parameters).
- `AudioRecordHandle.kt`, `ffi.kt`, `BootReceiver.kt`, `ToastUtils.kt` and `PermissionRequestTransparentActivity.kt` are not part of this model. Nor are the audio samples themselves: only which buffer is handed out.
- `Codecs.StartsWithIgnoreCase`: case folding covers ASCII letters only. The codec prefixes are ASCII, but a non-ASCII name that the platform folds differently is not modelled.
- `setCodecInfo`: the `low_latency` flag of decoders is not modelled, because decoders are never reported. The JSON text and the FFI call are not modelled either; the report is a value.
- `fix_build.py`: reading and writing `build.py` and the final message; only the line filter is modelled.
