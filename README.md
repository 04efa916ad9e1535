# Kinetic scrolling engine

A Dafny model of the kinetic (inertial) scroll engine of kineticScroll, the class
`scroller` in `src/scroller.cpp`. It scrolls along one axis. While the pointer is
held down, every timer tick moves the view by the cursor's displacement and keeps
a low-pass-filtered speed. After release, every tick moves the view by
direction · speed · period and takes one period of friction off the speed. Past
an edge of the scrollbar range the motion reflects and the speed is divided by
the damping. The one-shot timer is re-armed while speed stays positive; when the
speed runs out, the engine emits `scrollOver` and stops.

Three modules:

- `ScrollerModel` (ScrollerModel.dfy) models the engine's state as a value
  (`Engine`). It has the timer tick (`DragTick`, `DecayTick`, `Tick`), the
  resets and setters as functions, and runs of decay ticks (`Decays`). It also
  holds the lemmas: drag-mode behaviour, bounce formulas, the stop rule, speed
  bounds, termination, and exactly-once `scrollOver`.
- `Scroller` (Scroller.dfy) is the engine as a class whose fields the methods
  update in place, as `scroller` does. Each method is proved to take `State()`
  to the state the matching `ScrollerModel` function gives. `Glide` is the
  timer firing again and again after a release. It is proved to end Idle.
- `View` (View.dfy) is the host's press/release sequence from `src/view.cpp`.

The timer is the field `armed`. A tick (`Process`) requires it to be armed,
because the one-shot timer only fires while it is pending. The cursor position, the scrollbar's value and
its range are parameters of each tick. A tick's effects are returned as an
`Output`: the offset written (if any), whether `scrollOver` was emitted, and the
speed carried by the `sendSpeed` notification. `qreal` is `real` and the period
is 0.01 (inc/global.h:4). Defaults are friction 5000 and damping 3
(inc/global.h:5-6).

The model keeps these quirks of the code as they are:

- The point (0,0) means "no sample" (src/scroller.cpp:35,59). A drag tick whose
  last sample is (0,0) writes nothing.
- `resetScroll` sets the direction to 0, not to ±1 (src/scroller.cpp:36).
- A displacement of 0 gives direction 1 (src/scroller.cpp:62).
- The min-side bounce is `newX = -newX` (src/scroller.cpp:83). That is a
  reflection about the minimum only when the minimum is 0, and
  `MinBounceMirrorsOnlyAtZero` proves that equivalence.

The model follows the code where its own comments say otherwise: the drag
speed is |Δx| / 0.01, pixels per second as the `pixelsPerSecond` label at
src/scroller.cpp:98 says, although the comment at src/scroller.cpp:63 calls it
pixels per period.

## Model

| member | source | states |
|---|---|---|
| `ScrollerModel.DragWithoutSample` | src/scroller.cpp:57-69 | `DragTick` (the drag branch of `process()`), when the last sample is the sentinel (0,0) writes no offset and keeps direction and speed. It records the cursor, re-arms the timer and emits no `scrollOver` |
| `ScrollerModel.DragFollowsCursor` | src/scroller.cpp:59-68 | for `DragTick` with a prior sample, the offset written is x0 + (last.x − cursor.x). The direction is ±1, the sign of that delta, and +1 when the delta is 0. The new speed lies between the old speed and the cursor speed abs(Δx)/period, and its distance to the cursor speed is 0.8 times the old distance (low-pass filter). A non-negative speed stays non-negative. The timer is re-armed |
| `ScrollerModel.TickKeepsSettings` | src/scroller.cpp:51-99 | no `Tick` (`process()`: `DragTick` when pressed, `DecayTick` otherwise) changes friction, damping or the pressed flag |
| `ScrollerModel.DecayTick` | src/scroller.cpp:70-97 | a decay tick leaves the last sample, the pressed flag, friction and damping unchanged |
| `ScrollerModel.BounceAtMax` | src/scroller.cpp:72-80 | when the projection x0 + direction·speed·period is past max, the tick writes its mirror image about max, which lies below max. The direction becomes −1 and the speed becomes (speed − friction·period)/damping, or 0 if that is not positive |
| `ScrollerModel.BounceAtMin` | src/scroller.cpp:81-86 | when the projection is not past max but below min, the tick writes the negated projection. The direction becomes +1 and the speed is the damped braked speed, or 0 |
| `ScrollerModel.MinBounceMirrorsOnlyAtZero` | src/scroller.cpp:81-83 | the min-side bounce writes the mirror image about min if and only if min = 0 |
| `ScrollerModel.NoBounce` | src/scroller.cpp:72-88 | a projection inside [min, max] is written as it is. The direction is kept and the speed is the braked speed, or 0 |
| `ScrollerModel.DecayStopRule` | src/scroller.cpp:73-98 | a decay tick re-arms exactly when the speed after friction and any bounce is positive. It emits `scrollOver` exactly when it does not re-arm, and then sets the speed to 0. The notified speed is the new speed, which is never negative |
| `ScrollerModel.DecaySpeedBounds` | src/scroller.cpp:73-96 | with friction ≥ 0, damping ≥ 1 and speed ≥ 0, a decay tick ends with 0 ≤ speed ≤ the starting speed |
| `ScrollerModel.DecayContinues` | src/scroller.cpp:90-91 | with friction > 0 and damping ≥ 1, a decay tick that re-arms leaves a speed that is positive and at least friction·period below the starting speed |
| `ScrollerModel.TickSpeedNonNegative` | src/scroller.cpp:57-97 | every tick, drag or decay, keeps the speed ≥ 0 |
| `ScrollerModel.Decays` | src/scroller.cpp:90-96 | a run of at most n timer firings has at most n outputs. It has none exactly when n = 0 or the timer is not armed, and then it leaves the engine as it was |
| `ScrollerModel.DecaysSettle` | src/scroller.cpp:73-96 | with friction > 0 and damping ≥ 1, a released, armed engine is Idle (disarmed, speed 0) after any n ≥ 1 firings with speed ≤ n·friction·period |
| `ScrollerModel.DecaysScrollOverLast` | src/scroller.cpp:90-96 | in any run, only the last tick can emit `scrollOver`, and it does exactly when it leaves the timer disarmed |
| `ScrollerModel.DecaysSpeedNonIncreasing` | src/scroller.cpp:73-98 | with friction ≥ 0 and damping ≥ 1, the speeds notified during a run are never negative, never above the starting speed, and never increase from tick to tick |
| `ScrollerModel.ReleaseSettlesOnce` | src/scroller.cpp:70-97 | with friction > 0 and damping ≥ 1, a release from speed s ends Idle within ⌈s/(friction·period)⌉ ticks (1 for s ≤ 0). It emits `scrollOver` exactly once, on the last tick, and the notified speeds never increase |
| `ScrollerModel.FrictionlessNeverSettles` | src/scroller.cpp:90-91 | with friction 0, damping > 0 and a positive speed, every firing re-arms and no `scrollOver` is ever emitted, for any number of ticks |
| `ScrollerModel.ResetRestoresInitial` | src/scroller.cpp:33-39 | `Reset` (`resetScroll`) gives `Initial` (the constructor's state) except that friction, damping and the pressed flag are kept |
| `ScrollerModel.SettersWriteOneField` | src/scroller.cpp:41-49 | `WithPressed`, `WithFriction` and `WithDamping` (`setMousePressed`, `setFriction`, `setDamping`) each set their own field to the given value, change nothing else (the timer included), and are idempotent |
| `Scroller.Scroller.constructor` | src/scroller.cpp:5-18 | the new engine's state equals `Initial`: last sample (0,0), direction 0, speed 0, friction 5000, damping 3, not pressed, timer stopped |
| `Scroller.Scroller.SetMousePressed` | src/scroller.cpp:23-26 | the new state equals `WithPressed` of the old one: only the pressed flag changes |
| `Scroller.Scroller.StartScroll` | src/scroller.cpp:28-31 | the new state equals `Start` of the old one: only the timer changes, it is armed |
| `Scroller.Scroller.ResetScroll` | src/scroller.cpp:33-39 | the new state equals `Reset` of the old one: the last sample becomes (0,0), direction and speed 0, and the timer is stopped. Nothing else changes |
| `Scroller.Scroller.SetFriction` | src/scroller.cpp:41-44 | the new state equals `WithFriction` of the old one: only friction changes, to the given integer as a real |
| `Scroller.Scroller.SetDamping` | src/scroller.cpp:46-49 | the new state equals `WithDamping` of the old one: only damping changes, to the given integer as a real |
| `Scroller.Scroller.Process` | src/scroller.cpp:51-99 | the fields are updated in place to the state `Tick` gives (`DragTick` when pressed, `DecayTick` otherwise), and the output is the tick's output. Speed ≥ 0 and direction ∈ {−1, 0, 1} are kept |
| `Scroller.Scroller.Glide` | src/scroller.cpp:90-96 | after a release with friction > 0 and damping ≥ 1, firing the timer until it stays disarmed ends Idle within ⌈speed/(friction·period)⌉ ticks. The outputs are those of `Decays`, exactly one `scrollOver` is emitted, on the last tick, and the notified speeds never increase |
| `View.MousePress` | src/view.cpp:7-12 | the new state equals `Press` of the old one (`Start(WithPressed(Reset(e), true))`): a press resets the engine, sets pressed and arms the timer |
| `View.MouseRelease` | src/view.cpp:14-17 | the new state equals `Release` of the old one (`WithPressed(e, false)`): a release clears the pressed flag only |
| `View.PressForgetsMotion` | src/view.cpp:7-12 | two engines are in the same state after `Press` if and only if their friction and damping agree |
| `View.FirstTickAfterPress` | src/view.cpp:9-11 | after `Press` the engine is dragging with the timer armed. Its first tick writes no offset, leaves speed and direction 0 and records the cursor |
| `View.ReleaseStartsDecay` | src/view.cpp:14-17 | after `Release` the next tick is a decay tick and does not depend on the cursor |
| `View.DefaultDragAndRelease` | inc/global.h:4-6 | with the defaults, a 20-pixel drag to the left gives direction 1 and speed 400. The first decay tick then moves the offset by 4 and leaves speed 350, and whatever the scrollbar reads at each firing, the glide stops within 8 ticks, Idle, with `scrollOver` on its last tick and no other |

## Left out

- Qt widget, scene and view setup, image loading, sliders, labels, layouts and the application's start-up (src/view.cpp:19-83, inc/view.h, src/main.cpp): user-interface plumbing with no engine logic.
- Signal/slot wiring and `QTimer` itself: the timer is the `armed` flag, and a firing is an explicit call to `Process`. The millisecond conversion `(int)(KINETIC_PERIOD*1000.f)` is not modelled.
- `QCursor::pos()` and the scrollbar accessors are foreign calls. They are parameters of `Process` (`cursor`, `x0`, `min`, `max`) and, in `Glide`, `offset(k)` with a fixed range. The written value is truncated by C++'s implicit `qreal`→`int` conversion when `newX` is passed to `setValue(int)` (src/scroller.cpp:65, 88), and clamped to the range by Qt's `QScrollBar`; the model reports the value the engine computes before both, which loses nothing because each tick's scrollbar value is a parameter.
- The drag tick reads `QCursor::pos()` twice (src/scroller.cpp:61 and 67); the model uses one sample for both, so it leaves out a cursor that moves between those two calls.
- `float`/`qreal` rounding and the `0.8f`/`0.2f` literals: the model computes in exact reals.
- The text formatting of `sendSpeed` (src/scroller.cpp:98): the model records the speed each tick notifies, as `Output.speedSent`.
- `m_mousePressed` is not initialised by the constructor (inc/scroller.h:31). The model starts it as false. The host always sets it before it starts the timer (src/view.cpp:9-11).
- Scroller.Scroller.Process: requires damping ≠ 0 in decay mode, because dividing by a damping of 0 gives IEEE infinities or NaN, which reals do not model. The host's slider keeps damping in 1..10 (src/view.cpp:65-66).
- Scroller.Scroller.Glide: covers a glide with no setter call between firings and a fixed scrollbar range, and requires friction > 0. A friction of 0, which the slider allows (src/view.cpp:55), is covered by `ScrollerModel.FrictionlessNeverSettles` instead.
