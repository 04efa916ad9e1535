/** Value-level model of the kinetic-scroll engine of src/scroller.cpp: the engine's
    state as a datatype, each operation and the timer tick as functions on it, and
    the properties of the physics (speed bounds, bounce, stop rule, termination). */
module ScrollerModel {

  /** KINETIC_PERIOD: seconds between two ticks of the one-shot timer. */
  const Period: real := 0.01
  /** DEFAULT_FRICTION and DEFAULT_DAMPING, stored as reals by the constructor. */
  const DefaultFriction: real := 5000.0
  const DefaultDamping: real := 3.0

  /** A cursor position in screen coordinates. */
  datatype Point = Point(x: int, y: int)

  /** The engine reads the point (0,0) as "no sample since the last reset". */
  const NoSample: Point := Point(0, 0)

  datatype Option<T> = None | Some(value: T)

  /** Every field of the engine that an operation can change; `armed` says whether
      the one-shot timer is pending. */
  datatype Engine = Engine(
    lastPos: Point,
    direction: real,
    speed: real,
    friction: real,
    damping: real,
    pressed: bool,
    armed: bool)

  /** What one tick emits: the offset written to the scrollbar (if any), whether
      `scrollOver` was emitted, and the speed carried by the `sendSpeed` notification. */
  datatype Output = Output(written: Option<real>, scrollOver: bool, speedSent: real)

  datatype Step = Step(next: Engine, out: Output)

  /** The state the constructor builds. */
  function Initial(): Engine {
    Engine(NoSample, 0.0, 0.0, DefaultFriction, DefaultDamping, false, false)
  }

  /** resetScroll: forget the cursor sample and the motion, stop the timer. */
  function Reset(e: Engine): Engine {
    e.(lastPos := NoSample, direction := 0.0, speed := 0.0, armed := false)
  }

  /** setMousePressed */
  function WithPressed(e: Engine, pressed: bool): Engine {
    e.(pressed := pressed)
  }

  /** startScroll: (re)start the one-shot timer. */
  function Start(e: Engine): Engine {
    e.(armed := true)
  }

  /** setFriction, converting the slider's integer exactly. */
  function WithFriction(e: Engine, friction: int): Engine {
    e.(friction := friction as real)
  }

  /** setDamping, converting the slider's integer exactly. */
  function WithDamping(e: Engine, damping: int): Engine {
    e.(damping := damping as real)
  }

  function Abs(x: real): real {
    if x < 0.0 then -x else x
  }

  /** The speed the drag tick derives from one cursor displacement, in pixels per second. */
  function Instant(deltaX: int): real {
    Abs(deltaX as real) / Period
  }

  /** The drag-mode tick: follow the cursor and low-pass filter its speed. */
  function DragTick(e: Engine, cursor: Point, x0: int): Step {
    if e.lastPos != NoSample then
      var deltaX := e.lastPos.x - cursor.x;
      var direction := if deltaX >= 0 then 1.0 else -1.0;
      var speed := 0.8 * e.speed + 0.2 * Instant(deltaX);
      var next := e.(lastPos := cursor, direction := direction, speed := speed, armed := true);
      Step(next, Output(Some((x0 + deltaX) as real), false, speed))
    else
      var next := e.(lastPos := cursor, armed := true);
      Step(next, Output(None, false, e.speed))
  }

  /** Where the decay tick moves the offset before looking at the range. */
  function Projected(e: Engine, x0: int): real {
    x0 as real + e.direction * e.speed * Period
  }

  /** The speed that is left after one period of friction. */
  function Braked(e: Engine): real {
    e.speed - e.friction * Period
  }

  /** The free-running tick: kinematic step, friction, bounce off an edge of
      [min, max] with damping, then either re-arm or emit `scrollOver` and stop. */
  function DecayTick(e: Engine, x0: int, min: int, max: int): (st: Step)
    requires e.damping != 0.0
    ensures st.next.lastPos == e.lastPos && st.next.pressed == e.pressed
    ensures st.next.friction == e.friction && st.next.damping == e.damping
  {
    var newX := Projected(e, x0);
    var speed := Braked(e);
    var bounce :=
      if newX > max as real then (2.0 * max as real - newX, -1.0, speed / e.damping)
      else if newX < min as real then (-newX, 1.0, speed / e.damping)
      else (newX, e.direction, speed);
    var (x, direction, v) := bounce;
    if v > 0.0 then
      Step(e.(direction := direction, speed := v, armed := true), Output(Some(x), false, v))
    else
      Step(e.(direction := direction, speed := 0.0, armed := false), Output(Some(x), true, 0.0))
  }

  /** process(): the slot the timer runs; the mode is chosen by `pressed`. */
  function Tick(e: Engine, cursor: Point, x0: int, min: int, max: int): Step
    requires e.pressed || e.damping != 0.0
  {
    if e.pressed then DragTick(e, cursor, x0) else DecayTick(e, x0, min, max)
  }

  // ---------------------------------------------------------------------------
  // Drag mode

  /** The first drag tick after a reset only records the cursor: no offset is
      written and the motion is left as it was; the timer is re-armed. */
  lemma DragWithoutSample(e: Engine, cursor: Point, x0: int)
    requires e.lastPos == NoSample
    ensures var st := DragTick(e, cursor, x0);
      st.out.written == None && st.next.lastPos == cursor && st.next.armed &&
      st.next.direction == e.direction && st.next.speed == e.speed &&
      !st.out.scrollOver && st.out.speedSent == e.speed
  {
  }

  /** With a prior sample the offset moves by exactly the cursor displacement (in
      the opposite sense of the cursor), the direction is the sign of that
      displacement counting 0 as positive, and the speed is a low-pass filter of
      the cursor speed: it lies between the old speed and the cursor speed, and
      its distance to the cursor speed shrinks by the factor 0.8 every tick. */
  lemma DragFollowsCursor(e: Engine, cursor: Point, x0: int)
    requires e.lastPos != NoSample
    ensures var st := DragTick(e, cursor, x0);
      var deltaX := e.lastPos.x - cursor.x;
      var v := Abs(deltaX as real) / Period;
      st.out.written.Some? && st.out.written.value - x0 as real == deltaX as real &&
      (st.next.direction == 1.0 || st.next.direction == -1.0) &&
      st.next.direction * deltaX as real == Abs(deltaX as real) &&
      (deltaX == 0 ==> st.next.direction == 1.0) &&
      (e.speed <= st.next.speed <= v || v <= st.next.speed <= e.speed) &&
      Abs(st.next.speed - v) == 0.8 * Abs(e.speed - v) &&
      (e.speed >= 0.0 ==> st.next.speed >= 0.0) &&
      st.next.lastPos == cursor && st.next.armed &&
      !st.out.scrollOver && st.out.speedSent == st.next.speed
  {
  }

  /** A tick changes neither the settings nor the pressed flag. */
  lemma TickKeepsSettings(e: Engine, cursor: Point, x0: int, min: int, max: int)
    requires e.pressed || e.damping != 0.0
    ensures var n := Tick(e, cursor, x0, min, max).next;
      n.friction == e.friction && n.damping == e.damping && n.pressed == e.pressed
  {
  }

  // ---------------------------------------------------------------------------
  // Decay mode

  /** Reflection about an edge. */
  function Mirror(x: real, edge: real): real {
    2.0 * edge - x
  }

  /** Past the maximum the projection is mirrored about the maximum, the direction
      becomes -1 and the braked speed is divided by the damping. */
  lemma BounceAtMax(e: Engine, x0: int, min: int, max: int)
    requires e.damping != 0.0
    requires Projected(e, x0) > max as real
    ensures var st := DecayTick(e, x0, min, max);
      var v := Braked(e) / e.damping;
      st.out.written == Some(Mirror(Projected(e, x0), max as real)) &&
      st.out.written.value < max as real &&
      st.next.direction == -1.0 &&
      st.next.speed == (if v > 0.0 then v else 0.0)
  {
  }

  /** Below the minimum (and not past the maximum) the projection is negated, the
      direction becomes 1 and the braked speed is divided by the damping. */
  lemma BounceAtMin(e: Engine, x0: int, min: int, max: int)
    requires e.damping != 0.0
    requires min as real > Projected(e, x0) && Projected(e, x0) <= max as real
    ensures var st := DecayTick(e, x0, min, max);
      var v := Braked(e) / e.damping;
      st.out.written == Some(-Projected(e, x0)) &&
      st.next.direction == 1.0 &&
      st.next.speed == (if v > 0.0 then v else 0.0)
  {
  }

  /** The min-side bounce is a reflection about the minimum exactly when the
      minimum is 0; for any other minimum it lands somewhere else. */
  lemma MinBounceMirrorsOnlyAtZero(e: Engine, x0: int, min: int, max: int)
    requires e.damping != 0.0
    requires min as real > Projected(e, x0) && Projected(e, x0) <= max as real
    ensures DecayTick(e, x0, min, max).out.written == Some(Mirror(Projected(e, x0), min as real))
      <==> min == 0
  {
  }

  /** Inside the range the projection is written and the direction is kept. */
  lemma NoBounce(e: Engine, x0: int, min: int, max: int)
    requires e.damping != 0.0
    requires min as real <= Projected(e, x0) <= max as real
    ensures var st := DecayTick(e, x0, min, max);
      st.out.written == Some(Projected(e, x0)) &&
      st.next.direction == e.direction &&
      st.next.speed == (if Braked(e) > 0.0 then Braked(e) else 0.0)
  {
  }

  /** The stop rule: the tick re-arms exactly when the speed left after friction
      and bounce is positive; otherwise it emits `scrollOver`, with the speed 0.
      The notification always carries the new speed, which is never negative. */
  lemma DecayStopRule(e: Engine, x0: int, min: int, max: int)
    requires e.damping != 0.0
    ensures var st := DecayTick(e, x0, min, max);
      var p := Projected(e, x0);
      var bounced := p > max as real || p < min as real;
      var v := if bounced then Braked(e) / e.damping else Braked(e);
      (st.next.armed <==> v > 0.0) &&
      (st.out.scrollOver <==> !st.next.armed) &&
      st.next.speed == (if v > 0.0 then v else 0.0) &&
      st.out.speedSent == st.next.speed && st.next.speed >= 0.0
  {
  }

  /** With friction >= 0 and damping >= 1 a decay tick never speeds the engine up. */
  lemma DecaySpeedBounds(e: Engine, x0: int, min: int, max: int)
    requires e.friction >= 0.0 && e.damping >= 1.0 && e.speed >= 0.0
    ensures var st := DecayTick(e, x0, min, max);
      0.0 <= st.next.speed <= e.speed
  {
  }

  /** A re-armed decay tick (friction > 0, damping >= 1) loses at least one period
      of friction. */
  lemma DecayContinues(e: Engine, x0: int, min: int, max: int)
    requires e.friction > 0.0 && e.damping >= 1.0
    ensures var st := DecayTick(e, x0, min, max);
      st.next.armed ==> 0.0 < st.next.speed <= e.speed - e.friction * Period
  {
  }

  /** Every tick ends with a non-negative speed, given one at its start. */
  lemma TickSpeedNonNegative(e: Engine, cursor: Point, x0: int, min: int, max: int)
    requires e.pressed || e.damping != 0.0
    requires e.speed >= 0.0
    ensures Tick(e, cursor, x0, min, max).next.speed >= 0.0
  {
  }

  // ---------------------------------------------------------------------------
  // Decay episodes

  function Ceil(x: real): (n: int)
    ensures (n - 1) as real < x <= n as real
  {
    -((-x).Floor)
  }

  /** ceil(speed / (friction * Period)), and 1 for a speed that is not positive:
      the number of ticks after which a release from `speed` has stopped. */
  function TickBound(speed: real, friction: real): (n: nat)
    requires friction > 0.0
    ensures n >= 1
  {
    if speed <= 0.0 then 1
    else
      var c := friction * Period;
      assert speed / c > 0.0;
      Ceil(speed / c)
  }

  /** TickBound periods of friction use up the whole speed. */
  lemma TickBoundEnough(speed: real, friction: real)
    requires friction > 0.0
    ensures speed <= TickBound(speed, friction) as real * (friction * Period)
  {
  }

  datatype Run = Run(outs: seq<Output>, final: Engine)

  /** At most `n` firings of the timer with the pointer released: each fires a
      decay tick against the offset the scrollbar shows at that tick, until a tick
      leaves the timer disarmed. */
  function Decays(e: Engine, offset: nat -> int, min: int, max: int, k: nat, n: nat): (r: Run)
    requires !e.pressed && e.damping != 0.0
    ensures |r.outs| <= n
    ensures r.outs == [] <==> (n == 0 || !e.armed)
    ensures r.outs == [] ==> r.final == e
    decreases n
  {
    if n == 0 || !e.armed then Run([], e)
    else
      var st := DecayTick(e, offset(k), min, max);
      var rest := Decays(st.next, offset, min, max, k + 1, n - 1);
      Run([st.out] + rest.outs, rest.final)
  }

  /** One firing of an armed timer in a run: the tick's output joins the outputs
      so far, and the rest of the run continues from the state the tick leaves. */
  lemma DecaysStep(whole: Run, outs: seq<Output>, e: Engine, offset: nat -> int, min: int, max: int, k: nat, n: nat)
    requires !e.pressed && e.damping != 0.0 && e.armed && n > 0
    requires whole.outs == outs + Decays(e, offset, min, max, k, n).outs
    requires whole.final == Decays(e, offset, min, max, k, n).final
    ensures var st := Tick(e, NoSample, offset(k), min, max);
      whole.outs == (outs + [st.out]) + Decays(st.next, offset, min, max, k + 1, n - 1).outs &&
      whole.final == Decays(st.next, offset, min, max, k + 1, n - 1).final &&
      (st.next.armed && !whole.final.armed ==> n - 1 > 0)
  {
  }

  /** Termination: with friction > 0 and damping >= 1, a release is Idle (timer
      disarmed, speed 0) after any number n of firings whose n periods of friction
      would use up the starting speed. */
  lemma {:induction false} DecaysSettle(e: Engine, offset: nat -> int, min: int, max: int, k: nat, n: nat)
    requires !e.pressed && e.armed && e.friction > 0.0 && e.damping >= 1.0
    requires n >= 1 && e.speed <= n as real * (e.friction * Period)
    ensures var r := Decays(e, offset, min, max, k, n);
      !r.final.armed && r.final.speed == 0.0 && |r.outs| >= 1
    decreases n
  {
    var st := DecayTick(e, offset(k), min, max);
    DecayContinues(e, offset(k), min, max);
    if st.next.armed {
      assert st.next.speed <= (n - 1) as real * (e.friction * Period);
      DecaysSettle(st.next, offset, min, max, k + 1, n - 1);
    } else {
      assert Decays(st.next, offset, min, max, k + 1, n - 1) == Run([], st.next);
    }
  }

  /** `scrollOver` is emitted only by the last tick of a run, and by it exactly when
      that tick left the timer disarmed. */
  predicate ScrollOverOnlyLast(r: Run) {
    forall i | 0 <= i < |r.outs| :: r.outs[i].scrollOver <==> (i == |r.outs| - 1 && !r.final.armed)
  }

  lemma {:induction false} DecaysScrollOverLast(e: Engine, offset: nat -> int, min: int, max: int, k: nat, n: nat)
    requires !e.pressed && e.damping != 0.0
    ensures ScrollOverOnlyLast(Decays(e, offset, min, max, k, n))
    decreases n
  {
    if n > 0 && e.armed {
      var st := DecayTick(e, offset(k), min, max);
      var rest := Decays(st.next, offset, min, max, k + 1, n - 1);
      DecaysScrollOverLast(st.next, offset, min, max, k + 1, n - 1);
      DecayStopRule(e, offset(k), min, max);
      var r := Decays(e, offset, min, max, k, n);
      assert r.outs == [st.out] + rest.outs && r.final == rest.final;
      if !st.next.armed {
        assert rest == Run([], st.next);
      }
      forall i | 0 <= i < |r.outs|
        ensures r.outs[i].scrollOver <==> (i == |r.outs| - 1 && !r.final.armed)
      {
        if i > 0 {
          assert r.outs[i] == rest.outs[i - 1];
        }
      }
    }
  }

  /** Exactly once: a release with friction > 0 and damping >= 1 ends Idle within
      TickBound ticks, emits `scrollOver` once, on its last tick, and notifies
      speeds that never increase. */
  lemma ReleaseSettlesOnce(e: Engine, offset: nat -> int, min: int, max: int)
    requires !e.pressed && e.armed && e.friction > 0.0 && e.damping >= 1.0 && e.speed >= 0.0
    ensures Settled(Decays(e, offset, min, max, 0, TickBound(e.speed, e.friction)), e.speed, e.friction)
  {
    var n := TickBound(e.speed, e.friction);
    TickBoundEnough(e.speed, e.friction);
    DecaysSettle(e, offset, min, max, 0, n);
    DecaysScrollOverLast(e, offset, min, max, 0, n);
    DecaysSpeedNonIncreasing(e, offset, min, max, 0, n);
  }

  /** A run that ends Idle within TickBound(speed, friction) ticks with exactly one
      `scrollOver`, on its last tick, and speeds that never increase. */
  predicate Settled(r: Run, speed: real, friction: real)
    requires friction > 0.0
  {
    1 <= |r.outs| <= TickBound(speed, friction) &&
    !r.final.armed && r.final.speed == 0.0 &&
    r.outs[|r.outs| - 1].scrollOver &&
    (forall i | 0 <= i < |r.outs| - 1 :: !r.outs[i].scrollOver) &&
    SpeedsNonIncreasing(r, speed)
  }

  /** The speeds notified during a run are never negative, never exceed the
      starting speed and never increase from one tick to the next. */
  predicate SpeedsNonIncreasing(r: Run, start: real) {
    (forall i | 0 <= i < |r.outs| :: 0.0 <= r.outs[i].speedSent <= start) &&
    (forall i, j | 0 <= i < j < |r.outs| :: r.outs[j].speedSent <= r.outs[i].speedSent)
  }

  lemma {:induction false} DecaysSpeedNonIncreasing(e: Engine, offset: nat -> int, min: int, max: int, k: nat, n: nat)
    requires !e.pressed && e.friction >= 0.0 && e.damping >= 1.0 && e.speed >= 0.0
    ensures SpeedsNonIncreasing(Decays(e, offset, min, max, k, n), e.speed)
    decreases n
  {
    if n > 0 && e.armed {
      var st := DecayTick(e, offset(k), min, max);
      DecaySpeedBounds(e, offset(k), min, max);
      DecayStopRule(e, offset(k), min, max);
      DecaysSpeedNonIncreasing(st.next, offset, min, max, k + 1, n - 1);
      var rest := Decays(st.next, offset, min, max, k + 1, n - 1);
      var r := Decays(e, offset, min, max, k, n);
      assert r.outs == [st.out] + rest.outs;
      assert st.out.speedSent == st.next.speed <= e.speed;
      forall i, j | 0 <= i < j < |r.outs|
        ensures r.outs[j].speedSent <= r.outs[i].speedSent
      {
        assert r.outs[j] == rest.outs[j - 1];
        if i > 0 {
          assert r.outs[i] == rest.outs[i - 1];
        }
      }
      forall i | 0 <= i < |r.outs|
        ensures 0.0 <= r.outs[i].speedSent <= e.speed
      {
        if i > 0 {
          assert r.outs[i] == rest.outs[i - 1];
        } else {
          assert r.outs[i] == st.out;
        }
      }
    }
  }

  /** Without friction nothing stops the motion: from a positive speed with a
      positive damping every firing re-arms, for any number of ticks. */
  lemma {:induction false} FrictionlessNeverSettles(e: Engine, offset: nat -> int, min: int, max: int, k: nat, n: nat)
    requires !e.pressed && e.armed && e.friction == 0.0 && e.damping > 0.0 && e.speed > 0.0
    ensures Decays(e, offset, min, max, k, n).final.armed && |Decays(e, offset, min, max, k, n).outs| == n
    ensures forall i | 0 <= i < n :: !Decays(e, offset, min, max, k, n).outs[i].scrollOver
    decreases n
  {
    if n > 0 {
      var st := DecayTick(e, offset(k), min, max);
      assert Braked(e) / e.damping > 0.0;
      FrictionlessNeverSettles(st.next, offset, min, max, k + 1, n - 1);
    }
  }

  // ---------------------------------------------------------------------------
  // Reset and setters

  /** Reset restores the constructed state, except for the settings and the pressed
      flag, which it keeps. */
  lemma ResetRestoresInitial(e: Engine)
    ensures Reset(e) == Initial().(friction := e.friction, damping := e.damping, pressed := e.pressed)
  {
  }

  /** Each setter writes only its own field and is idempotent; setting friction or
      damping does not touch the timer. */
  lemma SettersWriteOneField(e: Engine, b: bool, f: int, d: int)
    ensures WithPressed(e, b).pressed == b && WithPressed(WithPressed(e, b), b) == WithPressed(e, b)
    ensures WithPressed(e, b).(pressed := e.pressed) == e
    ensures WithFriction(e, f).friction == f as real && WithFriction(WithFriction(e, f), f) == WithFriction(e, f)
    ensures WithFriction(e, f).(friction := e.friction) == e
    ensures WithDamping(e, d).damping == d as real && WithDamping(WithDamping(e, d), d) == WithDamping(e, d)
    ensures WithDamping(e, d).(damping := e.damping) == e
  {
  }
}
