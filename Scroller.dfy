/** The kinetic-scroll engine of src/scroller.cpp as an object whose fields the
    operations update in place. Each method is proved to move the object from
    `State()` to the state the matching ScrollerModel function gives, so the
    lemmas of ScrollerModel carry over to the object. */
module Scroller {
  import opened ScrollerModel

  class Scroller {
    var lastPos: Point
    var direction: real
    var speed: real
    var friction: real
    var damping: real
    var pressed: bool
    /** Whether the one-shot timer is pending. */
    var armed: bool

    /** The object's fields as an ScrollerModel.Engine value. */
    function State(): Engine
      reads this
    {
      Engine(lastPos, direction, speed, friction, damping, pressed, armed)
    }

    /** The speed is never negative and the direction is -1, 0 (after a reset) or 1. */
    ghost predicate Valid()
      reads this
    {
      speed >= 0.0 && (direction == -1.0 || direction == 0.0 || direction == 1.0)
    }

    /** The view's engine, not pressed and with the timer stopped. */
    constructor ()
      ensures Valid() && State() == Initial()
    {
      lastPos := NoSample;
      direction := 0.0;
      speed := 0.0;
      friction := DefaultFriction;
      damping := DefaultDamping;
      pressed := false;
      armed := false;
    }

    method SetMousePressed(pressed: bool)
      requires Valid()
      modifies this
      ensures Valid() && State() == WithPressed(old(State()), pressed)
    {
      this.pressed := pressed;
    }

    method StartScroll()
      requires Valid()
      modifies this
      ensures Valid() && State() == Start(old(State()))
    {
      armed := true;
    }

    method ResetScroll()
      requires Valid()
      modifies this
      ensures Valid() && State() == Reset(old(State()))
    {
      lastPos := NoSample;
      direction := 0.0;
      speed := 0.0;
      armed := false;
    }

    method SetFriction(friction: int)
      requires Valid()
      modifies this
      ensures Valid() && State() == WithFriction(old(State()), friction)
    {
      this.friction := friction as real;
    }

    method SetDamping(damping: int)
      requires Valid()
      modifies this
      ensures Valid() && State() == WithDamping(old(State()), damping)
    {
      this.damping := damping as real;
    }

    /** process(): the timer fires. `cursor` is the cursor position, `x0` the
        scrollbar's value and [min, max] its range at this tick. */
    method Process(cursor: Point, x0: int, min: int, max: int) returns (out: Output)
      requires Valid() && armed
      requires pressed || damping != 0.0
      modifies this
      ensures Valid()
      ensures State() == Tick(old(State()), cursor, x0, min, max).next
      ensures out == Tick(old(State()), cursor, x0, min, max).out
    {
      ghost var e := State();
      armed := false;
      var written: Option<real> := None;
      var over := false;
      if pressed {
        if lastPos != NoSample {
          var deltaX := lastPos.x - cursor.x;
          direction := if deltaX >= 0 then 1.0 else -1.0;
          speed := 0.8 * speed + 0.2 * Abs(deltaX as real) / Period;
          written := Some((x0 + deltaX) as real);
        }
        lastPos := cursor;
        armed := true;
      } else {
        var newX := x0 as real + direction * speed * Period;
        speed := speed - friction * Period;
        assert newX == Projected(e, x0) && speed == Braked(e);
        if newX > max as real {
          newX := max as real * 2.0 - newX;
          direction := -1.0;
          speed := speed / damping;
        } else if newX < min as real {
          newX := -newX;
          direction := 1.0;
          speed := speed / damping;
        }
        written := Some(newX);
        if speed > 0.0 {
          armed := true;
        } else {
          over := true;
          speed := 0.0;
        }
      }
      out := Output(written, over, speed);
    }

    /** One firing of the timer inside Glide: Process, with the run it belongs to
        advanced by one tick. */
    method Fire(ghost whole: Run, ghost outs: seq<Output>, offset: nat -> int, min: int, max: int, k: nat, ghost n: nat)
      returns (out: Output)
      requires Valid() && armed && !pressed && damping != 0.0 && n > 0
      requires whole.outs == outs + Decays(State(), offset, min, max, k, n).outs
      requires whole.final == Decays(State(), offset, min, max, k, n).final
      modifies this
      ensures Valid() && !pressed && friction == old(friction) && damping == old(damping)
      ensures whole.outs == (outs + [out]) + Decays(State(), offset, min, max, k + 1, n - 1).outs
      ensures whole.final == Decays(State(), offset, min, max, k + 1, n - 1).final
      ensures armed && !whole.final.armed ==> n - 1 > 0
    {
      DecaysStep(whole, outs, State(), offset, min, max, k, n);
      out := Process(NoSample, offset(k), min, max);
    }

    /** The event loop after a release: the timer keeps firing until a tick leaves
        it disarmed, `offset(k)` being the scrollbar's value at the k-th firing.
        With friction > 0 and damping >= 1 this ends Idle after at most
        TickBound(speed, friction) ticks, with one `scrollOver` on the last. */
    method Glide(offset: nat -> int, min: int, max: int) returns (outs: seq<Output>)
      requires Valid() && armed && !pressed
      requires friction > 0.0 && damping >= 1.0
      modifies this
      ensures Valid() && !armed && speed == 0.0
      ensures Run(outs, State()) == Decays(old(State()), offset, min, max, 0, TickBound(old(speed), old(friction)))
      ensures Settled(Run(outs, State()), old(speed), old(friction))
    {
      ghost var start := State();
      ghost var bound := TickBound(speed, friction);
      ghost var whole := Decays(start, offset, min, max, 0, bound);
      TickBoundEnough(speed, friction);
      DecaysSettle(start, offset, min, max, 0, bound);
      outs := [];
      var k: nat := 0;
      while armed
        invariant Valid() && !pressed && friction == start.friction && damping == start.damping
        invariant k <= bound && |outs| == k && (armed ==> k < bound)
        invariant whole.outs == outs + Decays(State(), offset, min, max, k, bound - k).outs
        invariant whole.final == Decays(State(), offset, min, max, k, bound - k).final
        decreases bound - k
      {
        var out := Fire(whole, outs, offset, min, max, k, bound - k);
        outs := outs + [out];
        k := k + 1;
      }
      ReleaseSettlesOnce(start, offset, min, max);
    }
  }
}
