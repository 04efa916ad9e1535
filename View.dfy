/** The host side of src/view.cpp that drives the engine: a pointer press resets
    the engine, marks it pressed and starts the timer; a release only clears the
    pressed flag, so the next firing of the timer runs a decay tick. */
module View {
  import opened ScrollerModel
  import opened Scroller

  /** mousePressEvent: resetScroll, setMousePressed(true), startScroll. */
  function Press(e: Engine): Engine {
    Start(WithPressed(Reset(e), true))
  }

  /** mouseReleaseEvent: setMousePressed(false). */
  function Release(e: Engine): Engine {
    WithPressed(e, false)
  }

  method MousePress(s: Scroller)
    requires s.Valid()
    modifies s
    ensures s.Valid() && s.State() == Press(old(s.State()))
  {
    s.ResetScroll();
    s.SetMousePressed(true);
    s.StartScroll();
  }

  method MouseRelease(s: Scroller)
    requires s.Valid()
    modifies s
    ensures s.Valid() && s.State() == Release(old(s.State()))
  {
    s.SetMousePressed(false);
  }

  /** A press discards the previous motion and sample: two engines give the same
      pressed state exactly when their friction and damping agree. */
  lemma PressForgetsMotion(e1: Engine, e2: Engine)
    ensures Press(e1) == Press(e2) <==> e1.friction == e2.friction && e1.damping == e2.damping
  {
  }

  /** After a press the engine is Dragging with the timer pending, and its first
      tick writes no offset, keeps the speed at 0 and records the cursor. */
  lemma FirstTickAfterPress(e: Engine, cursor: Point, x0: int, min: int, max: int)
    ensures var p := Press(e);
      p.pressed && p.armed && p.speed == 0.0 && p.direction == 0.0 && p.lastPos == NoSample
    ensures var st := Tick(Press(e), cursor, x0, min, max);
      st.out.written == None && st.next.speed == 0.0 && st.next.direction == 0.0 &&
      st.next.lastPos == cursor && st.next.armed && st.out.speedSent == 0.0
  {
  }

  /** After a release the next tick is a decay tick, whatever the cursor does. */
  lemma ReleaseStartsDecay(e: Engine, c1: Point, c2: Point, x0: int, min: int, max: int)
    requires e.damping != 0.0
    ensures Tick(Release(e), c1, x0, min, max) == Tick(Release(e), c2, x0, min, max)
    ensures Tick(Release(e), c1, x0, min, max) == DecayTick(Release(e), x0, min, max)
  {
  }

  /** With the default settings a drag of 20 pixels to the left gives direction 1
      and speed 400; after the release the first decay tick moves the offset by 4
      and leaves speed 350, and whatever the scrollbar reads at each firing the
      glide stops within 8 ticks, with `scrollOver` on its last tick only. */
  lemma DefaultDragAndRelease(x0: int, x1: int, min: int, max: int, offset: nat -> int)
    requires min as real <= x1 as real + 4.0 <= max as real
    ensures var p := Press(Initial());
      var st1 := Tick(p, Point(500, 300), x0, min, max);
      var st2 := Tick(st1.next, Point(480, 300), x0, min, max);
      var st3 := Tick(Release(st2.next), Point(480, 300), x1, min, max);
      st1.out.written == None &&
      st2.out.written == Some(x0 as real + 20.0) && st2.next.direction == 1.0 && st2.next.speed == 400.0 &&
      st3.out.written == Some(x1 as real + 4.0) && st3.next.speed == 350.0 && st3.next.armed &&
      TickBound(Release(st2.next).speed, Release(st2.next).friction) == 8
    ensures var p := Press(Initial());
      var st1 := Tick(p, Point(500, 300), x0, min, max);
      var st2 := Tick(st1.next, Point(480, 300), x0, min, max);
      var r := Decays(Release(st2.next), offset, min, max, 0, 8);
      1 <= |r.outs| <= 8 && !r.final.armed && r.final.speed == 0.0 &&
      r.outs[|r.outs| - 1].scrollOver && ScrollOverOnlyLast(r)
  {
    var p := Press(Initial());
    var st1 := Tick(p, Point(500, 300), x0, min, max);
    var st2 := Tick(st1.next, Point(480, 300), x0, min, max);
    var e := Release(st2.next);
    assert e.speed == 400.0 && TickBound(e.speed, e.friction) == 8;
    ReleaseSettlesOnce(e, offset, min, max);
    DecaysScrollOverLast(e, offset, min, max, 0, 8);
  }
}
