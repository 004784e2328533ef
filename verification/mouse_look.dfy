/** The mouse-move handler: it turns absolute cursor positions into look
    offsets for the camera. It keeps the previous position and a "first
    sample" flag, so that the very first event, whose previous position is
    only the window centre, does not make the camera jump. Cursor positions
    are modelled as `real` (the source narrows them to `float`). */
module MouseLook {

  /** Initial window size; the previous position starts at its centre. */
  const SCR_WIDTH: nat := 1600
  const SCR_HEIGHT: nat := 1200

  /** The handler's state: the previous cursor position and whether the next
      event is the first one. */
  datatype Cursor = Cursor(lastX: real, lastY: real, firstMouse: bool)

  /** The look offset handed to the camera. */
  datatype Offset = Offset(dx: real, dy: real)

  /** State before any event: centre of the window (integer division, as in
      the source), first sample still to come. */
  function Initial(): Cursor
  {
    Cursor((SCR_WIDTH / 2) as real, (SCR_HEIGHT / 2) as real, true)
  }

  /** One event at (x, y): on the first sample the previous position is
      taken to be the current one; the offset is the move since the previous
      position, with y inverted (screen y grows downwards, looking up is
      positive); the current position becomes the previous one. */
  function Step(c: Cursor, x: real, y: real): (r: (Cursor, Offset))
    ensures r.0 == Cursor(x, y, false)
    ensures c.firstMouse ==> r.1 == Offset(0.0, 0.0)
    ensures !c.firstMouse ==> r.1 == Offset(x - c.lastX, c.lastY - y)
  {
    var prev := if c.firstMouse then Cursor(x, y, false) else c;
    (Cursor(x, y, false), Offset(x - prev.lastX, prev.lastY - y))
  }

  /** A run of events, in order: the final state and the offset of each. */
  function Replay(c: Cursor, events: seq<(real, real)>): (r: (Cursor, seq<Offset>))
    ensures |r.1| == |events|
    ensures events == [] ==> r.0 == c
    ensures events != [] ==> r.0 == Cursor(events[|events| - 1].0, events[|events| - 1].1, false)
    ensures events != [] ==> r.1[0] == Step(c, events[0].0, events[0].1).1
    ensures forall i :: 0 < i < |events| ==>
              r.1[i] == Offset(events[i].0 - events[i - 1].0, events[i - 1].1 - events[i].1)
    decreases |events|
  {
    if events == [] then (c, [])
    else
      var (c1, o) := Step(c, events[0].0, events[0].1);
      var (c2, os) := Replay(c1, events[1..]);
      (c2, [o] + os)
  }

  function SumDx(os: seq<Offset>): real
  {
    if os == [] then 0.0 else os[0].dx + SumDx(os[1..])
  }

  function SumDy(os: seq<Offset>): real
  {
    if os == [] then 0.0 else os[0].dy + SumDy(os[1..])
  }

  /** After the first sample the offsets telescope: over any run of events,
      the x offsets add up to the net horizontal move and the y offsets to
      the net vertical move, inverted. The reference point is the previous
      position, or, on a first sample, the first event itself. */
  lemma {:induction false} ReplayTelescopes(c: Cursor, events: seq<(real, real)>)
    requires events != []
    ensures var first := if c.firstMouse then events[0] else (c.lastX, c.lastY);
            var last := events[|events| - 1];
            var os := Replay(c, events).1;
            SumDx(os) == last.0 - first.0 && SumDy(os) == first.1 - last.1
    decreases |events|
  {
    var (c1, o) := Step(c, events[0].0, events[0].1);
    var rest := Replay(c1, events[1..]).1;
    assert Replay(c, events).1 == [o] + rest;
    assert ([o] + rest)[1..] == rest;
    if |events| > 1 {
      ReplayTelescopes(c1, events[1..]);
    }
  }

  /** From the initial state, the whole run's offsets add up to the move
      from the first event to the last: the first sample contributes no jump
      from the window centre. */
  lemma FromStartNoJump(events: seq<(real, real)>)
    requires events != []
    ensures SumDx(Replay(Initial(), events).1) == events[|events| - 1].0 - events[0].0
    ensures SumDy(Replay(Initial(), events).1) == events[0].1 - events[|events| - 1].1
  {
    ReplayTelescopes(Initial(), events);
  }

  /** The handler's globals `lastX`, `lastY` and `firstMouse`. */
  class MouseState {
    var lastX: real
    var lastY: real
    var firstMouse: bool

    function State(): Cursor
      reads this
    {
      Cursor(lastX, lastY, firstMouse)
    }

    /** The globals' initial values. */
    constructor ()
      ensures State() == Initial()
    {
      lastX := (SCR_WIDTH / 2) as real;
      lastY := (SCR_HEIGHT / 2) as real;
      firstMouse := true;
    }

    /** mouse_callback: updates the globals and returns the offset that the
        source passes on to the camera. */
    method MouseCallback(xpos: real, ypos: real) returns (xOffset: real, yOffset: real)
      modifies this
      ensures (State(), Offset(xOffset, yOffset)) == Step(old(State()), xpos, ypos)
      ensures !firstMouse && lastX == xpos && lastY == ypos
      ensures old(firstMouse) ==> xOffset == 0.0 && yOffset == 0.0
      ensures !old(firstMouse) ==> xOffset == xpos - old(lastX) && yOffset == old(lastY) - ypos
    {
      if firstMouse {
        lastX := xpos;
        lastY := ypos;
        firstMouse := false;
      }
      xOffset := xpos - lastX;
      yOffset := lastY - ypos;
      lastX := xpos;
      lastY := ypos;
    }
  }
}
