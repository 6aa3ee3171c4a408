/**
 * Screen geometry shared by both daemons: denormalising a mouse-move event to
 * pixels, clamping to the screen, and the left-edge test that decides when to
 * hand control back.
 */
module Geometry {
  import opened Events

  /** Pixels from the left edge at which control goes back to the sender. */
  const EDGE_THRESHOLD: int := 5

  /** `SCREEN_WIDTH` and `SCREEN_HEIGHT`; either may be 0 when detection reports it. */
  datatype Screen = Screen(width: nat, height: nat)

  /** Python's `int()` on a number: truncation toward zero. */
  function Trunc(x: real): (n: int)
    ensures 0.0 <= x ==> n as real <= x < n as real + 1.0
    ensures x < 0.0 ==> n as real - 1.0 < x <= n as real
  {
    if x >= 0.0 then x.Floor else -((-x).Floor)
  }

  /** `max(0, min(v, size - 1))`. */
  function Clamp(v: int, size: nat): (c: int)
    ensures 0 <= c
    ensures size > 0 ==> c < size
    ensures 0 <= v < size ==> c == v
    ensures v < 0 ==> c == 0
    ensures size > 0 && v >= size ==> c == size - 1
    ensures size == 0 ==> c == 0
  {
    var upper := if v < size - 1 then v else size - 1;
    if upper < 0 then 0 else upper
  }

  /** `int(n * size)` clamped to the screen: the pixel a normalised coordinate lands on. */
  function Denormalise(n: real, size: nat): (p: int)
    ensures 0 <= p && (size > 0 ==> p < size)
    ensures 0.0 <= n * size as real < size as real ==> p as real <= n * size as real < p as real + 1.0
  {
    Clamp(Trunc(n * size as real), size)
  }

  /** The pixel a mouse-move event puts the cursor on (`_inject_mouse_move`). */
  function MoveTarget(e: Event, screen: Screen): (p: (int, int))
    ensures 0 <= p.0 && (screen.width > 0 ==> p.0 < screen.width)
    ensures 0 <= p.1 && (screen.height > 0 ==> p.1 < screen.height)
  {
    (Denormalise(e.normalizedX, screen.width), Denormalise(e.normalizedY, screen.height))
  }

  /** `y / SCREEN_HEIGHT if SCREEN_HEIGHT else 0`. */
  function NormaliseY(y: int, height: nat): (ny: real)
    ensures height == 0 ==> ny == 0.0
    ensures 0 <= y < height ==> 0.0 <= ny < 1.0
    ensures height > 0 ==> ny * height as real == y as real
  {
    if height != 0 then y as real / height as real else 0.0
  }

  /** The pair `inject_event` returns: hand control back, and where on the left edge. */
  datatype EdgeSignal = EdgeSignal(shouldReturn: bool, normY: real)

  /** `(False, 0)`: keep control. */
  const KeepControl: EdgeSignal := EdgeSignal(false, 0.0)

  /** The left-edge test on a clamped cursor position. */
  function LeftEdgeCheck(x: int, y: int, screen: Screen): (s: EdgeSignal)
    requires 0 <= y && (screen.height > 0 ==> y < screen.height)
    ensures s.shouldReturn <==> x <= EDGE_THRESHOLD
    ensures !s.shouldReturn ==> s == KeepControl
    ensures screen.height > 0 ==> 0.0 <= s.normY < 1.0
    ensures s.shouldReturn && screen.height > 0 ==> s.normY * screen.height as real == y as real
  {
    if x <= EDGE_THRESHOLD then EdgeSignal(true, NormaliseY(y, screen.height)) else KeepControl
  }

  /**
   * The edge fires exactly when the event's horizontal position, scaled to the
   * screen, is left of pixel 6; on a screen at most 6 pixels wide every
   * position fires.
   */
  lemma LeftEdgeReached(nx: real, width: nat)
    ensures width > EDGE_THRESHOLD + 1 ==>
      (Denormalise(nx, width) <= EDGE_THRESHOLD <==> nx * width as real < (EDGE_THRESHOLD + 1) as real)
    ensures width <= EDGE_THRESHOLD + 1 ==> Denormalise(nx, width) <= EDGE_THRESHOLD
  {
    var t := Trunc(nx * width as real);
    assert t <= EDGE_THRESHOLD <==> nx * width as real < (EDGE_THRESHOLD + 1) as real;
  }
}
