/**
 * The decoded `SharedEvent` record both daemons receive, and the
 * `returnControl` message they send back. JSON text is not modelled: an
 * event is the dictionary after `json.loads`, with absent numeric fields
 * already at their `event.get(name, 0)` defaults.
 *
 * JSON `null` is read the way the daemons' code reads it. A null scroll delta
 * is 0 here, since `if dy:` treats `None` like 0 and sends nothing. A null in
 * a field the event's branch never reads has no effect and is not
 * represented. A null coordinate on a `mouseMove` makes `int(nx * width)`
 * raise before anything is sent, which ends the connection exactly as a
 * payload that does not decode; such a payload has no `Event` here.
 */
module Events {
  import opened Options

  const MOUSE_MOVE: string := "mouseMove"
  const LEFT_MOUSE_DOWN: string := "leftMouseDown"
  const LEFT_MOUSE_UP: string := "leftMouseUp"
  const RIGHT_MOUSE_DOWN: string := "rightMouseDown"
  const RIGHT_MOUSE_UP: string := "rightMouseUp"
  const KEY_DOWN: string := "keyDown"
  const KEY_UP: string := "keyUp"
  const SCROLL_WHEEL: string := "scrollWheel"
  const RETURN_CONTROL: string := "returnControl"

  /**
   * One event. `kind` is `event.get("type")`: absent, one of the names above,
   * or any other string. `keyCode` is `event.get("keyCode")`, absent or null
   * being `None`.
   */
  datatype Event = Event(
    kind: Option<string>,
    normalizedX: real,
    normalizedY: real,
    keyCode: Option<int>,
    scrollDeltaX: real,
    scrollDeltaY: real)
  {
    predicate Is(name: string) {
      kind == Some(name)
    }

    predicate IsKey() {
      Is(KEY_DOWN) || Is(KEY_UP)
    }

    /** One of the types the `inject_event` of both daemons dispatches on. */
    predicate Known() {
      Is(MOUSE_MOVE) || Is(LEFT_MOUSE_DOWN) || Is(LEFT_MOUSE_UP) || Is(RIGHT_MOUSE_DOWN)
      || Is(RIGHT_MOUSE_UP) || IsKey() || Is(SCROLL_WHEEL) || Is(RETURN_CONTROL)
    }
  }

  /** The message sent back when the cursor reaches the left edge. */
  datatype ReturnControl = ReturnControl(normalizedX: real, normalizedY: real, edge: string)

  /** `{"type": "returnControl", "normalizedX": 0, "normalizedY": y, "edge": "left"}`. */
  function ReturnAtLeftEdge(normalizedY: real): ReturnControl {
    ReturnControl(0.0, normalizedY, "left")
  }
}
