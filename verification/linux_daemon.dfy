/**
 * The Linux daemon: `inject_event` against a uinput device, the per-frame
 * loop of `tcp_client`, and the decision logic of `_edge_detection_loop`.
 * Device writes and cursor moves are recorded as actions instead of being
 * performed; JSON decoding and encoding are parameters.
 */
module LinuxDaemon {
  import opened Options
  import opened Bytes
  import opened Framing
  import opened Events
  import opened Geometry
  import opened LinuxKeys
  import opened Replies

  /**
   * What `inject_event` does to the outside world: `device.write(type, code,
   * value)`, `device.syn()`, or an `xdotool`/`ydotool mousemove x y`.
   */
  datatype DeviceAction =
    | Write(evType: int, code: int, value: int)
    | Syn
    | MoveCursor(x: int, y: int)

  /** The actions of one `inject_event` call and the pair it returns. */
  datatype Injection = Injection(actions: seq<DeviceAction>, signal: EdgeSignal)

  /** The actions write something on relative axis `axis`. */
  predicate WritesAxis(actions: seq<DeviceAction>, axis: int) {
    exists i :: 0 <= i < |actions| && actions[i].Write? && actions[i].evType == EV_REL && actions[i].code == axis
  }

  /**
   * The `scrollWheel` branch: a wheel write for a non-zero vertical delta,
   * then a horizontal-wheel write for a non-zero horizontal delta, then one
   * syn if anything was written. The written value is `int(delta)`.
   */
  function ScrollActions(dx: real, dy: real): (acts: seq<DeviceAction>)
    ensures |acts| == (if dy != 0.0 then 1 else 0) + (if dx != 0.0 then 1 else 0) + (if dy != 0.0 || dx != 0.0 then 1 else 0)
    ensures WritesAxis(acts, REL_WHEEL) <==> dy != 0.0
    ensures WritesAxis(acts, REL_HWHEEL) <==> dx != 0.0
    ensures dy != 0.0 ==> acts[0] == Write(EV_REL, REL_WHEEL, Trunc(dy))
    ensures dx != 0.0 ==> acts[|acts| - 2] == Write(EV_REL, REL_HWHEEL, Trunc(dx))
    ensures Syn in acts <==> dy != 0.0 || dx != 0.0
    ensures acts != [] ==> acts[|acts| - 1] == Syn
    ensures forall i :: 0 <= i < |acts| - 1 ==> acts[i].Write? && acts[i].evType == EV_REL
  {
    var wheel := if dy != 0.0 then [Write(EV_REL, REL_WHEEL, Trunc(dy))] else [];
    var hwheel := if dx != 0.0 then [Write(EV_REL, REL_HWHEEL, Trunc(dx))] else [];
    var syn := if dy != 0.0 || dx != 0.0 then [Syn] else [];
    var acts := wheel + hwheel + syn;
    assert dy != 0.0 ==> acts[0] == wheel[0];
    assert dx != 0.0 ==> acts[|wheel|] == hwheel[0];
    assert WritesAxis(acts, REL_WHEEL) ==> dy != 0.0;
    assert WritesAxis(acts, REL_HWHEEL) ==> dx != 0.0;
    assert dy != 0.0 || dx != 0.0 ==> acts[|acts| - 1] == Syn;
    acts
  }

  /**
   * A button branch: the device holds `button` down afterwards when `value`
   * is 1 and no longer holds it when `value` is 0, and the change is
   * reported, ending with a syn.
   */
  function ButtonActions(button: int, value: int): (acts: seq<DeviceAction>)
    ensures acts != [] && acts[|acts| - 1] == Syn
    ensures forall down :: DownAfter(down, acts) == if value == 0 then down - {button} else down + {button}
  {
    var acts := [Write(EV_KEY, button, value), Syn];
    assert acts[1..] == [Syn];
    assert forall d :: DownAfter(d, [Syn]) == DownAfter(Press(d, Syn), []);
    assert forall d :: DownAfter(d, acts) == DownAfter(Press(d, acts[0]), [Syn]);
    acts
  }

  /**
   * The key branch: nothing when the event has no key code or the table does
   * not list it; otherwise the mapped key pressed (1) for `keyDown` or
   * released (0) for `keyUp`, followed by a syn.
   */
  function KeyActions(e: Event): (acts: seq<DeviceAction>)
    requires e.IsKey()
    ensures acts == [] <==> e.keyCode.None? || MacToLinuxKeycode(e.keyCode.value).None?
    ensures acts != [] ==> |acts| == 2 && acts[1] == Syn
    ensures acts != [] ==> acts[0] == Write(EV_KEY, MacToLinuxKeycode(e.keyCode.value).value, if e.Is(Events.KEY_DOWN) then 1 else 0)
  {
    match e.keyCode
    case None => []
    case Some(mac) =>
      match MacToLinuxKeycode(mac)
      case None => []
      case Some(code) => [Write(EV_KEY, code, if e.Is(Events.KEY_DOWN) then 1 else 0), Syn]
  }

  /** `inject_event(event, device)` on a screen of the given size. */
  function InjectEvent(e: Event, screen: Screen): (inj: Injection)
    ensures inj.signal.shouldReturn <==> e.Is(MOUSE_MOVE) && MoveTarget(e, screen).0 <= EDGE_THRESHOLD
    ensures !inj.signal.shouldReturn ==> inj.signal == KeepControl
    ensures inj.signal.shouldReturn ==> inj.signal.normY == NormaliseY(MoveTarget(e, screen).1, screen.height)
    ensures screen.height > 0 ==> 0.0 <= inj.signal.normY < 1.0
    ensures e.Is(MOUSE_MOVE) ==> inj.actions == [MoveCursor(MoveTarget(e, screen).0, MoveTarget(e, screen).1)]
    ensures e.Is(LEFT_MOUSE_DOWN) ==> inj.actions == [Write(EV_KEY, BTN_LEFT, 1), Syn]
    ensures e.Is(LEFT_MOUSE_UP) ==> inj.actions == [Write(EV_KEY, BTN_LEFT, 0), Syn]
    ensures e.Is(RIGHT_MOUSE_DOWN) ==> inj.actions == [Write(EV_KEY, BTN_RIGHT, 1), Syn]
    ensures e.Is(RIGHT_MOUSE_UP) ==> inj.actions == [Write(EV_KEY, BTN_RIGHT, 0), Syn]
    ensures e.IsKey() ==> inj.actions == KeyActions(e)
    ensures e.Is(SCROLL_WHEEL) ==> inj.actions == ScrollActions(e.scrollDeltaX, e.scrollDeltaY)
    ensures e.Is(RETURN_CONTROL) ==> inj.actions == []
    ensures !e.Known() ==> inj.actions == []
  {
    if e.Is(MOUSE_MOVE) then
      var (x, y) := MoveTarget(e, screen);
      Injection([MoveCursor(x, y)], LeftEdgeCheck(x, y, screen))
    else if e.Is(LEFT_MOUSE_DOWN) then Injection(ButtonActions(BTN_LEFT, 1), KeepControl)
    else if e.Is(LEFT_MOUSE_UP) then Injection(ButtonActions(BTN_LEFT, 0), KeepControl)
    else if e.Is(RIGHT_MOUSE_DOWN) then Injection(ButtonActions(BTN_RIGHT, 1), KeepControl)
    else if e.Is(RIGHT_MOUSE_UP) then Injection(ButtonActions(BTN_RIGHT, 0), KeepControl)
    else if e.IsKey() then Injection(KeyActions(e), KeepControl)
    else if e.Is(SCROLL_WHEEL) then Injection(ScrollActions(e.scrollDeltaX, e.scrollDeltaY), KeepControl)
    else Injection([], KeepControl)
  }

  // ── What the device holds down ─────────────────────────────────────

  /** One write's effect on the held keys and buttons: a key write of 0 releases its code, any other value presses it. */
  function Press(down: set<int>, a: DeviceAction): set<int> {
    if a.Write? && a.evType == EV_KEY then
      if a.value == 0 then down - {a.code} else down + {a.code}
    else down
  }

  /** The keys and buttons the device holds down after `acts`, starting from `down`. */
  function DownAfter(down: set<int>, acts: seq<DeviceAction>): set<int>
    decreases |acts|
  {
    if acts == [] then down else DownAfter(Press(down, acts[0]), acts[1..])
  }

  /** `acts` writes nothing for key or button `code`. */
  predicate Untouched(acts: seq<DeviceAction>, code: int) {
    forall j :: 0 <= j < |acts| ==> !(acts[j].Write? && acts[j].evType == EV_KEY && acts[j].code == code)
  }

  /**
   * The last write wins: a key or button whose last write in `acts` presses
   * it is held afterwards, whatever was held before.
   */
  lemma {:induction false} LastPressHolds(down: set<int>, acts: seq<DeviceAction>, i: nat, code: int)
    requires i < |acts| && acts[i] == Write(EV_KEY, code, 1)
    requires Untouched(acts[i + 1..], code)
    ensures code in DownAfter(down, acts)
    decreases |acts|
  {
    if i == 0 {
      UntouchedKeeps(Press(down, acts[0]), acts[1..], code);
    } else {
      assert acts[1..][i..] == acts[i + 1..];
      LastPressHolds(Press(down, acts[0]), acts[1..], i - 1, code);
    }
  }

  lemma {:induction false} UntouchedKeeps(down: set<int>, acts: seq<DeviceAction>, code: int)
    requires code in down && Untouched(acts, code)
    ensures code in DownAfter(down, acts)
    decreases |acts|
  {
    if acts != [] {
      assert Untouched(acts[1..], code) by {
        assert forall j :: 0 <= j < |acts| - 1 ==> acts[1..][j] == acts[j + 1];
      }
      UntouchedKeeps(Press(down, acts[0]), acts[1..], code);
    }
  }

  /** The actions of successive injections, in order. */
  function Actions(injected: seq<Injection>): seq<DeviceAction> {
    if injected == [] then [] else injected[0].actions + Actions(injected[1..])
  }

  /**
   * What one `inject_event` call leaves held: a mapped `keyDown` or a button
   * press adds its code, a mapped `keyUp` or a button release removes it, and
   * every other event (moves, scrolls, unmapped keys, `returnControl`) leaves
   * the held set as it was.
   */
  lemma InjectPresses(e: Event, screen: Screen, down: set<int>)
    ensures DownAfter(down, InjectEvent(e, screen).actions) ==
      if e.Is(LEFT_MOUSE_DOWN) then down + {BTN_LEFT}
      else if e.Is(LEFT_MOUSE_UP) then down - {BTN_LEFT}
      else if e.Is(RIGHT_MOUSE_DOWN) then down + {BTN_RIGHT}
      else if e.Is(RIGHT_MOUSE_UP) then down - {BTN_RIGHT}
      else if e.IsKey() && e.keyCode.Some? && MacToLinuxKeycode(e.keyCode.value).Some? then
        if e.Is(Events.KEY_DOWN) then down + {MacToLinuxKeycode(e.keyCode.value).value}
        else down - {MacToLinuxKeycode(e.keyCode.value).value}
      else down
  {
    var acts := InjectEvent(e, screen).actions;
    if e.Is(SCROLL_WHEEL) {
      var n := |acts|;
      if n > 0 {
        assert DownAfter(down, acts) == DownAfter(down, acts[1..]);
        if n > 1 {
          assert DownAfter(down, acts[1..]) == DownAfter(down, acts[1..][1..]);
          if n > 2 {
            assert DownAfter(down, acts[1..][1..]) == DownAfter(down, acts[1..][1..][1..]);
          }
        }
      }
    } else if e.IsKey() && acts != [] {
      assert DownAfter(down, acts) == DownAfter(Press(down, acts[0]), [Syn]);
    } else if e.Is(MOUSE_MOVE) {
      assert DownAfter(down, acts) == DownAfter(down, []);
    }
  }

  /** The device accepts the write: a declared key with value 0 or 1, or a declared relative axis. */
  predicate Declared(a: DeviceAction) {
    a.Write? ==>
      (a.evType == EV_KEY && a.code in KeyCapabilities() && a.value in {0, 1})
      || (a.evType == EV_REL && a.code in REL_CAPABILITIES)
  }

  /**
   * Whatever the event, every write `inject_event` makes uses a key code or
   * an axis that `create_virtual_device` declared.
   */
  lemma InjectWritesDeclared(e: Event, screen: Screen)
    ensures forall i :: 0 <= i < |InjectEvent(e, screen).actions| ==> Declared(InjectEvent(e, screen).actions[i])
  {
    var acts := InjectEvent(e, screen).actions;
    KeyCapabilitiesExactly(BTN_LEFT);
    KeyCapabilitiesExactly(BTN_RIGHT);
    if e.IsKey() && acts != [] {
      var mac := e.keyCode.value;
      KeyCapabilitiesExactly(MacToLinuxKeycode(mac).value);
    }
  }

  // ── `tcp_client` ───────────────────────────────────────────────────

  /** One connection, from connect to the exception that ends it. */
  datatype Session = Session(injected: seq<Injection>, sent: seq<bytes>, exit: Exit)

  /** The edge signals of the injections, in order. */
  function Signals(injected: seq<Injection>): (signals: seq<EdgeSignal>)
    ensures |signals| == |injected|
    ensures forall i :: 0 <= i < |injected| ==> signals[i] == injected[i].signal
  {
    seq(|injected|, i requires 0 <= i < |injected| => injected[i].signal)
  }

  /** A session whose replies and exit answer its injections, as `Replies.Answered` says. */
  predicate Consistent(s: Session, dumps: ReturnControl -> bytes) {
    Answered(Signals(s.injected), s.sent, s.exit, dumps)
  }

  /**
   * The inner loop of `tcp_client` over one connection: read a frame, decode
   * it with `loads`, inject it, and when the cursor reached the left edge
   * send a framed `returnControl` encoded with `dumps`. It ends at the first
   * error, after which the daemon reconnects.
   */
  function Serve(r: Reader, screen: Screen, loads: bytes -> Option<Event>, dumps: ReturnControl -> bytes): (s: Session)
    decreases |Avail(r)|, 0
    ensures Consistent(s, dumps)
  {
    match ReadFrame(r)
    case Closed => AnsweredNothing(ConnectionLost, dumps); Session([], [], ConnectionLost)
    case BadLength(length, _) =>
      AnsweredNothing(InvalidLength(length), dumps);
      Session([], [], InvalidLength(length))
    case Frame(payload, rest) =>
      match loads(payload)
      case None => AnsweredNothing(MalformedPayload, dumps); Session([], [], MalformedPayload)
      case Some(e) => ServeEvent(e, rest, screen, loads, dumps)
  }

  /** The rest of `Serve` once a frame has decoded to the event `e`. */
  function ServeEvent(e: Event, rest: Reader, screen: Screen, loads: bytes -> Option<Event>, dumps: ReturnControl -> bytes): (s: Session)
    decreases |Avail(rest)|, 1
    ensures Consistent(s, dumps)
    ensures s.injected != [] && s.injected[0] == InjectEvent(e, screen)
  {
    var inj := InjectEvent(e, screen);
    match Reply(inj.signal, dumps)
    case None =>
      AnsweredFailure(inj.signal, dumps);
      assert Signals([inj]) == [inj.signal];
      Session([inj], [], EncodeFailed)
    case Some(out) => Continue(inj, out, Serve(rest, screen, loads, dumps), dumps)
  }

  /**
   * One injection whose reply `out` was sent, in front of the rest of the
   * session: the reply goes out before anything the rest sends, and the rest
   * decides how the session ends.
   */
  function Continue(inj: Injection, out: seq<bytes>, tail: Session, dumps: ReturnControl -> bytes): (s: Session)
    requires Reply(inj.signal, dumps) == Some(out)
    requires Consistent(tail, dumps)
    ensures Consistent(s, dumps)
    ensures s.injected == [inj] + tail.injected && s.sent == out + tail.sent && s.exit == tail.exit
  {
    var s := Session([inj] + tail.injected, out + tail.sent, tail.exit);
    assert Signals(s.injected) == [inj.signal] + Signals(tail.injected);
    AnsweredCons(inj.signal, out, Signals(tail.injected), tail.sent, tail.exit, dumps);
    s
  }

  /** `inject_event` applied to each event in turn. */
  function Injections(events: seq<Event>, screen: Screen): (injected: seq<Injection>)
    ensures |injected| == |events|
    ensures forall i :: 0 <= i < |events| ==> injected[i] == InjectEvent(events[i], screen)
  {
    if events == [] then [] else [InjectEvent(events[0], screen)] + Injections(events[1..], screen)
  }

  /** Each payload is acceptable and decodes to the matching event. */
  predicate Carries(payloads: seq<bytes>, events: seq<Event>, loads: bytes -> Option<Event>) {
    && |payloads| == |events|
    && forall i :: 0 <= i < |payloads| ==> Sendable(payloads[i]) && loads(payloads[i]) == Some(events[i])
  }

  lemma CarriesRest(payloads: seq<bytes>, events: seq<Event>, loads: bytes -> Option<Event>)
    requires Carries(payloads, events, loads) && payloads != []
    ensures Carries(payloads[1..], events[1..], loads)
    ensures Sendable(payloads[0]) && loads(payloads[0]) == Some(events[0])
  {
    assert forall i :: 0 <= i < |payloads| - 1 ==> payloads[1..][i] == payloads[i + 1] && events[1..][i] == events[i + 1];
  }

  lemma PrefixOfCons<T>(x: T, s: seq<T>, n: nat)
    requires 0 < n <= |s| + 1
    ensures ([x] + s)[..n] == [x] + s[..n - 1]
  {
  }

  /**
   * Frames arrive in order: when the stream carries acceptable frames that
   * decode to `events`, and every reply fits a header, the session injects
   * exactly those events, in order, however the stream is chunked; a stream
   * that ends right after them ends the session with a lost connection.
   */
  lemma {:induction false} ServeInOrder(
    payloads: seq<bytes>, events: seq<Event>, r: Reader, tail: bytes,
    screen: Screen, loads: bytes -> Option<Event>, dumps: ReturnControl -> bytes)
    requires Carries(payloads, events, loads)
    requires forall rc :: |dumps(rc)| < UINT32_LIMIT
    requires Avail(r) == Frames(payloads) + tail
    ensures |Serve(r, screen, loads, dumps).injected| >= |events|
    ensures Serve(r, screen, loads, dumps).injected[..|events|] == Injections(events, screen)
    ensures tail == [] ==> Serve(r, screen, loads, dumps).injected == Injections(events, screen)
    ensures tail == [] ==> Serve(r, screen, loads, dumps).exit == ConnectionLost
    ensures tail == [] ==> Serve(r, screen, loads, dumps).sent == Answers(Signals(Injections(events, screen)), dumps)
    decreases |payloads|
  {
    if payloads == [] {
      assert Avail(r) == tail;
    } else {
      CarriesRest(payloads, events, loads);
      var rest := Frames(payloads[1..]) + tail;
      assert Avail(r) == EncodeFrame(payloads[0]).value + rest;
      var r' := ServeFirst(payloads[0], events[0], r, rest, screen, loads, dumps);
      CarriesRest(payloads, events, loads);
      ServeInOrder(payloads[1..], events[1..], r', tail, screen, loads, dumps);
      PrefixOfCons(InjectEvent(events[0], screen), Serve(r', screen, loads, dumps).injected, |events|);
    }
  }

  /**
   * One frame of a well-formed stream: the session injects its event and
   * goes on with the reader just after it.
   */
  lemma ServeFirst(
    payload: bytes, e: Event, r: Reader, rest: bytes,
    screen: Screen, loads: bytes -> Option<Event>, dumps: ReturnControl -> bytes) returns (r': Reader)
    requires Sendable(payload) && loads(payload) == Some(e)
    requires forall rc :: |dumps(rc)| < UINT32_LIMIT
    requires Avail(r) == EncodeFrame(payload).value + rest
    ensures Avail(r') == rest
    ensures Serve(r, screen, loads, dumps).injected == [InjectEvent(e, screen)] + Serve(r', screen, loads, dumps).injected
    ensures Serve(r, screen, loads, dumps).exit == Serve(r', screen, loads, dumps).exit
  {
    FrameRoundTrip(payload, r, rest);
    r' := ReadFrame(r).rest;
    var inj := InjectEvent(e, screen);
    assert Reply(inj.signal, dumps).Some?;
    assert Serve(r, screen, loads, dumps) == ServeEvent(e, r', screen, loads, dumps);
  }

  /**
   * A disconnect releases nothing: when the stream carries one `keyDown` for
   * a mapped key and then ends, the session ends with a lost connection and
   * the device, which outlives the connection, still holds the key.
   */
  lemma KeyHeldAfterDisconnect(
    payload: bytes, e: Event, r: Reader,
    screen: Screen, loads: bytes -> Option<Event>, dumps: ReturnControl -> bytes)
    requires Sendable(payload) && loads(payload) == Some(e)
    requires e.Is(Events.KEY_DOWN) && e.keyCode.Some? && MacToLinuxKeycode(e.keyCode.value).Some?
    requires forall rc :: |dumps(rc)| < UINT32_LIMIT
    requires Avail(r) == EncodeFrame(payload).value
    ensures Serve(r, screen, loads, dumps).exit == ConnectionLost
    ensures MacToLinuxKeycode(e.keyCode.value).value in DownAfter({}, Actions(Serve(r, screen, loads, dumps).injected))
  {
    SingleFrame(payload, e, r, screen, loads, dumps);
    ActionsOfOne(InjectEvent(e, screen));
    KeyDownHolds(e, screen);
  }

  lemma ActionsOfOne(inj: Injection)
    ensures Actions([inj]) == inj.actions
  {
    assert [inj][1..] == [];
  }

  /** A `keyDown` for a mapped key leaves the device holding the key. */
  lemma KeyDownHolds(e: Event, screen: Screen)
    requires e.Is(Events.KEY_DOWN) && e.keyCode.Some? && MacToLinuxKeycode(e.keyCode.value).Some?
    ensures MacToLinuxKeycode(e.keyCode.value).value in DownAfter({}, InjectEvent(e, screen).actions)
  {
    var acts := InjectEvent(e, screen).actions;
    assert acts == KeyActions(e);
    assert DownAfter({}, acts) == DownAfter(Press({}, acts[0]), [Syn]);
    assert DownAfter(Press({}, acts[0]), [Syn]) == DownAfter(Press({}, acts[0]), []);
  }

  /** A stream holding one acceptable frame: its event is injected and the session ends with a lost connection. */
  lemma SingleFrame(
    payload: bytes, e: Event, r: Reader,
    screen: Screen, loads: bytes -> Option<Event>, dumps: ReturnControl -> bytes)
    requires Sendable(payload) && loads(payload) == Some(e)
    requires forall rc :: |dumps(rc)| < UINT32_LIMIT
    requires Avail(r) == EncodeFrame(payload).value
    ensures Serve(r, screen, loads, dumps).exit == ConnectionLost
    ensures Serve(r, screen, loads, dumps).injected == [InjectEvent(e, screen)]
  {
    assert Frames([payload]) == EncodeFrame(payload).value + Frames([]);
    assert Avail(r) == Frames([payload]) + [];
    ServeInOrder([payload], [e], r, [], screen, loads, dumps);
    assert Injections([e], screen) == [InjectEvent(e, screen)];
  }

  /**
   * What `_edge_detection_loop` does over the successive cursor readings it
   * takes until the stop event is set from outside (`None` where
   * `_get_cursor_position` failed): send one `returnControl` for the first
   * reading at the left edge and stop, or stop without sending anything.
   */
  datatype EdgeOutcome = Returned(at: nat, message: ReturnControl) | StoppedWithoutReturn

  /** `_edge_detection_loop` from the reading at index `i` on. */
  function EdgeDetectionLoop(polls: seq<Option<(int, int)>>, screen: Screen, i: nat): (o: EdgeOutcome)
    decreases |polls| - i
    ensures o.Returned? <==> exists j :: i <= j < |polls| && AtLeftEdge(polls[j])
    ensures o.Returned? ==>
      && i <= o.at < |polls| && AtLeftEdge(polls[o.at])
      && (forall j :: i <= j < o.at ==> !AtLeftEdge(polls[j]))
      && o.message == ReturnAtLeftEdge(NormaliseY(polls[o.at].value.1, screen.height))
  {
    if i >= |polls| then StoppedWithoutReturn
    else if AtLeftEdge(polls[i]) then
      Returned(i, ReturnAtLeftEdge(NormaliseY(polls[i].value.1, screen.height)))
    else EdgeDetectionLoop(polls, screen, i + 1)
  }

  /** A successful reading with `x <= EDGE_THRESHOLD`. */
  predicate AtLeftEdge(poll: Option<(int, int)>) {
    poll.Some? && poll.value.0 <= EDGE_THRESHOLD
  }
}
