/**
 * The Windows daemon: `inject_event` against `SendInput` and `SetCursorPos`,
 * the `_pressed_keys` bookkeeping with `_release_all_keys`, the input records
 * built by `_send_key_input` and `_send_mouse_input`, and the per-frame loop
 * of `tcp_client` with its `finally` teardown. Win32 calls are recorded as
 * actions instead of being performed; JSON decoding and encoding are
 * parameters.
 */
module WindowsDaemon {
  import opened Options
  import opened Bytes
  import opened Framing
  import opened Events
  import opened Geometry
  import opened WindowsKeys
  import opened Replies

  const MOUSEEVENTF_LEFTDOWN: bv32 := 0x0002
  const MOUSEEVENTF_LEFTUP: bv32 := 0x0004
  const MOUSEEVENTF_RIGHTDOWN: bv32 := 0x0008
  const MOUSEEVENTF_RIGHTUP: bv32 := 0x0010
  const MOUSEEVENTF_WHEEL: bv32 := 0x0800
  const MOUSEEVENTF_HWHEEL: bv32 := 0x1000

  const KEYEVENTF_KEYUP: bv32 := 0x0002
  const KEYEVENTF_EXTENDEDKEY: bv32 := 0x0001

  /** One wheel notch, the factor a scroll delta is multiplied by. */
  const WHEEL_DELTA: int := 120

  /** The entries `_pressed_keys` uses for the held mouse buttons. */
  const LEFT_BUTTON: int := -1
  const RIGHT_BUTTON: int := -2

  /** One more than the largest `WORD` and `DWORD`. */
  const WORD_LIMIT: int := 0x1_0000
  const DWORD_LIMIT: int := 0x1_0000_0000

  /**
   * One Win32 call: `SetCursorPos(x, y)`, or one `SendInput` record of type
   * `INPUT_MOUSE` or `INPUT_KEYBOARD` with the field values it carries.
   */
  datatype WinAction =
    | SetCursorPos(x: int, y: int)
    | SendMouse(flags: bv32, data: int)
    | SendKey(vk: int, flags: bv32)

  /** The `dwFlags` that `_send_key_input` computes. */
  function KeyFlags(vk: int, down: bool): (flags: bv32)
    ensures flags & KEYEVENTF_KEYUP != 0 <==> !down
    ensures flags & KEYEVENTF_EXTENDEDKEY != 0 <==> vk in EXTENDED_KEYS
    ensures flags & !(KEYEVENTF_KEYUP | KEYEVENTF_EXTENDEDKEY) == 0
  {
    var up: bv32 := if down then 0 else KEYEVENTF_KEYUP;
    if vk in EXTENDED_KEYS then up | KEYEVENTF_EXTENDEDKEY else up
  }

  /** `ctypes.wintypes.WORD(v)`: the low 16 bits. */
  function Word(v: int): (w: int)
    ensures 0 <= w < WORD_LIMIT
    ensures 0 <= v < WORD_LIMIT ==> w == v
    ensures -WORD_LIMIT <= v < 0 ==> w == v + WORD_LIMIT
  {
    v % WORD_LIMIT
  }

  /** `data & 0xFFFFFFFF`: the low 32 bits, so a negative value becomes its two's complement. */
  function MouseData(d: int): (m: int)
    ensures 0 <= m < DWORD_LIMIT
    ensures (d - m) % DWORD_LIMIT == 0
  {
    d % DWORD_LIMIT
  }

  /** How the receiver of a `DWORD` `mouseData` reads it as a signed 32-bit delta. */
  function Signed32(m: int): int
    requires 0 <= m < DWORD_LIMIT
  {
    if m < DWORD_LIMIT / 2 then m else m - DWORD_LIMIT
  }

  /** Masking loses nothing for a delta that fits 32 signed bits: the receiver reads it back. */
  lemma MouseDataRoundTrip(d: int)
    requires -DWORD_LIMIT / 2 <= d < DWORD_LIMIT / 2
    ensures Signed32(MouseData(d)) == d
  {
    if d < 0 {
      assert MouseData(d) == d + DWORD_LIMIT;
    }
  }

  /**
   * `_send_key_input(vk, down)`: one keyboard record for `WORD(vk)`, which
   * is `vk` itself for a 16-bit key, flagged as a key-up exactly when `down`
   * is false and as an extended key exactly for the keys in `EXTENDED_KEYS`.
   * `SendKeyInputHolds` states what Windows then holds.
   */
  function SendKeyInput(vk: int, down: bool): (a: WinAction)
    ensures a.SendKey? && 0 <= a.vk < WORD_LIMIT
    ensures 0 <= vk < WORD_LIMIT ==> a.vk == vk
    ensures a.flags & KEYEVENTF_KEYUP != 0 <==> !down
    ensures a.flags & KEYEVENTF_EXTENDEDKEY != 0 <==> vk in EXTENDED_KEYS
  {
    SendKey(Word(vk), KeyFlags(vk, down))
  }

  /**
   * `_send_mouse_input(flags, data=data)`: one mouse record with the given
   * flags, whose `mouseData` fits a `DWORD` and reads back as `data` whenever
   * `data` fits 32 signed bits.
   */
  function SendMouseInput(flags: bv32, data: int): (a: WinAction)
    ensures a.SendMouse? && a.flags == flags
    ensures 0 <= a.data < DWORD_LIMIT
    ensures -DWORD_LIMIT / 2 <= data < DWORD_LIMIT / 2 ==> Signed32(a.data) == data
  {
    SendMouse(flags, MouseData(data))
  }

  // ── `_pressed_keys` ────────────────────────────────────────────────

  /**
   * `_pressed_keys`, as the sequence `list(_pressed_keys)` enumerates it.
   * Python leaves the order open; the model keeps insertion order, and every
   * contract below speaks of the elements only.
   */
  type Pressed = seq<int>

  predicate NoDuplicates(q: Pressed) {
    forall i, j :: 0 <= i < j < |q| ==> q[i] != q[j]
  }

  /** The set the sequence stands for. */
  function Elems(q: Pressed): set<int> {
    set x | x in q
  }

  /** `_pressed_keys.add(x)`. */
  function Add(q: Pressed, x: int): (r: Pressed)
    ensures Elems(r) == Elems(q) + {x}
    ensures NoDuplicates(q) ==> NoDuplicates(r)
  {
    if x in q then q else q + [x]
  }

  /** `_pressed_keys.discard(x)`. */
  function Discard(q: Pressed, x: int): (r: Pressed)
    ensures Elems(r) == Elems(q) - {x}
    ensures NoDuplicates(q) ==> NoDuplicates(r)
  {
    if q == [] then []
    else
      var rest := Discard(q[1..], x);
      assert Elems(q) == {q[0]} + Elems(q[1..]);
      if q[0] == x then rest
      else
        assert Elems([q[0]] + rest) == {q[0]} + Elems(rest);
        assert NoDuplicates(q) ==> q[0] !in Elems(q[1..]);
        [q[0]] + rest
  }

  /** A key-up record for each entry, in order. */
  function KeyUps(q: Pressed): (acts: seq<WinAction>)
    ensures |acts| == |q|
    ensures forall i :: 0 <= i < |q| ==> acts[i] == SendKeyInput(q[i], false)
  {
    if q == [] then [] else [SendKeyInput(q[0], false)] + KeyUps(q[1..])
  }

  /**
   * `_release_all_keys()`: a key-up record for every entry, the button
   * markers included, then a left-button release if -1 was held and a
   * right-button release if -2 was. The set is then cleared.
   */
  function ReleaseAll(pressed: Pressed): (acts: seq<WinAction>)
    ensures |acts| == |pressed| + (if LEFT_BUTTON in pressed then 1 else 0) + (if RIGHT_BUTTON in pressed then 1 else 0)
    ensures forall i :: 0 <= i < |pressed| ==> acts[i] == SendKeyInput(pressed[i], false)
    ensures SendMouse(MOUSEEVENTF_LEFTUP, 0) in acts <==> LEFT_BUTTON in pressed
    ensures SendMouse(MOUSEEVENTF_RIGHTUP, 0) in acts <==> RIGHT_BUTTON in pressed
    ensures LEFT_BUTTON in pressed ==> acts[|pressed|] == SendMouse(MOUSEEVENTF_LEFTUP, 0)
    ensures RIGHT_BUTTON in pressed ==> acts[|acts| - 1] == SendMouse(MOUSEEVENTF_RIGHTUP, 0)
  {
    var left := if LEFT_BUTTON in pressed then [SendMouseInput(MOUSEEVENTF_LEFTUP, 0)] else [];
    var right := if RIGHT_BUTTON in pressed then [SendMouseInput(MOUSEEVENTF_RIGHTUP, 0)] else [];
    var acts := KeyUps(pressed) + left + right;
    assert LEFT_BUTTON in pressed ==> acts[|pressed|] == left[0];
    assert RIGHT_BUTTON in pressed ==> acts[|acts| - 1] == right[0];
    acts
  }

  // ── `inject_event` ─────────────────────────────────────────────────

  /** The actions of one `inject_event` call, `_pressed_keys` after it, and the pair it returns. */
  datatype Step = Step(actions: seq<WinAction>, pressed: Pressed, signal: EdgeSignal)

  /**
   * The `scrollWheel` branch: a wheel record for a non-zero vertical delta,
   * then a horizontal-wheel record for a non-zero horizontal delta, each with
   * `int(delta * WHEEL_DELTA)` masked to 32 bits.
   */
  function WheelActions(dx: real, dy: real): (acts: seq<WinAction>)
    ensures |acts| == (if dy != 0.0 then 1 else 0) + (if dx != 0.0 then 1 else 0)
    ensures dy != 0.0 ==> acts[0] == SendMouse(MOUSEEVENTF_WHEEL, MouseData(Trunc(dy * WHEEL_DELTA as real)))
    ensures dx != 0.0 ==> acts[|acts| - 1] == SendMouse(MOUSEEVENTF_HWHEEL, MouseData(Trunc(dx * WHEEL_DELTA as real)))
    ensures forall i :: 0 <= i < |acts| ==> acts[i].SendMouse? && 0 <= acts[i].data < DWORD_LIMIT
  {
    (if dy != 0.0 then [SendMouseInput(MOUSEEVENTF_WHEEL, Trunc(dy * WHEEL_DELTA as real))] else [])
    + (if dx != 0.0 then [SendMouseInput(MOUSEEVENTF_HWHEEL, Trunc(dx * WHEEL_DELTA as real))] else [])
  }

  /** The key branch, for an event whose code the table maps to `vk`. */
  function KeyStep(pressed: Pressed, vk: int, down: bool): (st: Step)
    ensures st.actions == [SendKeyInput(vk, down)] && st.signal == KeepControl
    ensures Elems(st.pressed) == if down then Elems(pressed) + {vk} else Elems(pressed) - {vk}
    ensures NoDuplicates(pressed) ==> NoDuplicates(st.pressed)
  {
    Step([SendKeyInput(vk, down)], if down then Add(pressed, vk) else Discard(pressed, vk), KeepControl)
  }

  /** The event is a key event whose code the table maps. */
  predicate MappedKey(e: Event) {
    e.IsKey() && e.keyCode.Some? && MacToWinKeycode(e.keyCode.value).Some?
  }

  /** `inject_event(event)` with `_pressed_keys` equal to `pressed`, on a screen of the given size. */
  function InjectEvent(pressed: Pressed, e: Event, screen: Screen): (st: Step)
    ensures st.signal.shouldReturn <==> e.Is(MOUSE_MOVE) && MoveTarget(e, screen).0 <= EDGE_THRESHOLD
    ensures !st.signal.shouldReturn ==> st.signal == KeepControl
    ensures st.signal.shouldReturn ==> st.signal.normY == NormaliseY(MoveTarget(e, screen).1, screen.height)
    ensures screen.height > 0 ==> 0.0 <= st.signal.normY < 1.0
    ensures e.Is(MOUSE_MOVE) ==> st.actions == [SetCursorPos(MoveTarget(e, screen).0, MoveTarget(e, screen).1)]
    ensures e.Is(LEFT_MOUSE_DOWN) ==>
      st.actions == [SendMouse(MOUSEEVENTF_LEFTDOWN, 0)] && Elems(st.pressed) == Elems(pressed) + {LEFT_BUTTON}
    ensures e.Is(LEFT_MOUSE_UP) ==>
      st.actions == [SendMouse(MOUSEEVENTF_LEFTUP, 0)] && Elems(st.pressed) == Elems(pressed) - {LEFT_BUTTON}
    ensures e.Is(RIGHT_MOUSE_DOWN) ==>
      st.actions == [SendMouse(MOUSEEVENTF_RIGHTDOWN, 0)] && Elems(st.pressed) == Elems(pressed) + {RIGHT_BUTTON}
    ensures e.Is(RIGHT_MOUSE_UP) ==>
      st.actions == [SendMouse(MOUSEEVENTF_RIGHTUP, 0)] && Elems(st.pressed) == Elems(pressed) - {RIGHT_BUTTON}
    ensures MappedKey(e) ==>
      var vk := MacToWinKeycode(e.keyCode.value).value;
      && st.actions == [SendKeyInput(vk, e.Is(Events.KEY_DOWN))]
      && Elems(st.pressed) == if e.Is(Events.KEY_DOWN) then Elems(pressed) + {vk} else Elems(pressed) - {vk}
    ensures e.IsKey() && !MappedKey(e) ==> st.actions == [] && st.pressed == pressed
    ensures e.Is(SCROLL_WHEEL) ==>
      st.actions == WheelActions(e.scrollDeltaX, e.scrollDeltaY) && st.pressed == pressed
    ensures e.Is(MOUSE_MOVE) ==> st.pressed == pressed
    ensures e.Is(RETURN_CONTROL) ==> st.actions == ReleaseAll(pressed) && st.pressed == []
    ensures !e.Known() ==> st.actions == [] && st.pressed == pressed
    ensures NoDuplicates(pressed) ==> NoDuplicates(st.pressed)
  {
    if e.Is(MOUSE_MOVE) then
      var (x, y) := MoveTarget(e, screen);
      Step([SetCursorPos(x, y)], pressed, LeftEdgeCheck(x, y, screen))
    else if e.Is(LEFT_MOUSE_DOWN) then
      Step([SendMouseInput(MOUSEEVENTF_LEFTDOWN, 0)], Add(pressed, LEFT_BUTTON), KeepControl)
    else if e.Is(LEFT_MOUSE_UP) then
      Step([SendMouseInput(MOUSEEVENTF_LEFTUP, 0)], Discard(pressed, LEFT_BUTTON), KeepControl)
    else if e.Is(RIGHT_MOUSE_DOWN) then
      Step([SendMouseInput(MOUSEEVENTF_RIGHTDOWN, 0)], Add(pressed, RIGHT_BUTTON), KeepControl)
    else if e.Is(RIGHT_MOUSE_UP) then
      Step([SendMouseInput(MOUSEEVENTF_RIGHTUP, 0)], Discard(pressed, RIGHT_BUTTON), KeepControl)
    else if e.IsKey() then
      if MappedKey(e) then KeyStep(pressed, MacToWinKeycode(e.keyCode.value).value, e.Is(Events.KEY_DOWN))
      else Step([], pressed, KeepControl)
    else if e.Is(SCROLL_WHEEL) then
      Step(WheelActions(e.scrollDeltaX, e.scrollDeltaY), pressed, KeepControl)
    else if e.Is(RETURN_CONTROL) then
      Step(ReleaseAll(pressed), [], KeepControl)
    else
      Step([], pressed, KeepControl)
  }

  // ── What Windows holds down ────────────────────────────────────────

  /** The keys (by `wVk`) and buttons Windows considers held after the records sent so far. */
  datatype Held = Held(keys: set<int>, left: bool, right: bool)

  const NothingHeld: Held := Held({}, false, false)

  /** The effect of one record on what is held. */
  function Apply(h: Held, a: WinAction): Held {
    match a
    case SetCursorPos(_, _) => h
    case SendKey(vk, flags) =>
      if flags & KEYEVENTF_KEYUP != 0 then h.(keys := h.keys - {vk}) else h.(keys := h.keys + {vk})
    case SendMouse(flags, _) =>
      if flags == MOUSEEVENTF_LEFTDOWN then h.(left := true)
      else if flags == MOUSEEVENTF_LEFTUP then h.(left := false)
      else if flags == MOUSEEVENTF_RIGHTDOWN then h.(right := true)
      else if flags == MOUSEEVENTF_RIGHTUP then h.(right := false)
      else h
  }

  /** For a 16-bit key, Windows holds it after `_send_key_input(vk, True)` and no longer holds it after `_send_key_input(vk, False)`. */
  lemma SendKeyInputHolds(vk: int, down: bool, h: Held)
    requires 0 <= vk < WORD_LIMIT
    ensures Apply(h, SendKeyInput(vk, down)) == if down then h.(keys := h.keys + {vk}) else h.(keys := h.keys - {vk})
  {
  }

  /** The effect of a sequence of records, in order. */
  function ApplyAll(h: Held, acts: seq<WinAction>): Held
    decreases |acts|
  {
    if acts == [] then h else ApplyAll(Apply(h, acts[0]), acts[1..])
  }

  lemma {:induction false} ApplyAllConcat(h: Held, a: seq<WinAction>, b: seq<WinAction>)
    ensures ApplyAll(h, a + b) == ApplyAll(ApplyAll(h, a), b)
    decreases |a|
  {
    if a == [] {
      assert a + b == b;
    } else {
      assert (a + b)[1..] == a[1..] + b;
      ApplyAllConcat(Apply(h, a[0]), a[1..], b);
    }
  }

  /** What `_pressed_keys` may hold: the two button markers and keys the table produces. */
  predicate Entry(x: int) {
    x == LEFT_BUTTON || x == RIGHT_BUTTON || 0 < x < 0x100
  }

  /**
   * `_pressed_keys` agrees with what Windows holds: exactly its keys are held
   * down, and each button is held exactly when its marker is in the set.
   */
  predicate Mirrors(pressed: Pressed, h: Held) {
    && NoDuplicates(pressed)
    && (forall x :: x in Elems(pressed) ==> Entry(x))
    && h.keys == Elems(pressed) - {LEFT_BUTTON, RIGHT_BUTTON}
    && h.left == (LEFT_BUTTON in Elems(pressed))
    && h.right == (RIGHT_BUTTON in Elems(pressed))
  }

  /** The key-ups of `_release_all_keys` lift every key it lists and touch nothing else that is held. */
  lemma {:induction false} KeyUpsLift(q: Pressed, h: Held)
    requires forall x :: x in q ==> Entry(x)
    requires forall k :: k in h.keys ==> 0 < k < 0x100
    ensures ApplyAll(h, KeyUps(q)) == h.(keys := h.keys - Elems(q))
    decreases |q|
  {
    if q != [] {
      var h' := Apply(h, SendKeyInput(q[0], false));
      var w := Word(q[0]);
      assert KeyFlags(q[0], false) & KEYEVENTF_KEYUP != 0;
      assert h'.keys == h.keys - {w};
      assert Entry(q[0]);
      assert h'.keys == h.keys - {q[0]} by {
        if q[0] < 0 {
          assert w !in h.keys && q[0] !in h.keys;
        }
      }
      KeyUpsLift(q[1..], h');
      assert KeyUps(q)[1..] == KeyUps(q[1..]);
      assert Elems(q) == {q[0]} + Elems(q[1..]);
    }
  }

  /** When the set mirrors Windows, `_release_all_keys` leaves nothing held. */
  lemma ReleaseAllClears(pressed: Pressed, h: Held)
    requires Mirrors(pressed, h)
    ensures ApplyAll(h, ReleaseAll(pressed)) == NothingHeld
  {
    var left := if LEFT_BUTTON in pressed then [SendMouseInput(MOUSEEVENTF_LEFTUP, 0)] else [];
    var right := if RIGHT_BUTTON in pressed then [SendMouseInput(MOUSEEVENTF_RIGHTUP, 0)] else [];
    KeyUpsLift(pressed, h);
    var h1 := ApplyAll(h, KeyUps(pressed));
    assert h1 == h.(keys := {});
    var h2 := ApplyAll(h1, left);
    assert h2 == h1.(left := false) by {
      if LEFT_BUTTON in pressed {
        assert ApplyAll(h1, left) == ApplyAll(Apply(h1, left[0]), left[1..]);
      }
    }
    assert ApplyAll(h2, right) == NothingHeld by {
      if RIGHT_BUTTON in pressed {
        assert ApplyAll(h2, right) == ApplyAll(Apply(h2, right[0]), right[1..]);
      }
    }
    ApplyAllConcat(h, KeyUps(pressed), left + right);
    ApplyAllConcat(h1, left, right);
    assert KeyUps(pressed) + left + right == KeyUps(pressed) + (left + right);
  }

  /** Every `inject_event` call keeps `_pressed_keys` in step with what Windows holds. */
  lemma InjectKeepsMirror(pressed: Pressed, h: Held, e: Event, screen: Screen)
    requires Mirrors(pressed, h)
    ensures Mirrors(InjectEvent(pressed, e, screen).pressed, ApplyAll(h, InjectEvent(pressed, e, screen).actions))
  {
    var st := InjectEvent(pressed, e, screen);
    if e.Is(RETURN_CONTROL) {
      ReleaseAllClears(pressed, h);
    } else if MappedKey(e) {
      MacToWinKeycodeRange(e.keyCode.value);
      var vk := MacToWinKeycode(e.keyCode.value).value;
      SendKeyInputHolds(vk, e.Is(Events.KEY_DOWN), h);
      assert ApplyAll(h, st.actions) == Apply(h, SendKeyInput(vk, e.Is(Events.KEY_DOWN)));
    } else if e.Is(SCROLL_WHEEL) {
      WheelLeavesHeld(h, e.scrollDeltaX, e.scrollDeltaY);
    } else if e.Is(LEFT_MOUSE_DOWN) || e.Is(LEFT_MOUSE_UP) || e.Is(RIGHT_MOUSE_DOWN) || e.Is(RIGHT_MOUSE_UP) {
      assert ApplyAll(h, st.actions) == Apply(h, st.actions[0]);
    }
  }

  /** Scrolling holds nothing down and lets nothing go. */
  lemma WheelLeavesHeld(h: Held, dx: real, dy: real)
    ensures ApplyAll(h, WheelActions(dx, dy)) == h
  {
    var acts := WheelActions(dx, dy);
    if |acts| > 0 {
      assert Apply(h, acts[0]) == h;
      if |acts| == 2 {
        assert Apply(h, acts[1]) == h;
        assert ApplyAll(h, acts[1..]) == ApplyAll(h, acts[1..][1..]);
        assert acts[1..][1..] == [];
      } else {
        assert acts[1..] == [];
      }
    }
  }

  // ── `tcp_client` ───────────────────────────────────────────────────

  /**
   * One connection: the records sent, the edge signal of each injection in
   * order, the replies written, why it ended, and `_pressed_keys` at the end.
   */
  datatype WinSession = WinSession(actions: seq<WinAction>, signals: seq<EdgeSignal>, sent: seq<bytes>, exit: Exit, pressed: Pressed)

  /**
   * The inner loop of `tcp_client` over one connection, starting with
   * `_pressed_keys` equal to `pressed`: read a frame, decode it with `loads`,
   * inject it, and answer a left-edge hit with a framed `returnControl`
   * encoded with `dumps`, until the first error.
   */
  function Serve(pressed: Pressed, r: Reader, screen: Screen, loads: bytes -> Option<Event>, dumps: ReturnControl -> bytes): (s: WinSession)
    decreases |Avail(r)|, 0
    ensures Answered(s.signals, s.sent, s.exit, dumps)
  {
    match ReadFrame(r)
    case Closed => AnsweredNothing(ConnectionLost, dumps); WinSession([], [], [], ConnectionLost, pressed)
    case BadLength(length, _) =>
      AnsweredNothing(InvalidLength(length), dumps);
      WinSession([], [], [], InvalidLength(length), pressed)
    case Frame(payload, rest) =>
      match loads(payload)
      case None => AnsweredNothing(MalformedPayload, dumps); WinSession([], [], [], MalformedPayload, pressed)
      case Some(e) => ServeEvent(pressed, e, rest, screen, loads, dumps)
  }

  /** The rest of `Serve` once a frame has decoded to the event `e`. */
  function ServeEvent(pressed: Pressed, e: Event, rest: Reader, screen: Screen, loads: bytes -> Option<Event>, dumps: ReturnControl -> bytes): (s: WinSession)
    decreases |Avail(rest)|, 2
    ensures Answered(s.signals, s.sent, s.exit, dumps)
    ensures s.signals != [] && s.signals[0] == InjectEvent(pressed, e, screen).signal
  {
    ServeStep(InjectEvent(pressed, e, screen), rest, screen, loads, dumps)
  }

  /** The rest of `Serve` once an event has been injected with the outcome `st`. */
  function ServeStep(st: Step, rest: Reader, screen: Screen, loads: bytes -> Option<Event>, dumps: ReturnControl -> bytes): (s: WinSession)
    decreases |Avail(rest)|, 1
    ensures Answered(s.signals, s.sent, s.exit, dumps)
    ensures s.signals != [] && s.signals[0] == st.signal
    ensures Reply(st.signal, dumps).None? ==> s.sent == [] && s.exit == EncodeFailed
    ensures Reply(st.signal, dumps).Some? ==> s.sent[..|Reply(st.signal, dumps).value|] == Reply(st.signal, dumps).value
  {
    match Reply(st.signal, dumps)
    case None => AnsweredFailure(st.signal, dumps); WinSession(st.actions, [st.signal], [], EncodeFailed, st.pressed)
    case Some(out) => Continue(st.actions, st.signal, out, Serve(st.pressed, rest, screen, loads, dumps), dumps)
  }

  /**
   * One event's records and sent reply in front of the rest of the session:
   * they go before everything the rest sends, and the rest decides how the
   * session ends and what is left pressed.
   */
  function Continue(actions: seq<WinAction>, signal: EdgeSignal, out: seq<bytes>, tail: WinSession, dumps: ReturnControl -> bytes): (s: WinSession)
    requires Reply(signal, dumps) == Some(out)
    requires Answered(tail.signals, tail.sent, tail.exit, dumps)
    ensures Answered(s.signals, s.sent, s.exit, dumps)
    ensures s.actions == actions + tail.actions && s.pressed == tail.pressed
    ensures s.signals == [signal] + tail.signals
    ensures s.sent == out + tail.sent && s.exit == tail.exit
  {
    AnsweredCons(signal, out, tail.signals, tail.sent, tail.exit, dumps);
    WinSession(actions + tail.actions, [signal] + tail.signals, out + tail.sent, tail.exit, tail.pressed)
  }

  /**
   * One pass of the `tcp_client` loop: serve the connection, then, in the
   * `finally` clause whatever ended it, `_release_all_keys()`.
   */
  function Connection(pressed: Pressed, r: Reader, screen: Screen, loads: bytes -> Option<Event>, dumps: ReturnControl -> bytes): (c: WinSession)
    ensures c.pressed == []
    ensures Answered(c.signals, c.sent, c.exit, dumps)
  {
    var s := Serve(pressed, r, screen, loads, dumps);
    WinSession(s.actions + ReleaseAll(s.pressed), s.signals, s.sent, s.exit, [])
  }

  /** Serving keeps `_pressed_keys` in step with what Windows holds. */
  lemma {:induction false} ServeKeepsMirror(
    pressed: Pressed, h: Held, r: Reader, screen: Screen, loads: bytes -> Option<Event>, dumps: ReturnControl -> bytes)
    requires Mirrors(pressed, h)
    ensures Mirrors(Serve(pressed, r, screen, loads, dumps).pressed, ApplyAll(h, Serve(pressed, r, screen, loads, dumps).actions))
    decreases |Avail(r)|, 0
  {
    match ReadFrame(r)
    case Closed =>
    case BadLength(_, _) =>
    case Frame(payload, rest) =>
      match loads(payload)
      case None =>
      case Some(e) => ServeEventKeepsMirror(pressed, h, e, rest, screen, loads, dumps);
  }

  lemma {:induction false} ServeEventKeepsMirror(
    pressed: Pressed, h: Held, e: Event, rest: Reader, screen: Screen, loads: bytes -> Option<Event>, dumps: ReturnControl -> bytes)
    requires Mirrors(pressed, h)
    ensures Mirrors(ServeEvent(pressed, e, rest, screen, loads, dumps).pressed, ApplyAll(h, ServeEvent(pressed, e, rest, screen, loads, dumps).actions))
    decreases |Avail(rest)|, 2
  {
    InjectKeepsMirror(pressed, h, e, screen);
    ServeStepKeepsMirror(InjectEvent(pressed, e, screen), h, rest, screen, loads, dumps);
  }

  lemma {:induction false} ServeStepKeepsMirror(
    st: Step, h: Held, rest: Reader, screen: Screen, loads: bytes -> Option<Event>, dumps: ReturnControl -> bytes)
    requires Mirrors(st.pressed, ApplyAll(h, st.actions))
    ensures Mirrors(ServeStep(st, rest, screen, loads, dumps).pressed, ApplyAll(h, ServeStep(st, rest, screen, loads, dumps).actions))
    decreases |Avail(rest)|, 1
  {
    match Reply(st.signal, dumps)
    case None =>
    case Some(out) =>
      var tail := Serve(st.pressed, rest, screen, loads, dumps);
      ServeKeepsMirror(st.pressed, ApplyAll(h, st.actions), rest, screen, loads, dumps);
      ApplyAllConcat(h, st.actions, tail.actions);
  }

  /**
   * No key or button is left stuck: whatever ends a connection, once its
   * `finally` clause has run Windows holds nothing down that the daemon
   * pressed, and `_pressed_keys` is empty for the next connection.
   */
  lemma ConnectionReleasesEverything(
    pressed: Pressed, h: Held, r: Reader, screen: Screen, loads: bytes -> Option<Event>, dumps: ReturnControl -> bytes)
    requires Mirrors(pressed, h)
    ensures ApplyAll(h, Connection(pressed, r, screen, loads, dumps).actions) == NothingHeld
    ensures Mirrors(Connection(pressed, r, screen, loads, dumps).pressed, NothingHeld)
  {
    var s := Serve(pressed, r, screen, loads, dumps);
    ServeKeepsMirror(pressed, h, r, screen, loads, dumps);
    ApplyAllConcat(h, s.actions, ReleaseAll(s.pressed));
    ReleaseAllClears(s.pressed, ApplyAll(h, s.actions));
  }
}
