# MouseShare receiver daemons in Dafny

MouseShare lets one Mac's keyboard and mouse drive a Linux or Windows machine
that sits to its right. The Mac captures input and sends it over TCP. It
frames each message with a 4-byte big-endian length header and a JSON payload.
A small Python daemon on the other machine replays the events as local input:

- `linux/mouseshare.py` writes them to a uinput virtual device. It moves the
  cursor with xdotool or ydotool.
- `windows/mouseshare.py` uses `SendInput` and `SetCursorPos`.

When the replayed cursor reaches the left edge of the screen, the daemon
answers with a framed `returnControl` message.

This project models the sequential core of both daemons and proves properties
of it.

- **Wire format** (`bytes.dfy`, `framing.dfy`). The big-endian 32-bit header,
  `_read_exact` over however the stream happens to be chunked, and the length
  check in `tcp_client` (0 and anything above 1,000,000 end the connection).
  Outgoing frames use the same header.
- **Events and screen geometry** (`events.dfy`, `geometry.dfy`). The event
  record. Truncation of normalised coordinates to pixels and the clamp into
  the screen. The left-edge test against `EDGE_THRESHOLD` = 5. The normalised
  y sent back.
- **Key tables** (`linux_keys.dfy`, `windows_keys.dfy`).
  - Linux: `MAC_TO_LINUX_KEYCODE` and the key capabilities the virtual device
    declares.
  - Windows: `MAC_TO_WIN_KEYCODE` and `EXTENDED_KEYS`.
- **Replies** (`replies.dfy`). The framed `returnControl` answer, the ways
  a connection ends, and which replies a connection sends for the edge
  signals of its injections, shared by both daemons.
- **Linux daemon** (`linux_daemon.dfy`).
  - `inject_event` as a total function from an event to the device writes it
    makes plus the `(should_return, norm_y)` signal.
  - The per-connection loop of `tcp_client`.
  - The decision logic of `_edge_detection_loop`.
- **Windows daemon** (`windows_daemon.dfy`).
  - `inject_event` together with the `_pressed_keys` bookkeeping.
  - `_release_all_keys`.
  - The key flags of `_send_key_input` and the 32-bit masking of
    `_send_mouse_input`.
  - The per-connection loop of `tcp_client`, including the `finally` teardown.
  - A model of what the operating system considers held, so that "after
    `returnControl`, and after every connection, nothing stays pressed" is a
    theorem.

OS calls become abstract actions:

- uinput writes and `syn`.
- `SetCursorPos`.
- `SendInput` of a mouse or keyboard record.

JSON decoding and encoding are the parameters `loads` and `dumps`. The screen
size is a parameter.

## Model

| member | source | states |
|---|---|---|
| Bytes.EncodeUint32 | linux/mouseshare.py:471 | `struct.pack("!I", n)` gives four bytes that the header reader decodes back to `n`, for every `n` below 2^32 |
| Bytes.DecodeUint32 | linux/mouseshare.py:448-449 | `struct.unpack("!I", header)` yields a value below 2^32 |
| Bytes.EncodeDecode | linux/mouseshare.py:413 | encoding a decoded header gives back the same four bytes, so the two directions are inverse |
| Bytes.DecodeInjective | linux/mouseshare.py:448-449 | two headers that declare the same length are the same bytes |
| Framing.ReadChunk | linux/mouseshare.py:429-431 | `reader.read(k)` returns at most `k` bytes; it is empty exactly at end of stream; what it returns followed by what remains is what was there |
| Framing.ReadInto | linux/mouseshare.py:427-433 | the loop of `_read_exact` succeeds iff enough bytes arrive before end of stream, and then holds what it had plus the next missing bytes in order |
| Framing.ReadExact | linux/mouseshare.py:425-433 | `_read_exact(n)` returns exactly `n` bytes, the first `n` of the stream whatever the chunking, and leaves the reader just after them; it raises `ConnectionError` iff the stream ends first |
| Framing.AcceptedLengthRange | linux/mouseshare.py:451-453 | the length check lets through exactly the lengths 1 to 1,000,000, both ends included, and refuses 0 and everything above |
| Framing.ReadFrame | linux/mouseshare.py:448-456 | a pass of the read loop yields a payload of exactly the declared length, taken from right after the header; a header of 0 or above 1,000,000 ends it with no payload byte read; 1,000,000 itself is accepted |
| Framing.PayloadAfterHeader | linux/mouseshare.py:455-456 | after an accepted header the payload is the next `length` bytes, or the connection is lost when fewer arrive |
| Framing.EncodeFrame | linux/mouseshare.py:471-472 | the outgoing frame's header equals the payload length and the payload follows it unchanged; framing fails iff the length needs more than 32 bits |
| Framing.FrameRoundTrip | windows/mouseshare.py:324-335 | a framed acceptable payload, followed by anything and chunked in any way, is read back as itself with the reader left right after it |
| Geometry.Trunc | linux/mouseshare.py:341-342 | `int()` truncates toward zero: the result is the integer between 0 and the real that is closest to it |
| Geometry.Clamp | linux/mouseshare.py:345-346 | `max(0, min(v, size - 1))` lies in [0, size-1]; it is `v` inside, 0 below, size-1 above, and 0 on a zero-sized screen |
| Geometry.Denormalise | linux/mouseshare.py:341-346 | a normalised coordinate becomes a pixel inside the screen, the truncated product when that is on screen |
| Geometry.MoveTarget | windows/mouseshare.py:232-237 | mouse-move pixel coordinates always lie in [0, W-1] x [0, H-1] |
| Geometry.NormaliseY | linux/mouseshare.py:282 | `y / H if H else 0`: 0 on a zero-height screen, in [0, 1) for an on-screen y, and scaling back by H gives y |
| Geometry.LeftEdgeCheck | windows/mouseshare.py:239-241 | the result is `(True, y/H)` iff x <= `EDGE_THRESHOLD`, otherwise `(False, 0)`; norm_y lies in [0, 1) when H > 0 |
| Geometry.LeftEdgeReached | linux/mouseshare.py:280-281 | on a screen wider than 6 pixels the move fires iff normalised x times the width is below 6; on a narrower one every move fires |
| LinuxKeys.MacToLinuxKeycode | linux/mouseshare.py:64-183 | `MAC_TO_LINUX_KEYCODE.get(mac)`: a listed Mac code is 7-bit and maps to a keyboard key below the mouse buttons; `LinuxToMacUndoes` shows reading the table backwards recovers the Mac code |
| LinuxKeys.MacKeycodeBound | linux/mouseshare.py:64-183 | every Mac key code the table lists is a 7-bit code |
| LinuxKeys.KeyCapabilities | linux/mouseshare.py:248-252 | `key_caps` contains the three mouse buttons and every Linux key the table maps to |
| LinuxKeys.KeyCapabilitiesExactly | linux/mouseshare.py:248-252 | the declared key codes are exactly the table's values plus the three mouse buttons |
| LinuxKeys.LinuxToMacUndoes | linux/mouseshare.py:64-183 | reading the table backwards recovers the Mac key of every mapped Linux key |
| LinuxKeys.MacToLinuxInjective | linux/mouseshare.py:64-183 | no two Mac keys map to the same Linux key |
| WindowsKeys.MacToWinKeycode | windows/mouseshare.py:140-173 | `MAC_TO_WIN_KEYCODE.get(mac)`: a listed Mac code is 7-bit and maps to a virtual key in (0, 0x100) |
| WindowsKeys.ExtendedMacKeys | windows/mouseshare.py:175-179 | `EXTENDED_KEYS` flags exactly the Mac keys of the navigation block, both Command keys, right Control, right Option and keypad divide; keypad Enter is not flagged |
| WindowsKeys.MacToWinKeycodeRange | windows/mouseshare.py:140-173 | every virtual key the table produces is positive and below 0x100, so it never collides with the button markers -1 and -2 |
| WindowsKeys.ReturnSharedWithKeypadEnter | windows/mouseshare.py:152-172 | Return (36) and keypad Enter (76) both map to `VK_RETURN`, so the table is not one-to-one |
| Replies.Reply | linux/mouseshare.py:462-473 | there is a reply iff the edge was reached; it is one well-framed message whose payload is `returnControl` at normalizedX 0, edge "left" and the signalled normalised y; it fails iff that message is too long to frame |
| LinuxDaemon.ScrollActions | linux/mouseshare.py:313-321 | `REL_WHEEL` is written iff dy != 0 and `REL_HWHEEL` iff dx != 0, each with the truncated delta; exactly one syn follows iff at least one was written |
| LinuxDaemon.ButtonActions | linux/mouseshare.py:285-299 | after a button write of 1 the device holds the button, after a write of 0 it no longer does, nothing else changes, and the report ends with a syn |
| LinuxDaemon.KeyActions | linux/mouseshare.py:301-311 | a missing or unmapped key code writes nothing; a mapped `keyDown` writes its Linux key with value 1 and a `keyUp` with 0, each followed by exactly one syn |
| LinuxDaemon.InjectEvent | linux/mouseshare.py:270-327 | the signal is `(True, y/H)` only for a mouse move whose clamped x is at most 5, and `(False, 0)` for every other event, unknown types included; norm_y lies in [0, 1) when H > 0; each event type gives its writes, and `returnControl` or an unknown type gives none |
| LinuxDaemon.InjectPresses | linux/mouseshare.py:270-327 | after one event the device holds the same keys and buttons as before, except that a button press or mapped `keyDown` adds its code and a release or mapped `keyUp` removes it |
| LinuxDaemon.InjectWritesDeclared | linux/mouseshare.py:254-262 | every key and axis that `inject_event` writes was declared in the capabilities of the virtual device |
| LinuxDaemon.Serve | linux/mouseshare.py:446-478 | over one connection the replies sent are exactly the framed `returnControl` messages of the left-edge injections, in injection order; only the last injection's reply can fail to frame, and that failure is what ends the connection; a length error names a refused length |
| Replies.AnsweredReplies | linux/mouseshare.py:462-473 | in a connection whose replies answer its injections, every reply is well framed and there is one per left-edge injection, except a reply that failed to frame |
| Replies.AnsweredCons | linux/mouseshare.py:462-473 | a sent reply in front of an answered rest of the connection keeps it answered |
| LinuxDaemon.ServeEvent | linux/mouseshare.py:460-473 | once a frame decodes, its event is injected first, ahead of everything read after it, and the replies stay those of the injections |
| LinuxDaemon.Continue | linux/mouseshare.py:462-473 | the reply to one injection is sent before every reply of the rest of the connection, and the rest decides how the connection ends |
| LinuxDaemon.Injections | linux/mouseshare.py:460 | one `inject_event` call per event, the i-th injection being that of the i-th event |
| LinuxDaemon.ServeFirst | linux/mouseshare.py:448-460 | a connection that starts with a framed event injects that event and then behaves as the connection on the bytes after it |
| LinuxDaemon.ServeInOrder | linux/mouseshare.py:446-460 | events sent as frames are injected in the order sent, whatever the chunking; when nothing follows them, exactly those are injected, their replies are sent in that order, and the connection then ends as lost |
| LinuxDaemon.LastPressHolds | linux/mouseshare.py:301-311 | a key or button whose last write presses it is held afterwards, whatever was held before |
| LinuxDaemon.KeyHeldAfterDisconnect | linux/mouseshare.py:475-481 | a connection that delivers a `keyDown` and then drops ends as lost with the key still held on the device: the Linux daemon writes no release when a connection ends |
| LinuxDaemon.EdgeDetectionLoop | linux/mouseshare.py:396-420 | a `returnControl` is sent iff some successful reading has x <= 5; it is sent once, for the first such reading, with normalizedX 0, edge "left" and that reading's normalised y, and the loop stops |
| WindowsDaemon.KeyFlags | windows/mouseshare.py:199-204 | KEYUP (0x2) is set iff the key goes up, EXTENDEDKEY (0x1) iff the key is in `EXTENDED_KEYS`, and no other bit is set |
| WindowsDaemon.Word | windows/mouseshare.py:206 | `WORD(vk)` is in [0, 0xFFFF]; a 16-bit key stays itself, and a negative one wraps to two's complement (the markers -1 and -2 become 0xFFFF and 0xFFFE) |
| WindowsDaemon.SendKeyInput | windows/mouseshare.py:199-212 | one keyboard record for `WORD(vk)`, which is `vk` for a 16-bit key, with KEYUP set iff the key goes up and EXTENDEDKEY set iff the key is in `EXTENDED_KEYS` |
| WindowsDaemon.SendKeyInputHolds | windows/mouseshare.py:199-212 | after that record Windows holds a 16-bit key iff it went down |
| WindowsDaemon.SendMouseInput | windows/mouseshare.py:187-196 | one mouse record with the given flags whose 32-bit `mouseData` reads back as signed `data` whenever `data` fits 32 signed bits |
| WindowsDaemon.MouseData | windows/mouseshare.py:190 | `data & 0xFFFFFFFF` lies in [0, 2^32) and agrees with `data` modulo 2^32 |
| WindowsDaemon.MouseDataRoundTrip | windows/mouseshare.py:190 | reading the masked value as signed 32-bit gives back every delta that fits, so negative wheel deltas travel as two's complement |
| WindowsDaemon.Add | windows/mouseshare.py:244 | `set.add` makes the entry present and keeps every other entry |
| WindowsDaemon.Discard | windows/mouseshare.py:248 | `set.discard` makes the entry absent and keeps every other entry |
| WindowsDaemon.KeyUps | windows/mouseshare.py:216-217 | one key-up per entry of the pressed set, in its order |
| WindowsDaemon.ReleaseAll | windows/mouseshare.py:215-225 | `_release_all_keys` sends a key-up for every entry, then LEFTUP iff -1 was present and after it RIGHTUP iff -2 was present, and nothing else |
| WindowsDaemon.WheelActions | windows/mouseshare.py:274-280 | a wheel event is sent iff dy != 0 and a horizontal one iff dx != 0, each carrying `int(d * 120) & 0xFFFFFFFF` |
| WindowsDaemon.KeyStep | windows/mouseshare.py:267-272 | a mapped key-down adds its virtual key and a key-up removes it, and exactly one key record is sent |
| WindowsDaemon.InjectEvent | windows/mouseshare.py:228-286 | the cursor is placed at the clamped pixel and the signal is `(True, y/H)` iff its x is at most 5; buttons add or remove -1 and -2; mapped keys add or remove their virtual key; missing or unmapped key codes, moves, scrolls and unknown types leave the pressed set alone; `returnControl` releases everything and empties the set |
| WindowsDaemon.KeyUpsLift | windows/mouseshare.py:216-217 | the key-ups of `_release_all_keys` lift every listed key, and the key-ups for the markers -1 and -2 touch no real key |
| WindowsDaemon.ReleaseAllClears | windows/mouseshare.py:215-225 | when the pressed set matches what is held, `_release_all_keys` leaves no key or button held |
| WindowsDaemon.InjectKeepsMirror | windows/mouseshare.py:228-286 | every event keeps the pressed set equal to the keys and buttons actually held |
| WindowsDaemon.WheelLeavesHeld | windows/mouseshare.py:274-280 | scrolling changes nothing that is held |
| WindowsDaemon.Serve | windows/mouseshare.py:322-351 | over one connection the replies sent are exactly the framed `returnControl` messages of the left-edge injections, in injection order; only the last injection's reply can fail to frame, and that ends the connection; a length error names a refused length |
| WindowsDaemon.ServeEvent | windows/mouseshare.py:334-345 | once a frame decodes, its injection's signal is the first of the rest of the connection, whose replies answer its signals |
| WindowsDaemon.ServeStep | windows/mouseshare.py:335-345 | after one injection, its reply (when the edge was hit) is sent first; if it cannot be framed nothing is sent and the connection ends there |
| WindowsDaemon.Continue | windows/mouseshare.py:335-345 | one step's records and reply go in front of those of the rest of the connection, which decides how it ends and what is left pressed |
| WindowsDaemon.Connection | windows/mouseshare.py:301-363 | however a connection ends, the `finally` teardown leaves the pressed set empty, and the replies still answer the injections |
| WindowsDaemon.ServeKeepsMirror | windows/mouseshare.py:322-345 | over a whole connection the pressed set stays equal to what is held |
| WindowsDaemon.ServeEventKeepsMirror | windows/mouseshare.py:334-345 | the same for the rest of a connection after one decoded event |
| WindowsDaemon.ServeStepKeepsMirror | windows/mouseshare.py:335-345 | the same for the rest of a connection after one injection |
| WindowsDaemon.ConnectionReleasesEverything | windows/mouseshare.py:352-353 | after any connection, however it ends, no key or mouse button is left held and the pressed set is empty |

## Left out

- Sockets and reconnection. Opening the connection, asyncio's reconnect loop
  and the `RECONNECT_DELAY` sleep are I/O and timing. One connection is
  modelled as the bytes it delivers, as successive chunks.
- Windows timeouts. The `wait_for` timeouts (5, 30 and 10 seconds) and the
  `TimeoutError` branch depend on time. A timeout ends a connection like any
  other error, and the teardown theorem covers every way a connection ends.
- Failures after writing a reply: `writer.write` and `drain`. A reply that
  is produced counts as sent.
- JSON. Decoding is the parameter `loads`, and `None` stands for any exception
  raised while decoding or while reading fields of a non-dictionary.
  Encoding is the parameter `dumps`. Events are the record in `events.dfy`.
  An absent field reads as its default: 0 for coordinates and deltas, `None`
  for `keyCode`. A JSON `null` behaves as the code treats it: a `null` scroll
  delta is falsy, so it reads as 0; a `null` in a field the event's branch
  does not read has no effect; a `null` mouse-move coordinate raises before
  anything is written, which ends the connection the same way as a payload
  that does not decode, so `loads` yields no event for it.
- Floating point. Normalised coordinates and scroll deltas are exact reals.
  `int()` is truncation toward zero. Infinities and NaN are not modelled.
- Screen discovery and tools. Parsing of `xrandr`, `xdpyinfo` and
  `xdotool getmouselocation` output, and the choice between X11 and Wayland
  tools, are left out. The screen size is a parameter, and a cursor reading
  is an optional pair.
- Output calls. uinput, `SendInput`, `SetCursorPos`, the ctypes structure
  layout, the tray icon, registry auto-start, threading and logging are not
  modelled. The calls are recorded as abstract actions.
- Order of `_pressed_keys`. It is a Python set, and the order in which
  `_release_all_keys` visits it is an implementation detail. It is modelled
  as a duplicate-free sequence, which fixes one order. Only the set of
  entries matters to the properties proved.
- Windows key table: there is no injectivity lemma. The table is not
  one-to-one: Return and keypad Enter share `VK_RETURN`, and the model
  proves that sharing instead.
- Linux release on disconnect. The Linux daemon keeps no pressed-key
  bookkeeping and writes no release when a connection ends
  (linux/mouseshare.py:475-481), and the uinput device outlives connections
  (linux/mouseshare.py:536-543). A key or button held when the Mac drops
  stays held. The model states this behaviour (`KeyHeldAfterDisconnect`)
  rather than a teardown the code does not have.
- LinuxDaemon.EdgeDetectionLoop: the stop event set from outside, the polling
  interval and failed writes are not modelled. The loop runs over a finite
  sequence of cursor readings. `tcp_client` never starts this loop; it is
  modelled for its decision logic only.
- LinuxDaemon.Serve: a malformed payload ends the connection (the code's
  generic `except` and reconnect). The daemon does not drop just that one
  message. This follows the code.
- Framing.ReadFrame: a declared length of exactly 1,000,000 is accepted,
  because the code tests `length > 1_000_000`. This follows the code.
