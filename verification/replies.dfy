/**
 * What both daemons do after injecting an event: answer a left-edge hit with
 * a framed `returnControl` message, and the ways a connection ends.
 */
module Replies {
  import opened Options
  import opened Bytes
  import opened Framing
  import opened Events
  import opened Geometry

  /** Why one connection ended. */
  datatype Exit =
    | ConnectionLost          // `_read_exact` hit end of stream
    | InvalidLength(length: nat)  // the header was 0 or above the limit
    | MalformedPayload        // `json.loads` (or reading the result as a dict) raised
    | EncodeFailed            // `struct.pack` refused the reply's length

  /** A frame whose header declares exactly the length of what follows it. */
  predicate WellFramed(f: bytes) {
    |f| >= 4 && HeaderOf(f) == |f| - 4
  }

  /**
   * The reply to one injection: nothing when the cursor did not reach the
   * edge, otherwise the framed `returnControl` message, or `None` when its
   * length does not fit the header.
   */
  function Reply(signal: EdgeSignal, dumps: ReturnControl -> bytes): (out: Option<seq<bytes>>)
    ensures out.Some? ==> |out.value| == (if signal.shouldReturn then 1 else 0)
    ensures out.Some? && signal.shouldReturn ==>
      WellFramed(out.value[0]) && out.value[0][4..] == dumps(ReturnAtLeftEdge(signal.normY))
    ensures out.None? <==> signal.shouldReturn && |dumps(ReturnAtLeftEdge(signal.normY))| >= UINT32_LIMIT
  {
    if !signal.shouldReturn then Some([])
    else
      match EncodeFrame(dumps(ReturnAtLeftEdge(signal.normY)))
      case None => None
      case Some(frame) => Some([frame])
  }

  /** How many of the signals asked to hand control back. */
  function Returns(signals: seq<EdgeSignal>): nat {
    if signals == [] then 0
    else (if signals[0].shouldReturn then 1 else 0) + Returns(signals[1..])
  }

  /**
   * The replies a run of injections earns, one signal per injection, in
   * order: what `Reply` frames for each, nothing where it could not frame one.
   */
  function Answers(signals: seq<EdgeSignal>, dumps: ReturnControl -> bytes): seq<bytes> {
    if signals == [] then []
    else Reply(signals[0], dumps).GetOr([]) + Answers(signals[1..], dumps)
  }

  /**
   * A connection whose injections gave `signals` answered them as the loop
   * of `tcp_client` does: the replies sent are exactly those the signals
   * earned, in order; only the last injection's reply can have failed to
   * frame, which is then what ended the connection; and a refused header is
   * one the length check refuses.
   */
  predicate Answered(signals: seq<EdgeSignal>, sent: seq<bytes>, exit: Exit, dumps: ReturnControl -> bytes) {
    && sent == Answers(signals, dumps)
    && (forall i :: 0 <= i < |signals| - 1 ==> Reply(signals[i], dumps).Some?)
    && (exit.EncodeFailed? <==> signals != [] && Reply(signals[|signals| - 1], dumps).None?)
    && (exit.InvalidLength? ==> exit.length == 0 || exit.length > MAX_FRAME_LENGTH)
  }

  /**
   * An answered connection sends one well-framed reply per left-edge
   * injection, except the one whose framing failed and ended the connection.
   */
  lemma {:induction false} AnsweredReplies(signals: seq<EdgeSignal>, sent: seq<bytes>, exit: Exit, dumps: ReturnControl -> bytes)
    requires Answered(signals, sent, exit, dumps)
    ensures |sent| + (if exit.EncodeFailed? then 1 else 0) == Returns(signals)
    ensures forall i :: 0 <= i < |sent| ==> WellFramed(sent[i])
    decreases |signals|
  {
    if signals != [] {
      var head := Reply(signals[0], dumps).GetOr([]);
      var rest := signals[1..];
      var exit' := if |signals| == 1 then ConnectionLost else exit;
      assert forall i :: 0 <= i < |rest| - 1 ==> rest[i] == signals[i + 1];
      if |signals| > 1 {
        assert rest[|rest| - 1] == signals[|signals| - 1];
      }
      AnsweredReplies(rest, Answers(rest, dumps), exit', dumps);
      assert sent == head + Answers(rest, dumps);
      assert forall i :: 0 <= i < |sent| ==> sent[i] == if i < |head| then head[i] else Answers(rest, dumps)[i - |head|];
    }
  }

  /** A connection that ends before any injection sends nothing; it cannot have ended on a failed reply. */
  lemma AnsweredNothing(exit: Exit, dumps: ReturnControl -> bytes)
    requires !exit.EncodeFailed?
    requires exit.InvalidLength? ==> exit.length == 0 || exit.length > MAX_FRAME_LENGTH
    ensures Answered([], [], exit, dumps)
  {
  }

  /** A connection whose only injection's reply failed to frame sent nothing and ended there. */
  lemma AnsweredFailure(signal: EdgeSignal, dumps: ReturnControl -> bytes)
    requires Reply(signal, dumps).None?
    ensures Answered([signal], [], EncodeFailed, dumps)
  {
    assert Answers([signal], dumps) == [] + Answers([], dumps);
  }

  /** An injection whose reply `out` was sent, in front of an answered rest, leaves the connection answered. */
  lemma AnsweredCons(
    signal: EdgeSignal, out: seq<bytes>, signals: seq<EdgeSignal>, sent: seq<bytes>, exit: Exit, dumps: ReturnControl -> bytes)
    requires Reply(signal, dumps) == Some(out)
    requires Answered(signals, sent, exit, dumps)
    ensures Answered([signal] + signals, out + sent, exit, dumps)
  {
    var all := [signal] + signals;
    assert all[1..] == signals;
    assert forall i :: 1 <= i < |all| ==> all[i] == signals[i - 1];
  }
}
