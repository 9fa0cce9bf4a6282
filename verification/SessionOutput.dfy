// SessionOutputState and sendSessionMessage: a reply goes through the output that
// was captured with the request, framed by WriterMsg.
module SessionOutput {
  import opened Base
  import F = Framing
  import opened FrameFormat

  class OutputStream {
    var sent: Octets
    var bad: bool

    constructor ()
      ensures sent == "" && !bad
    {
      sent, bad := "", false;
    }
  }

  class SessionOutputState {
    var active: bool
    var output: OutputStream?

    constructor (output: OutputStream)
      ensures active && this.output == output
    {
      active, this.output := true, output;
    }

    /** The three conditions that sendSessionMessage checks under the send mutex. */
    predicate Writable()
      reads this, output
    {
      active && output != null && !output.bad
    }

    /** A message is framed onto the session's own stream, or silently dropped. */
    method Send(body: Octets) returns (written: bool)
      modifies output
      ensures written == old(Writable())
      ensures output != null ==>
                output.sent == old(output.sent) + (if old(Writable()) then F.Written(body) else "")
                && output.bad == old(output.bad)
    {
      if !active || output == null || output.bad {
        return false;
      }
      output.sent := output.sent + (F.Prefix + Decimal(|body|) + CrLfCrLf + body);
      return true;
    }

    /** The two steps of clear(): late replies are dropped from then on. */
    method Close()
      modifies this
      ensures !Writable() && output == null
    {
      active := false;
      output := null;
    }
  }

  /** What a peer reads from a stream that only ever carried messages sent this way. */
  method SendAll(state: SessionOutputState, bodies: seq<Octets>)
    requires state.Writable() && state.output.sent == ""
    requires forall i :: 0 <= i < |bodies| ==> |bodies[i]| <= IntMax
    modifies state.output
    ensures state.output == old(state.output)
    ensures F.Deliver(state.output.sent, 0, true) == bodies
  {
    for i := 0 to |bodies|
      invariant state.Writable() && state.output == old(state.output)
      invariant state.output.sent == F.WrittenAll(bodies[..i])
    {
      var written := state.Send(bodies[i]);
      F.WrittenSnoc(bodies[..i], bodies[i]);
      assert bodies[..i + 1] == bodies[..i] + [bodies[i]];
    }
    assert bodies[..|bodies|] == bodies;
    F.FramesRoundTrip(bodies, 0, true);
    F.AllKept(bodies);
  }
}
