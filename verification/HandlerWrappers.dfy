// The request-handler wrappers of RemoteEndPoint.h: how a handler's outcome turns
// into calls of sendSessionMessage on the captured session. A C++ exception is the
// returned flag `threw`.
module HandlerWrappers {
  import opened Classify
  import opened Pipeline

  /** A session's output as the replies that have left through it. */
  class Responder {
    var open: bool
    var wire: seq<Reply>

    constructor ()
      ensures open && wire == []
    {
      open, wire := true, [];
    }

    /** sendSessionMessage: silent on a closed session, otherwise one write. */
    method SendMessage(reply: Reply, w: Write) returns (threw: bool)
      modifies this`wire
      ensures wire == old(wire) + if open && !w.ThrewEarly? then [reply] else []
      ensures threw == (open && !w.Written?)
    {
      if !open {
        return false;
      }
      if !w.ThrewEarly? {
        wire := wire + [reply];
      }
      return !w.Written?;
    }

    /** The try and catch blocks around sendHandlerResult, shared by the synchronous
        wrappers and by the completion of a future. */
    method Answer(n: nat, id: Id, result: HandlerResult, w1: Write, w2: Write)
      modifies this`wire
      ensures wire == old(wire) + if open then Replies(n, id, Emitted(result, w1, w2)) else []
    {
      var threw := false;
      match result {
        case Value => threw := SendMessage(Reply(n, id, Result), w1);
        case ErrorValue => threw := SendMessage(Reply(n, id, HandlerError), w1);
        case RaisedRequestError => var _ := SendMessage(Reply(n, id, HandlerError), w1);
        case RaisedOther => var _ := SendMessage(Reply(n, id, InternalError), w1);
      }
      if threw {
        var _ := SendMessage(Reply(n, id, InternalError), w2);
      }
    }

    /** One poll of a completion: an unfinished future stays queued and sends nothing. */
    method Poll(ready: bool, n: nat, id: Id, result: HandlerResult, w1: Write, w2: Write) returns (done: bool)
      modifies this`wire
      ensures done == ready
      ensures wire == old(wire) + if ready && open then Replies(n, id, Emitted(result, w1, w2)) else []
    {
      if ready {
        Answer(n, id, result, w1, w2);
      }
      return ready;
    }
  }
}
