// The reorder buffer of RemoteEndPoint::Data: parse workers finish in any order,
// routing happens in arrival order.
module Reorder {
  import opened Base

  /** next_route_sequence together with reorder_buffer. */
  datatype Buffer<+P> = Buffer(next: nat, held: map<nat, P>)

  /** What one submission leaves behind: the buffer, the messages that became
      routable (they carry numbers next, next + 1, ...) and whether the
      submission was refused because the buffer was full. */
  datatype Outcome<+P> = Outcome(buffer: Buffer<P>, ready: seq<P>, overloaded: bool)

  /** The longest run of buffered messages starting at `next` leaves the buffer. */
  function Drain<P>(b: Buffer<P>): (r: (Buffer<P>, seq<P>))
    decreases b.held.Keys
  {
    if b.next !in b.held then
      (b, [])
    else
      var (b', rest) := Drain(Buffer(b.next + 1, b.held - {b.next}));
      (b', [b.held[b.next]] + rest)
  }

  /** Draining stops at the first missing number; it hands out exactly the
      numbers below that point, in order, and keeps the others untouched. */
  lemma {:induction false} DrainTakesTheRun<P>(b: Buffer<P>)
    ensures var (b', ready) := Drain(b);
            && b'.next == b.next + |ready|
            && b'.next !in b'.held
            && (forall k :: b.next <= k < b'.next ==> k in b.held && ready[k - b.next] == b.held[k])
            && (forall k :: k in b'.held <==> k in b.held && !(b.next <= k < b'.next))
            && (forall k :: k in b'.held ==> b'.held[k] == b.held[k])
    decreases b.held.Keys
  {
    if b.next in b.held {
      var c := Buffer(b.next + 1, b.held - {b.next});
      DrainTakesTheRun(c);
      var (b', rest) := Drain(c);
      forall k | b.next <= k < b'.next
        ensures k in b.held && Drain(b).1[k - b.next] == b.held[k]
      {
        assert Drain(b).1 == [b.held[b.next]] + rest;
        if k != b.next {
          assert c.next <= k && k in c.held && rest[k - c.next] == c.held[k];
        }
      }
    }
  }

  predicate Full<P>(b: Buffer<P>, bypass: bool, limit: nat) {
    !bypass && limit != 0 && |b.held| >= limit
  }

  /** The effect of one submitParsedMessage. `blank` is the placeholder that
      keeps the numbering gap-free when DropNewest discards a message. */
  function Submit<P>(b: Buffer<P>, sequence: nat, parsed: P, blank: P, bypass: bool, limit: nat, dropNewest: bool): Outcome<P> {
    if sequence == b.next then
      var (b', rest) := Drain(Buffer(b.next + 1, b.held));
      Outcome(b', [parsed] + rest, false)
    else if Full(b, bypass, limit) && !dropNewest then
      Outcome(b, [], true)
    else
      var kept := if Full(b, bypass, limit) then blank else parsed;
      var held := if sequence in b.held then b.held else b.held[sequence := kept];
      var (b', rest) := Drain(Buffer(b.next, held));
      Outcome(b', rest, false)
  }

  /** The state RemoteEndPoint::Data guards with route_mutex. */
  class Router<P> {
    var nextRouteSequence: nat
    var reorderBuffer: map<nat, P>

    function Model(): Buffer<P>
      reads this
    {
      Buffer(nextRouteSequence, reorderBuffer)
    }

    constructor (nextMessageSequence: nat)
      ensures Model() == Buffer(nextMessageSequence, map[])
    {
      nextRouteSequence, reorderBuffer := nextMessageSequence, map[];
    }

    /** resetMessageRouting: numbering resumes at the producer's next number. */
    method Reset(nextMessageSequence: nat)
      modifies this
      ensures Model() == Buffer(nextMessageSequence, map[])
    {
      reorderBuffer := map[];
      nextRouteSequence := nextMessageSequence;
    }

    /** clearMessageRouting keeps the position and forgets what was buffered. */
    method Clear()
      modifies this
      ensures Model() == Buffer(old(nextRouteSequence), map[])
    {
      reorderBuffer := map[];
    }

    method SubmitParsedMessage(sequence: nat, parsed: P, blank: P, bypass: bool, limit: nat, dropNewest: bool, quit: bool)
      returns (ready: seq<P>, overloaded: bool)
      modifies this
      ensures quit ==> unchanged(this) && ready == [] && !overloaded
      ensures !quit ==> Outcome(Model(), ready, overloaded)
                        == old(Submit(Model(), sequence, parsed, blank, bypass, limit, dropNewest))
    {
      ready, overloaded := [], false;
      if quit {
        return;
      }
      if sequence == nextRouteSequence {
        ready := ready + [parsed];
        nextRouteSequence := nextRouteSequence + 1;
      } else {
        var kept := parsed;
        if !bypass && limit != 0 && |reorderBuffer| >= limit {
          if dropNewest {
            kept := blank;
          } else {
            overloaded := true;
          }
        }
        if !overloaded {
          if sequence !in reorderBuffer {
            reorderBuffer := reorderBuffer[sequence := kept];
          }
        }
      }
      if !overloaded {
        var run := TakeRun();
        ready := ready + run;
      }
    }

    /** The loop that empties the buffer from next_route_sequence up to the first gap. */
    method TakeRun() returns (run: seq<P>)
      modifies this
      ensures (Model(), run) == old(Drain(Model()))
    {
      run := [];
      ghost var first := Model();
      while nextRouteSequence in reorderBuffer
        invariant Drain(first).0 == Drain(Model()).0
        invariant Drain(first).1 == run + Drain(Model()).1
        decreases reorderBuffer.Keys
      {
        Reassociate(run, [reorderBuffer[nextRouteSequence]], Drain(Buffer(nextRouteSequence + 1, reorderBuffer - {nextRouteSequence})).1);
        run := run + [reorderBuffer[nextRouteSequence]];
        reorderBuffer := reorderBuffer - {nextRouteSequence};
        nextRouteSequence := nextRouteSequence + 1;
      }
      assert run + [] == run;
    }
  }
}
