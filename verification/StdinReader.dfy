// The buffered descriptor reader (stdin_istream in include/LibLsp/JsonRpc/stream.h)
// over an arbitrary byte source. Octets are characters; nothing here looks at them.
module StdinReader {
  import opened Base

  /** What one turn of the poll loop meets. `Ready(n)` lets read() return at most
      n + 1 octets; when the script is used up the source is always fully ready. */
  datatype Event =
    | Nothing             // poll timed out, was interrupted by a signal, or reported nothing readable
    | PollFails           // poll failed, or reported an invalid or broken descriptor
    | ReadAgain           // read() failed with EINTR
    | ReadFails           // read() failed for good
    | Ready(n: nat)

  /** The descriptor never fails: it is slow, and cuts its data as it likes. */
  predicate Harmless(script: seq<Event>) {
    forall i :: 0 <= i < |script| ==> !script[i].PollFails? && !script[i].ReadFails?
  }

  const Capacity := 4096

  function Min(a: int, b: int): (r: int) {
    if a < b then a else b
  }

  /** stdin_istream together with its descriptor: `remaining` is what the descriptor
      has yet to hand out, `script` how it will behave, and `interruptIn` after how
      many further looks at the flag another thread's interrupt() shows, if ever. */
  class Reader {
    const validDescriptor: bool
    var remaining: Octets
    var script: seq<Event>
    var interruptIn: Option<nat>
    var interrupted: bool
    var eofSeen: bool
    var badSeen: bool
    var buffer: Octets
    var bufferPos: nat

    ghost predicate Valid()
      reads this
    {
      bufferPos <= |buffer| && (eofSeen ==> interrupted || (remaining == [] && bufferPos == |buffer|))
    }

    /** Octets the caller has not received yet, in order. */
    function Pending(): Octets
      requires bufferPos <= |buffer|
      reads this
    {
      buffer[bufferPos..] + remaining
    }

    /** The stream can no longer be relied on to deliver everything. */
    predicate Broken()
      reads this
    {
      interrupted || badSeen
    }

    /** Nothing that is still to come can break the stream. */
    predicate Benign()
      reads this
    {
      validDescriptor && interruptIn.None? && Harmless(script)
    }

    constructor (input: Octets, script: seq<Event>, validDescriptor: bool, interruptIn: Option<nat>)
      ensures Valid() && Pending() == input && !Broken() && !eofSeen
      ensures Benign() <==> validDescriptor && interruptIn.None? && Harmless(script)
    {
      this.remaining, this.script, this.validDescriptor, this.interruptIn := input, script, validDescriptor, interruptIn;
      interrupted, eofSeen, badSeen, buffer, bufferPos := false, false, false, "", 0;
    }

    /** One look at the interrupt flag; any look can be the first to see it set. */
    method Look() returns (seen: bool)
      modifies this`interrupted, this`interruptIn
      ensures seen == interrupted && (old(interrupted) ==> interrupted)
      ensures old(Benign()) ==> Benign() && interrupted == old(interrupted)
    {
      if interruptIn.Some? {
        if interruptIn.value == 0 {
          interrupted := true;
        } else {
          interruptIn := Some(interruptIn.value - 1);
        }
      }
      return interrupted;
    }

    /** eof. */
    method Eof() returns (r: bool)
      modifies this`interrupted, this`interruptIn
      ensures r == (eofSeen || interrupted) && (old(interrupted) ==> interrupted)
      ensures old(Benign()) ==> Benign() && interrupted == old(interrupted)
    {
      var seen := Look();
      return eofSeen || seen;
    }

    /** One read() of the descriptor. */
    method ReadDescriptor(request: nat, n: nat) returns (octets: Octets)
      requires request > 0
      modifies this`remaining
      ensures old(remaining) == octets + remaining
      ensures |octets| <= request
      ensures octets == [] <==> old(remaining) == []
    {
      var size := Min(Min(request, n + 1), |remaining|);
      octets := remaining[..size];
      remaining := remaining[size..];
    }

    method NextEvent() returns (event: Event)
      modifies this`script
      ensures script == if old(script) == [] then [] else old(script)[1..]
      ensures event == if old(script) == [] then Ready(|remaining|) else old(script)[0]
      ensures old(Benign()) ==> Benign() && !event.PollFails? && !event.ReadFails?
    {
      event := Ready(|remaining|);
      if script != [] {
        event := script[0];
        script := script[1..];
      }
    }

    /** read() on a readable descriptor, into the caller's memory or into the buffer. */
    method Fetch(count: int, n: nat) returns (octets: Octets)
      requires Valid() && count > 0 && bufferPos == |buffer|
      modifies this`remaining, this`buffer, this`bufferPos, this`eofSeen
      ensures Valid() && old(Pending()) == octets + Pending() && |octets| <= count
      ensures octets == [] ==> eofSeen && Pending() == []
      ensures octets != [] ==> eofSeen == old(eofSeen)
    {
      octets := "";
      if count >= Capacity {
        octets := ReadDescriptor(count, n);
        if octets == "" {
          eofSeen := true;
        }
      } else {
        buffer := ReadDescriptor(Capacity, n);
        if buffer != "" {
          var copied := Min(|buffer|, count);
          octets := buffer[..copied];
          bufferPos := copied;
        } else {
          bufferPos := 0;
          eofSeen := true;
        }
      }
    }

    /** One turn of the poll loop, with an empty buffer. */
    method Turn(count: int) returns (octets: Octets, done: bool)
      requires Valid() && count > 0 && bufferPos == |buffer| && !interrupted
      modifies this
      ensures Valid() && old(Pending()) == octets + Pending() && |octets| <= count
      ensures !done ==> octets == [] && bufferPos == |buffer| && eofSeen == old(eofSeen) && badSeen == old(badSeen)
      ensures !done ==> interrupted || |script| < old(|script|)
      ensures old(badSeen) ==> badSeen
      ensures done && octets == [] ==> Broken() || (eofSeen && Pending() == [])
      ensures octets != [] ==> eofSeen == old(eofSeen) && badSeen == old(badSeen) && !interrupted
      ensures old(Benign()) ==> Benign() && !interrupted && badSeen == old(badSeen)
    {
      octets, done := "", false;
      var event := NextEvent();
      var seen := Look();
      if seen || event.Nothing? {
        return;
      }
      if event.PollFails? {
        badSeen := true;
        return "", true;
      }
      seen := Look();
      if seen {
        return;
      }
      if event.Ready? {
        octets := Fetch(count, event.n);
        return octets, true;
      }
      if count < Capacity {
        buffer, bufferPos := "", 0;
      }
      if event.ReadFails? {
        badSeen := true;
        return "", true;
      }
    }

    /** read_some: at most `count` octets; none only if the stream is broken, at its
        end, or nothing was asked for. A benign stream does not break. */
    method ReadSome(count: int) returns (octets: Octets)
      requires Valid()
      modifies this
      ensures Valid() && old(Pending()) == octets + Pending()
      ensures |octets| <= if count > 0 then count else 0
      ensures count > 0 && octets == [] ==> Broken() || (eofSeen && Pending() == [])
      ensures old(Broken()) ==> Broken()
      ensures octets != [] ==> eofSeen == old(eofSeen) && badSeen == old(badSeen) && !interrupted
      ensures count <= 0 ==> unchanged(this)
      ensures old(Benign()) ==> Benign() && Broken() == old(Broken())
    {
      octets := "";
      if count <= 0 {
        return;
      }
      var seen := Look();
      if seen {
        return;
      }
      if bufferPos < |buffer| {
        var copied := Min(|buffer| - bufferPos, count);
        octets := buffer[bufferPos..bufferPos + copied];
        bufferPos := bufferPos + copied;
        return;
      }
      if !validDescriptor {
        badSeen := true;
        return;
      }
      octets := PollLoop(count);
    }

    method PollLoop(count: int) returns (octets: Octets)
      requires Valid() && count > 0 && bufferPos == |buffer| && !interrupted
      modifies this
      ensures Valid() && old(Pending()) == octets + Pending() && |octets| <= count
      ensures octets == [] ==> Broken() || (eofSeen && Pending() == [])
      ensures old(badSeen) ==> badSeen
      ensures octets != [] ==> eofSeen == old(eofSeen) && badSeen == old(badSeen) && !interrupted
      ensures old(Benign()) ==> Benign() && !interrupted && badSeen == old(badSeen)
    {
      octets := "";
      var done := false;
      var seen := Look();
      while !seen && !done
        invariant !done ==> bufferPos == |buffer| && seen == interrupted
        invariant Valid() && old(Pending()) == octets + Pending() && |octets| <= count
        invariant !done ==> octets == [] && eofSeen == old(eofSeen) && badSeen == old(badSeen)
        invariant done && octets == [] ==> Broken() || (eofSeen && Pending() == [])
        invariant octets != [] ==> eofSeen == old(eofSeen) && badSeen == old(badSeen) && !interrupted
        invariant old(badSeen) ==> badSeen
        invariant old(Benign()) ==> Benign() && !interrupted && badSeen == old(badSeen)
        decreases if done || interrupted then 0 else 1, |script|
      {
        octets, done := Turn(count);
        if !done {
          seen := Look();
        }
      }
      if !done {
        eofSeen := true;
      }
    }

    /** get: one octet, or nothing at the end. */
    method Get() returns (octet: Option<char>)
      requires Valid()
      modifies this
      ensures Valid()
      ensures old(Pending()) == (if octet.Some? then [octet.value] else []) + Pending()
      ensures octet == None ==> Broken() || (eofSeen && Pending() == [])
      ensures old(Broken()) ==> Broken()
      ensures old(Benign()) ==> Benign() && Broken() == old(Broken())
    {
      var c := ReadSome(1);
      octet := if |c| == 1 then Some(c[0]) else None;
    }

    /** read: exactly `count` octets unless the stream breaks or ends first. */
    method Read(count: int) returns (octets: Octets)
      requires Valid()
      modifies this
      ensures Valid() && old(Pending()) == octets + Pending()
      ensures |octets| <= if count > 0 then count else 0
      ensures count > 0 && |octets| < count ==> Broken() || (eofSeen && Pending() == [])
      ensures old(Broken()) ==> Broken()
      ensures |octets| == count && !Broken() ==> eofSeen == old(eofSeen)
      ensures old(Benign()) ==> Benign() && Broken() == old(Broken())
    {
      octets := "";
      if count <= 0 {
        return;
      }
      var seen := Look();
      if seen {
        return;
      }
      while |octets| < count
        invariant Valid() && old(Pending()) == octets + Pending() && |octets| <= count
        invariant old(Broken()) ==> Broken()
        invariant eofSeen == old(eofSeen)
        invariant old(Benign()) ==> Benign() && Broken() == old(Broken())
        decreases count - |octets|
      {
        ghost var before := octets;
        var chunk := ReadSome(count - |octets|);
        Reassociate(before, chunk, Pending());
        octets := octets + chunk;
        if chunk == "" {
          break;
        }
      }
    }
  }

  datatype Request = GetOne | ReadExactly(count: int) | ReadUpTo(count: int)

  /** The answer a request gets from a stream that neither ends nor breaks. */
  predicate Full(request: Request, octets: Octets) {
    match request
    case GetOne => |octets| == 1
    case ReadExactly(count) => |octets| == if count > 0 then count else 0
    case ReadUpTo(count) => if count > 0 then 1 <= |octets| <= count else octets == ""
  }

  /** No request is answered with more than it asked for. */
  predicate Within(request: Request, octets: Octets) {
    match request
    case GetOne => |octets| <= 1
    case ReadExactly(count) => |octets| <= if count > 0 then count else 0
    case ReadUpTo(count) => |octets| <= if count > 0 then count else 0
  }

  method ServeOne(reader: Reader, request: Request) returns (octets: Octets)
    requires reader.Valid()
    modifies reader
    ensures reader.Valid() && old(reader.Pending()) == octets + reader.Pending()
    ensures Within(request, octets)
    ensures Full(request, octets) || reader.Broken() || reader.Pending() == []
    ensures old(reader.Broken()) ==> reader.Broken()
    ensures old(reader.Benign()) ==> reader.Benign() && reader.Broken() == old(reader.Broken())
  {
    match request
    case GetOne =>
      var c := reader.Get();
      octets := if c.Some? then [c.value] else "";
    case ReadExactly(count) => octets := reader.Read(count);
    case ReadUpTo(count) => octets := reader.ReadSome(count);
  }

  function Flatten(pieces: seq<Octets>): (r: Octets)
    decreases |pieces|
  {
    if pieces == [] then "" else Flatten(pieces[..|pieces| - 1]) + pieces[|pieces| - 1]
  }

  /** Every request is answered in full, except once the stream has ended or broken. */
  ghost predicate AllServed(requests: seq<Request>, pieces: seq<Octets>, over: bool) {
    && |pieces| == |requests|
    && forall i :: 0 <= i < |pieces| ==> Within(requests[i], pieces[i]) && (Full(requests[i], pieces[i]) || over)
  }

  /** Any mix of calls: what they returned, in order, followed by what is still
      pending is what was pending at the start, and each call got all it asked for
      unless the stream ended or broke. Nothing is lost, repeated or reordered, however
      the source cuts its data and whichever reads go around the buffer. */
  method Serve(reader: Reader, requests: seq<Request>) returns (pieces: seq<Octets>)
    requires reader.Valid()
    modifies reader
    ensures reader.Valid() && old(reader.Pending()) == Flatten(pieces) + reader.Pending()
    ensures AllServed(requests, pieces, reader.Broken() || reader.Pending() == [])
    ensures old(reader.Benign()) ==> reader.Benign() && reader.Broken() == old(reader.Broken())
  {
    pieces := [];
    ghost var all := reader.Pending();
    for i := 0 to |requests|
      invariant reader.Valid() && all == Flatten(pieces) + reader.Pending()
      invariant AllServed(requests[..i], pieces, reader.Broken() || reader.Pending() == [])
      invariant old(reader.Benign()) ==> reader.Benign() && reader.Broken() == old(reader.Broken())
    {
      ghost var rest := reader.Pending();
      var octets := ServeOne(reader, requests[i]);
      Reassociate(Flatten(pieces), octets, reader.Pending());
      assert (pieces + [octets])[..|pieces|] == pieces;
      assert rest == [] ==> reader.Pending() == [];
      pieces := pieces + [octets];
    }
    assert requests[..|requests|] == requests;
  }
}
