// LSPStreamMessageProducer::listen over the descriptor reader, and its inverse, the
// frame writer WriterMsg.
module Framing {
  import opened Base
  import opened FrameFormat
  import R = StdinReader

  // -- What a byte stream means -----------------------------------------------------------

  predicate TooLong(length: nat, maxFrame: nat) {
    maxFrame != 0 && length > maxFrame
  }

  /** The bodies delivered from a complete input. `goOn` is the answer of the overload
      handler: skip an oversized frame, or stop listening. */
  function Deliver(input: Octets, maxFrame: nat, goOn: bool): (r: seq<Octets>)
    decreases |input|, 0
  {
    match FindHeaderEnd(input)
    case None => []
    case Some(e) => Body(input[e.at + e.delimiter..], BlockLength(input[..e.at], None), maxFrame, goOn)
  }

  /** Continuing behind a header that announced `length`, if any. */
  function Body(rest: Octets, length: Option<nat>, maxFrame: nat, goOn: bool): (r: seq<Octets>)
    decreases |rest|, 1
  {
    if length.None? then Deliver(rest, maxFrame, goOn)
    else if TooLong(length.value, maxFrame) && !goOn then []
    else if |rest| < length.value then []
    else
      (if TooLong(length.value, maxFrame) then [] else [rest[..length.value]])
      + Deliver(rest[length.value..], maxFrame, goOn)
  }

  // -- The listening loop --------------------------------------------------------------

  /** One look at keepRunning, which stop() clears after `keep` further looks, if ever. */
  method LookAtKeepRunning(keep: Option<nat>) returns (running: bool, keep': Option<nat>)
    ensures keep.None? ==> running && keep' == None
    ensures keep == Some(0) ==> !running && keep' == keep
  {
    running, keep' := true, keep;
    if keep.Some? {
      if keep.value == 0 {
        running := false;
      } else {
        keep' := Some(keep.value - 1);
      }
    }
  }

  /** reportInputState for this reader, which never asks for its state to be cleared. */
  method InputUsable(reader: R.Reader) returns (ok: bool)
    modifies reader`interrupted, reader`interruptIn
    ensures ok == !reader.Broken()
    ensures old(reader.interrupted) ==> reader.interrupted
    ensures old(reader.Benign()) ==> reader.Benign() && reader.Broken() == old(reader.Broken())
  {
    if reader.badSeen {
      return false;
    }
    var seen := reader.Look();
    return !seen;
  }

  /** The scan for a header: append input until a delimiter shows up. */
  method ReadHeader(reader: R.Reader, start: Octets, keep: Option<nat>)
    returns (buffer: Octets, end: Option<HeaderEnd>, running: bool, keep': Option<nat>)
    requires reader.Valid() && !reader.Broken()
    modifies reader
    ensures reader.Valid() && start + old(reader.Pending()) == buffer + reader.Pending()
    ensures end.Some? ==> end == FindHeaderEnd(buffer) && !reader.Broken()
    ensures end.None? && running ==> reader.Broken() || (FindHeaderEnd(buffer) == None && reader.Pending() == [])
    ensures keep.None? ==> running && keep' == None
    ensures old(reader.Benign()) ==> reader.Benign() && !reader.Broken()
  {
    buffer, running, keep' := start, true, keep;
    end := FindHeaderEnd(buffer);
    ghost var all := start + reader.Pending();
    while end.None?
      invariant reader.Valid() && !reader.Broken()
      invariant all == buffer + reader.Pending() && end == FindHeaderEnd(buffer)
      invariant keep.None? ==> running && keep' == None
      invariant old(reader.Benign()) ==> reader.Benign()
      decreases |reader.Pending()|
    {
      running, keep' := LookAtKeepRunning(keep');
      if !running {
        return;
      }
      ghost var before := buffer;
      var chunk := reader.ReadSome(4096);
      if chunk == "" {
        return;
      }
      Reassociate(before, chunk, reader.Pending());
      buffer := buffer + chunk;
      var ok := InputUsable(reader);
      if !ok {
        return;
      }
      end := FindHeaderEnd(buffer);
    }
    running, keep' := LookAtKeepRunning(keep');
    if !running {
      end := None;
    }
  }

  /** discardBytes: skip the rest of an oversized frame in chunks. */
  method DiscardBytes(reader: R.Reader, count: nat) returns (ok: bool)
    requires reader.Valid() && !reader.Broken()
    modifies reader
    ensures reader.Valid()
    ensures ok ==> count <= |old(reader.Pending())| && reader.Pending() == old(reader.Pending())[count..]
    ensures ok ==> !reader.Broken()
    ensures !ok ==> reader.Broken() || |old(reader.Pending())| < count
    ensures old(reader.Benign()) ==> reader.Benign() && !reader.Broken()
  {
    var left := count;
    ghost var all := reader.Pending();
    while left != 0
      invariant reader.Valid() && !reader.Broken() && 0 <= left <= count
      invariant count - left <= |all| && reader.Pending() == all[count - left..]
      invariant old(reader.Benign()) ==> reader.Benign()
      decreases left
    {
      var toRead := R.Min(left, 4096);
      ghost var eofBefore := reader.eofSeen;
      var octets := reader.Read(toRead);
      if reader.badSeen {
        return false;
      }
      var eof := reader.Eof();
      var failed := reader.Look();
      if eof || failed {
        assert !reader.Broken() ==> reader.Pending() == [] && |octets| < toRead;
        return false;
      }
      left := left - toRead;
    }
    return true;
  }

  /** Bulk read of what is missing of a body. */
  method FillBody(reader: R.Reader, start: Octets, length: nat) returns (buffer: Octets, ok: bool)
    requires reader.Valid() && !reader.Broken()
    modifies reader
    ensures reader.Valid()
    ensures ok ==> |buffer| >= length && start + old(reader.Pending()) == buffer + reader.Pending()
    ensures ok ==> !reader.Broken()
    ensures !ok ==> reader.Broken() || |start| + |old(reader.Pending())| < length
    ensures old(reader.Benign()) ==> reader.Benign() && !reader.Broken()
  {
    buffer := start;
    if |buffer| < length {
      var octets := reader.Read(length - |buffer|);
      Reassociate(buffer, octets, reader.Pending());
      buffer := buffer + octets;
      if reader.badSeen {
        return buffer, false;
      }
      var eof := reader.Eof();
      if eof {
        return buffer, false;
      }
      var failed := reader.Look();
      if failed {
        return buffer, false;
      }
    }
    ok := true;
  }

  datatype Verdict = Continue | Finished | InputBroken | Stopped

  function Emit(out: Option<Octets>): (r: seq<Octets>) {
    if out.Some? then [out.value] else []
  }

  function GivenUp(reader: R.Reader): Verdict
    reads reader
  {
    if reader.Broken() then InputBroken else Finished
  }

  method SkipBody(reader: R.Reader, start: Octets, n: nat) returns (buffer: Octets, ok: bool)
    requires reader.Valid() && !reader.Broken()
    modifies reader
    ensures reader.Valid()
    ensures ok ==> !reader.Broken() && n <= |start + old(reader.Pending())|
                   && (start + old(reader.Pending()))[n..] == buffer + reader.Pending()
    ensures !ok ==> reader.Broken() || |start + old(reader.Pending())| < n
    ensures old(reader.Benign()) ==> reader.Benign() && !reader.Broken()
  {
    var buffered := R.Min(|start|, n);
    buffer, ok := start[buffered..], true;
    var remaining := n - buffered;
    if remaining != 0 {
      ok := DiscardBytes(reader, remaining);
    }
  }

  /** The part of one turn behind a header. */
  method TakeBody(reader: R.Reader, start: Octets, length: Option<nat>, maxFrame: nat, goOn: bool)
    returns (buffer: Octets, out: Option<Octets>, verdict: Verdict)
    requires reader.Valid() && !reader.Broken()
    modifies reader
    ensures reader.Valid() && !verdict.Stopped?
    ensures verdict.Continue? ==>
              && !reader.Broken()
              && |buffer| + |reader.Pending()| <= |start| + |old(reader.Pending())|
              && old(Body(start + reader.Pending(), length, maxFrame, goOn))
                 == Emit(out) + Deliver(buffer + reader.Pending(), maxFrame, goOn)
    ensures verdict.Finished? ==> old(Body(start + reader.Pending(), length, maxFrame, goOn)) == []
    ensures verdict.InputBroken? ==> reader.Broken()
    ensures !verdict.Continue? ==> out == None
    ensures old(reader.Benign()) ==> reader.Benign() && !reader.Broken()
  {
    buffer, out, verdict := start, None, Continue;
    ghost var all := start + reader.Pending();
    if length.None? {
      return;
    }
    var n := length.value;
    var ok;
    if maxFrame != 0 && n > maxFrame {
      if !goOn {
        return buffer, None, Finished;
      }
      buffer, ok := SkipBody(reader, buffer, n);
      verdict := if ok then Continue else GivenUp(reader);
      return;
    }
    buffer, ok := FillBody(reader, buffer, n);
    if !ok {
      return buffer, None, GivenUp(reader);
    }
    assert all[..n] == buffer[..n] && all[n..] == buffer[n..] + reader.Pending();
    out := Some(buffer[..n]);
    buffer := buffer[n..];
  }

  lemma DeliverAfterHeader(buffer: Octets, more: Octets, maxFrame: nat, goOn: bool)
    requires FindHeaderEnd(buffer).Some?
    ensures var e := FindHeaderEnd(buffer).value;
            Deliver(buffer + more, maxFrame, goOn)
            == Body(buffer[e.at + e.delimiter..] + more, BlockLength(buffer[..e.at], None), maxFrame, goOn)
  {
    HeaderEndIsStable(buffer, more);
    var e := FindHeaderEnd(buffer).value;
    assert (buffer + more)[..e.at] == buffer[..e.at];
    assert (buffer + more)[e.at + e.delimiter..] == buffer[e.at + e.delimiter..] + more;
  }

  lemma NothingDelivered(buffer: Octets, maxFrame: nat, goOn: bool)
    requires FindHeaderEnd(buffer) == None
    ensures Deliver(buffer + [], maxFrame, goOn) == []
  {
    assert buffer + [] == buffer;
  }

  /** One turn of listen: a header and what follows it. */
  method Turn(reader: R.Reader, start: Octets, maxFrame: nat, goOn: bool, keep: Option<nat>)
    returns (buffer: Octets, out: Option<Octets>, verdict: Verdict, keep': Option<nat>)
    requires reader.Valid() && !reader.Broken()
    modifies reader
    ensures reader.Valid()
    ensures verdict.Continue? ==>
              && |buffer| + |reader.Pending()| < |start| + |old(reader.Pending())|
              && old(Deliver(start + reader.Pending(), maxFrame, goOn))
                 == Emit(out) + Deliver(buffer + reader.Pending(), maxFrame, goOn)
    ensures verdict.Finished? ==> old(Deliver(start + reader.Pending(), maxFrame, goOn)) == []
    ensures verdict.InputBroken? ==> reader.Broken()
    ensures !verdict.Continue? ==> out == None
    ensures keep.None? ==> !verdict.Stopped? && keep' == None
    ensures old(reader.Benign()) ==> reader.Benign() && !reader.Broken()
  {
    var end, running;
    buffer, end, running, keep' := ReadHeader(reader, start, keep);
    if end.None? {
      verdict := if !running then Stopped else GivenUp(reader);
      if verdict.Finished? {
        NothingDelivered(buffer, maxFrame, goOn);
      }
      return buffer, None, verdict, keep';
    }
    DeliverAfterHeader(buffer, reader.Pending(), maxFrame, goOn);
    buffer, out, verdict := TakeFrame(reader, buffer, end.value, maxFrame, goOn,
                                      Deliver(buffer + reader.Pending(), maxFrame, goOn));
  }

  /** The part of one turn from a header on; `goal` is what the whole input means. */
  method TakeFrame(reader: R.Reader, start: Octets, end: HeaderEnd, maxFrame: nat, goOn: bool, ghost goal: seq<Octets>)
    returns (buffer: Octets, out: Option<Octets>, verdict: Verdict)
    requires reader.Valid() && !reader.Broken() && end.at + end.delimiter <= |start| && end.delimiter >= 2
    requires goal == Body(start[end.at + end.delimiter..] + reader.Pending(), BlockLength(start[..end.at], None), maxFrame, goOn)
    modifies reader
    ensures reader.Valid() && !verdict.Stopped?
    ensures verdict.Continue? ==>
              && |buffer| + |reader.Pending()| < |start| + |old(reader.Pending())|
              && goal == Emit(out) + Deliver(buffer + reader.Pending(), maxFrame, goOn)
    ensures verdict.Finished? ==> goal == []
    ensures verdict.InputBroken? ==> reader.Broken()
    ensures !verdict.Continue? ==> out == None
    ensures old(reader.Benign()) ==> reader.Benign() && !reader.Broken()
  {
    var length := ParseHeaderBlock(start[..end.at]);
    buffer, out, verdict := TakeBody(reader, start[end.at + end.delimiter..], length, maxFrame, goOn);
  }

  lemma EmptyHasNoHeader()
    ensures FindHeaderEnd("") == None
  {
    assert forall p: Octets, k: nat :: OccursAt([], p, k) ==> p == [];
  }

  /** The test behind a delivery: at its end an emptied input is not read again. */
  method AfterDelivery(reader: R.Reader, buffer: Octets) returns (verdict: Verdict)
    requires reader.Valid()
    modifies reader`interrupted, reader`interruptIn
    ensures reader.Valid() && reader.Pending() == old(reader.Pending())
    ensures verdict.Continue? || verdict == GivenUp(reader)
    ensures verdict.Finished? ==> buffer == "" && reader.Pending() == []
    ensures old(reader.Broken()) ==> reader.Broken()
    ensures old(reader.Benign()) ==> reader.Benign() && reader.Broken() == old(reader.Broken())
  {
    verdict := Continue;
    var eof := reader.Eof();
    if eof && buffer == "" {
      verdict := GivenUp(reader);
    }
  }

  /** What one round of the loop does to what has been delivered and what is ahead. */
  method Round(reader: R.Reader, start: Octets, maxFrame: nat, goOn: bool, keep: Option<nat>)
    returns (buffer: Octets, out: Option<Octets>, verdict: Verdict, keep': Option<nat>)
    requires reader.Valid()
    modifies reader
    ensures reader.Valid()
    ensures verdict.Continue? ==> |buffer| + |reader.Pending()| < |start| + |old(reader.Pending())|
    ensures verdict.Continue? || out.Some? ==>
              old(Deliver(start + reader.Pending(), maxFrame, goOn))
              == Emit(out) + Deliver(buffer + reader.Pending(), maxFrame, goOn)
    ensures verdict.Finished? ==> old(Deliver(start + reader.Pending(), maxFrame, goOn)) == Emit(out)
    ensures verdict.InputBroken? ==> reader.Broken()
    ensures keep.None? ==> !verdict.Stopped? && keep' == None
    ensures keep == Some(0) ==> verdict.Stopped? && out == None
    ensures old(reader.Benign() && !reader.Broken()) ==> reader.Benign() && !reader.Broken()
  {
    var running;
    buffer, out := start, None;
    running, keep' := LookAtKeepRunning(keep);
    if !running {
      return buffer, out, Stopped, keep';
    }
    var ok := InputUsable(reader);
    if !ok {
      return buffer, out, InputBroken, keep';
    }
    buffer, out, verdict, keep' := Turn(reader, buffer, maxFrame, goOn, keep');
    if out.Some? {
      verdict := AfterDelivery(reader, buffer);
      if verdict.Finished? {
        EmptyHasNoHeader();
        NothingDelivered("", maxFrame, goOn);
      }
    }
  }

  /** listen: however the descriptor cuts its data into chunks, what is delivered
      depends on the data alone. Exactly the specified bodies are delivered if nothing
      breaks the input and nobody stops the loop; otherwise it is a prefix of them. */
  method Listen(reader: R.Reader, maxFrame: nat, goOn: bool, stopIn: Option<nat>) returns (delivered: seq<Octets>)
    requires reader.Valid()
    modifies reader
    ensures delivered <= old(Deliver(reader.Pending(), maxFrame, goOn))
    ensures stopIn.None? && old(reader.Benign() && !reader.Broken()) ==>
              !reader.Broken() && delivered == old(Deliver(reader.Pending(), maxFrame, goOn))
    ensures stopIn.None? && !reader.Broken() ==> delivered == old(Deliver(reader.Pending(), maxFrame, goOn))
    ensures stopIn == Some(0) ==> delivered == []
  {
    delivered := [];
    var buffer, verdict, keep := "", Continue, stopIn;
    ghost var goal := Deliver(reader.Pending(), maxFrame, goOn);
    ghost var ahead := goal;
    assert "" + reader.Pending() == reader.Pending();
    while verdict.Continue?
      invariant reader.Valid() && goal == delivered + ahead
      invariant verdict.Continue? ==> ahead == Deliver(buffer + reader.Pending(), maxFrame, goOn)
      invariant verdict.Finished? ==> ahead == []
      invariant verdict.InputBroken? ==> reader.Broken()
      invariant stopIn.None? ==> !verdict.Stopped? && keep == None
      invariant old(reader.Benign() && !reader.Broken()) ==> reader.Benign() && !reader.Broken()
      invariant stopIn == Some(0) ==> delivered == [] && (verdict.Continue? ==> keep == stopIn)
      decreases verdict.Continue?, |buffer| + |reader.Pending()|
    {
      var out;
      buffer, out, verdict, keep := Round(reader, buffer, maxFrame, goOn, keep);
      if out.Some? {
        assert ahead == [out.value] + ahead[1..];
        Reassociate(delivered, [out.value], ahead[1..]);
        delivered := delivered + [out.value];
        ahead := ahead[1..];
      }
    }
  }

  // -- The writer ----------------------------------------------------------------------

  const Prefix := "Content-Length: "

  /** WriterMsg. */
  function Written(body: Octets): (r: Octets) {
    Prefix + Decimal(|body|) + CrLfCrLf + body
  }

  function WrittenAll(bodies: seq<Octets>): (r: Octets) {
    if bodies == [] then [] else Written(bodies[0]) + WrittenAll(bodies[1..])
  }

  /** The bodies a listener keeps: all that fit, or those before the first that does not. */
  function Kept(bodies: seq<Octets>, maxFrame: nat, goOn: bool): (r: seq<Octets>) {
    if bodies == [] then []
    else if TooLong(|bodies[0]|, maxFrame) then (if goOn then Kept(bodies[1..], maxFrame, goOn) else [])
    else [bodies[0]] + Kept(bodies[1..], maxFrame, goOn)
  }

  function Header(n: nat): (r: Octets) {
    Prefix + Decimal(n)
  }

  lemma HeaderIsOneLine(n: nat)
    ensures forall i :: 0 <= i < |Header(n)| ==> Header(n)[i] != '\n' && Header(n)[i] != '\r'
  {
    ValueOfDecimal(n);
    var d := Decimal(n);
    forall i | 0 <= i < |Header(n)| ensures Header(n)[i] != '\n' && Header(n)[i] != '\r' {
      if i >= |Prefix| { assert Header(n)[i] == d[i - |Prefix|] && IsDigit(d[i - |Prefix|]); }
    }
  }

  lemma HeaderEndsAtDelimiter(h: Octets, more: Octets)
    requires forall i :: 0 <= i < |h| ==> h[i] != '\n' && h[i] != '\r'
    ensures FindHeaderEnd(h + CrLfCrLf + more) == Some(HeaderEnd(|h|, 4))
  {
    var s := h + CrLfCrLf + more;
    assert s[|h|..|h| + 4] == CrLfCrLf;
    assert OccursAt(s, CrLfCrLf, |h|);
    forall k: nat | k < |h| ensures !OccursAt(s, CrLfCrLf, k) {
      assert s[k] == h[k];
      if k + 4 <= |s| { assert s[k..k + 4][0] == s[k]; }
    }
    forall k: nat | k <= |h| ensures !OccursAt(s, LfLf, k) {
      assert s[k] != '\n';
      if k + 2 <= |s| { assert s[k..k + 2][0] == s[k]; }
    }
  }

  lemma HeaderAnnounces(n: nat)
    requires n <= IntMax
    ensures BlockLength(Header(n), None) == Some(n)
  {
    HeaderIsOneLine(n);
    OneLineBlock(Header(n));
    HeaderShape(n);
    KeyAndValue(" " + Decimal(n));
    ParsesWrittenLength(n);
  }

  lemma HeaderShape(n: nat)
    ensures Header(n) == LengthKey + ":" + (" " + Decimal(n))
  {
    assert Prefix == LengthKey + ":" + " ";
    Reassociate(LengthKey + ":", " ", Decimal(n));
  }

  lemma OneLineBlock(h: Octets)
    requires forall i :: 0 <= i < |h| ==> h[i] != '\n' && h[i] != '\r'
    ensures BlockLength(h, None) == Later(h, None) == LineLength(h)
  {
    OnlyLine(h);
    assert TrimCr(h) == h;
  }

  lemma OnlyLine(h: Octets)
    requires forall i :: 0 <= i < |h| ==> h[i] != '\n'
    ensures BlockLength(h, None) == Later(h, None)
  {
    var whole := h[0..];
    assert whole == h && h[0..|h|] == h;
    NoLineFeed(h);
    BlockStep(h, 0, |h|, None);
  }

  lemma NoLineFeed(h: Octets)
    requires forall i :: 0 <= i < |h| ==> h[i] != '\n'
    ensures IndexOf(h, '\n') == |h|
  {
  }

  lemma KeyAndValue(value: Octets)
    ensures LineLength(LengthKey + ":" + value) == ParseLength(value)
  {
    var line := LengthKey + ":" + value;
    assert line[14] == ':';
    assert forall i :: 0 <= i < 14 ==> line[i] == LengthKey[i] && line[i] != ':';
    assert IndexOf(line, ':') == 14;
    assert line[..14] == LengthKey && line[15..] == value;
  }

  lemma DeliversWritten(body: Octets, rest: Octets, maxFrame: nat, goOn: bool)
    requires |body| <= IntMax
    ensures Deliver(Written(body) + rest, maxFrame, goOn) == Body(body + rest, Some(|body|), maxFrame, goOn)
  {
    var h := Header(|body|);
    HeaderIsOneLine(|body|);
    HeaderAnnounces(|body|);
    var s := h + CrLfCrLf + (body + rest);
    assert Written(body) + rest == s;
    HeaderEndsAtDelimiter(h, body + rest);
    assert s[..|h|] == h && s[|h| + 4..] == body + rest;
  }

  /** For every list of bodies, of any content, the written frames are delivered in
      order and unchanged, except for the oversized ones: each of them is skipped if
      the overload handler says continue, and otherwise ends the session. */
  lemma {:induction false} FramesRoundTrip(bodies: seq<Octets>, maxFrame: nat, goOn: bool)
    requires forall i :: 0 <= i < |bodies| ==> |bodies[i]| <= IntMax
    ensures Deliver(WrittenAll(bodies), maxFrame, goOn) == Kept(bodies, maxFrame, goOn)
  {
    if bodies == [] {
      assert forall p: Octets, k: nat :: OccursAt([], p, k) ==> p == [];
    } else {
      var body, rest := bodies[0], WrittenAll(bodies[1..]);
      DeliversWritten(body, rest, maxFrame, goOn);
      FramesRoundTrip(bodies[1..], maxFrame, goOn);
      assert (body + rest)[..|body|] == body && (body + rest)[|body|..] == rest;
    }
  }

  lemma {:induction false} WrittenSnoc(bodies: seq<Octets>, body: Octets)
    ensures WrittenAll(bodies + [body]) == WrittenAll(bodies) + Written(body)
  {
    if bodies == [] {
      assert bodies + [body] == [body] && [body][1..] == [];
    } else {
      assert (bodies + [body])[1..] == bodies[1..] + [body];
      WrittenSnoc(bodies[1..], body);
    }
  }

  /** Without a frame limit every body is kept. */
  lemma {:induction false} AllKept(bodies: seq<Octets>)
    ensures Kept(bodies, 0, true) == bodies
  {
    if bodies != [] {
      AllKept(bodies[1..]);
    }
  }

  /** End to end: written frames, cut into chunks by a slow but working descriptor in
      any way, come out of the listener as the bodies that were written, however often
      reads are interrupted by signals or find nothing. */
  method ListenToWritten(bodies: seq<Octets>, script: seq<R.Event>, maxFrame: nat, goOn: bool)
    returns (delivered: seq<Octets>)
    requires forall i :: 0 <= i < |bodies| ==> |bodies[i]| <= IntMax
    requires R.Harmless(script)
    ensures delivered == Kept(bodies, maxFrame, goOn)
  {
    delivered := ListenUnderStress(bodies, script, maxFrame, goOn, None, None);
  }

  /** The same when the descriptor may fail, an interrupt may strike at any look and
      the loop may be stopped: what arrives is a prefix, and all of it arrives if none
      of this is to come. */
  method ListenUnderStress(bodies: seq<Octets>, script: seq<R.Event>, maxFrame: nat, goOn: bool,
                           interruptIn: Option<nat>, stopIn: Option<nat>)
    returns (delivered: seq<Octets>)
    requires forall i :: 0 <= i < |bodies| ==> |bodies[i]| <= IntMax
    ensures delivered <= Kept(bodies, maxFrame, goOn)
    ensures R.Harmless(script) && interruptIn.None? && stopIn.None? ==> delivered == Kept(bodies, maxFrame, goOn)
    ensures stopIn == Some(0) ==> delivered == []
  {
    var reader := new R.Reader(WrittenAll(bodies), script, true, interruptIn);
    FramesRoundTrip(bodies, maxFrame, goOn);
    delivered := Listen(reader, maxFrame, goOn, stopIn);
  }
}
