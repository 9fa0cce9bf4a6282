// The life of incoming messages within one session, as a step machine. Every
// step is one mutex-protected block (or one atomic operation) of RemoteEndPoint,
// and `Exec` runs an arbitrary interleaving of steps.
module Pipeline {
  import opened Base
  import opened Classify
  import opened Reorder
  import D = Dispatch

  datatype Limits = Limits(parse: nat, reorder: nat, notifications: nat, parked: nat, dropNewest: bool)

  datatype Item = Item(sequence: nat, message: Message)

  /** From the producer thread to routing. `gone` are numbers discarded because
      the session was stopping, `blanked` those overwritten by a placeholder. */
  datatype Intake = Intake(
    start: nat,
    frames: seq<Message>,
    hand: Option<nat>,          // assigned by the producer, not yet posted
    noSlot: bool,               // the number in hand has found the parse queue full
    queued: multiset<nat>,      // tasks posted to the parse pool and not started
    parsing: multiset<nat>,     // tasks that a parse worker is running
    finishing: nat,             // tasks past submission that still hold their slot
    abandoned: nat,             // slots of tasks destroyed without having run
    slots: nat,                 // parse_queue_size
    buffer: Buffer<Message>,
    routing: seq<Item>,         // ready items of the holder of route_dispatch_mutex
    routed: seq<Item>,          // history: handed to routeParsedIncoming
    blanked: multiset<nat>,
    gone: multiset<nat>)

  datatype Body = Result | HandlerError | InternalError | Rejected(code: Code)

  datatype Reply = Reply(sequence: nat, id: Id, body: Body)

  /** Where requests are after routing. */
  datatype Handlers = Handlers(
    pool: multiset<nat>,        // posted to the handler pool
    running: multiset<nat>,     // inside mainLoop
    deferred: multiset<nat>,    // async_completions
    polling: multiset<nat>,     // taken by the completion thread
    dropped: multiset<nat>,     // refused by an overload limit
    lost: multiset<nat>,        // reply suppressed: stopping, or the output is gone
    doubled: multiset<nat>,     // a second reply followed a late write failure
    wire: seq<Reply>)

  datatype Flags = Flags(
    quit: bool, active: bool, output: bool, good: bool, asyncStopped: bool, poolsStopped: bool)

  datatype State = State(
    limits: Limits,
    intake: Intake,
    d: D.Dispatcher,
    accepted: seq<nat>,         // history: ordered notifications accepted
    handled: seq<nat>,          // history: ordered notifications whose handler returned
    posted: seq<nat>,           // history: requests that reached the handler pool
    h: Handlers,
    flags: Flags)

  // -- Handler outcomes -----------------------------------------------------------

  /** One write to the session output: it may throw before or after its bytes
      have left. */
  datatype Write = Written | ThrewEarly | ThrewLate

  datatype HandlerResult = Value | ErrorValue | RaisedRequestError | RaisedOther

  datatype Outcome =
    | NoHandler(w: Write)
    | Sync(result: HandlerResult, w1: Write, w2: Write)
    | AsyncRaised(result: HandlerResult, w1: Write)
    | AsyncStarted

  function Put(b: Body, w: Write): seq<Body> {
    if w.ThrewEarly? then [] else [b]
  }

  /** The bodies a request wrapper puts on an open output. Sending the handler's
      value happens inside the try block, so a write that throws is answered by a
      second, internal-error reply; sending from a catch block is not retried. */
  function Emitted(result: HandlerResult, w1: Write, w2: Write): seq<Body> {
    match result
    case Value => Put(Result, w1) + (if w1.Written? then [] else Put(InternalError, w2))
    case ErrorValue => Put(HandlerError, w1) + (if w1.Written? then [] else Put(InternalError, w2))
    case RaisedRequestError => Put(HandlerError, w1)
    case RaisedOther => Put(InternalError, w1)
  }

  function Bodies(o: Outcome): seq<Body>
    requires !o.AsyncStarted?
  {
    match o
    case NoHandler(w) => Put(Rejected(MethodNotFound), w)
    case Sync(result, w1, w2) => Emitted(result, w1, w2)
    case AsyncRaised(result, w1) => if result.RaisedRequestError? then Put(HandlerError, w1) else Put(InternalError, w1)
  }

  /** A write that throws after its bytes have left and is then followed by a
      successful error reply is the only way to answer twice. */
  lemma TwiceExactlyAfterLateFailure(result: HandlerResult, w1: Write, w2: Write)
    ensures |Emitted(result, w1, w2)| <= 2
    ensures |Emitted(result, w1, w2)| == 2
            <==> (result.Value? || result.ErrorValue?) && w1.ThrewLate? && !w2.ThrewEarly?
  {
  }

  function Replies(n: nat, id: Id, bodies: seq<Body>): (r: seq<Reply>)
    ensures |r| == |bodies|
    ensures forall i :: 0 <= i < |r| ==> r[i] == Reply(n, id, bodies[i])
  {
    seq(|bodies|, i requires 0 <= i < |bodies| => Reply(n, id, bodies[i]))
  }

  predicate Open(f: Flags) {
    f.active && f.output && f.good
  }

  /** Sending at most two bodies for request n. */
  function Send(h: Handlers, f: Flags, n: nat, id: Id, bodies: seq<Body>): Handlers {
    if !Open(f) || bodies == [] then h.(lost := h.lost + multiset{n})
    else h.(wire := h.wire + Replies(n, id, bodies),
            doubled := if |bodies| > 1 then h.doubled + multiset{n} else h.doubled)
  }

  // -- Intake ---------------------------------------------------------------------

  function End(i: Intake): nat {
    i.start + |i.frames|
  }

  predicate Assigned(i: Intake, n: nat) {
    i.start <= n < End(i)
  }

  function Frame(i: Intake, n: nat): Message
    requires Assigned(i, n)
  {
    i.frames[n - i.start]
  }

  function Items(first: nat, ready: seq<Message>): (r: seq<Item>)
    ensures |r| == |ready|
    ensures forall i :: 0 <= i < |r| ==> r[i] == Item(first + i, ready[i])
  {
    seq(|ready|, i requires 0 <= i < |ready| => Item(first + i, ready[i]))
  }

  /** submitParsedMessage for a message that has left `hand` or `parsing`; the
      flag says that a StopProcessing overload ended the session. */
  function Submitted(i: Intake, n: nat, m: Message, bypass: bool, lim: Limits): (r: (Intake, bool)) {
    var o := Submit(i.buffer, n, m, Blank, bypass, lim.reorder, lim.dropNewest);
    if o.overloaded then
      (i.(gone := i.gone + multiset{n}), true)
    else
      var overwritten := n != i.buffer.next && Full(i.buffer, bypass, lim.reorder);
      (i.(buffer := o.buffer,
          routing := Items(i.buffer.next, o.ready),
          blanked := if overwritten then i.blanked + multiset{n} else i.blanked), false)
  }

  // -- Steps ----------------------------------------------------------------------

  datatype Label =
    | Assign(message: Message)      // listen callback: nextMessageSequence
    | PostParse                     // postParseTask for the number in hand
    | SubmitBlank                   // DropNewest: the producer submits a placeholder
    | ParseStart(n: nat)            // a parse worker takes a task
    | ParseDone(n: nat)             // a parse worker submits
    | ReleaseSlot
    | Route                         // routeParsedIncoming for the first ready item
    | TakeNotification
    | HandlerReturns
    | PublishCompletion
    | PostReleased
    | StartRequest(n: nat)
    | FinishRequest(n: nat, outcome: Outcome)
    | TakeCompletion(n: nat)
    | CompletionNotReady(n: nat)
    | CompletionReady(n: nat, result: HandlerResult, w1: Write, w2: Write)
    | OutputFails
    | Quit | ClearRouting | Deactivate | ResetOutput | StopDispatcher | StopAsync | StopPools
    | AbandonParse(n: nat)
    | AbandonTask(n: nat)

  function PostParseStep(s: State, n: nat): State {
    var i := s.intake;
    if s.flags.quit then
      s.(intake := i.(hand := None, gone := i.gone + multiset{n}))
    else if !D.AtLimit(i.slots, s.limits.parse) then
      s.(intake := i.(hand := None, queued := i.queued + multiset{n}, slots := i.slots + 1))
    else if s.limits.dropNewest then
      s.(intake := i.(noSlot := true, blanked := i.blanked + multiset{n}))
    else
      s.(intake := i.(hand := None, gone := i.gone + multiset{n}), flags := s.flags.(quit := true))
  }

  function SubmitBlankStep(s: State, n: nat): State {
    var i := s.intake.(hand := None, noSlot := false);
    if s.flags.quit then s.(intake := i.(gone := i.gone + multiset{n}))
    else s.(intake := Submitted(i, n, Blank, true, s.limits).0)
  }

  function ParseDoneStep(s: State, n: nat): State
    requires Assigned(s.intake, n)
  {
    var i := s.intake.(parsing := s.intake.parsing - multiset{n}, finishing := s.intake.finishing + 1);
    if s.flags.quit then
      s.(intake := i.(gone := i.gone + multiset{n}))
    else
      var (i', overloaded) := Submitted(i, n, Frame(i, n), false, s.limits);
      s.(intake := i', flags := s.flags.(quit := s.flags.quit || overloaded))
  }

  /** postToWorker drops its message once the session is quitting. */
  function PostRequest(s: State, n: nat): State {
    if s.flags.quit then s.(h := s.h.(lost := s.h.lost + multiset{n}))
    else s.(h := s.h.(pool := s.h.pool + multiset{n}), posted := s.posted + [n])
  }

  function RouteRequest(s: State, n: nat): State {
    if s.flags.quit then
      s.(h := s.h.(lost := s.h.lost + multiset{n}))
    else
      var (d', verdict) := D.EnqueueRequest(s.d, n, s.limits.parked);
      match verdict
      case PostNow => PostRequest(s, n)
      case Park => s.(d := d')
      case Overloaded =>
        s.(h := s.h.(dropped := s.h.dropped + multiset{n}),
           flags := s.flags.(quit := !s.limits.dropNewest))
  }

  function RouteNotification(s: State, n: nat): State {
    if s.flags.quit || s.d.stopped then s
    else
      var (d', accepted) := D.EnqueueNotification(s.d, n, s.limits.notifications);
      if accepted then s.(d := d', accepted := s.accepted + [n])
      else s.(flags := s.flags.(quit := !s.limits.dropNewest))
  }

  function RouteError(s: State, n: nat, id: Id, code: Code): State {
    if s.flags.quit then s.(h := s.h.(lost := s.h.lost + multiset{n}))
    else s.(h := Send(s.h, s.flags, n, id, [Rejected(code)]))
  }

  /** The first ready item is handed to routing. */
  function Handed(s: State): State
    requires s.intake.routing != []
  {
    s.(intake := s.intake.(routing := s.intake.routing[1..], routed := s.intake.routed + [s.intake.routing[0]]))
  }

  function RouteStep(s: State): State
    requires s.intake.routing != []
  {
    var item := s.intake.routing[0];
    var s' := Handed(s);
    match item.message
    case Request(_) => RouteRequest(s', item.sequence)
    case ErrorReply(id, code) => RouteError(s', item.sequence, id, code)
    case Ordered => RouteNotification(s', item.sequence)
    case _ => s'
  }

  function FinishStep(s: State, n: nat, o: Outcome): State
    requires Assigned(s.intake, n) && ExpectsReply(Frame(s.intake, n))
  {
    var h := s.h.(running := s.h.running - multiset{n});
    if o.AsyncStarted? then
      if s.flags.asyncStopped || s.flags.quit then s.(h := h.(lost := h.lost + multiset{n}))
      else s.(h := h.(deferred := h.deferred + multiset{n}))
    else
      s.(h := Send(h, s.flags, n, Frame(s.intake, n).id, Bodies(o)))
  }

  predicate Enabled(s: State, l: Label) {
    var i := s.intake;
    match l
    case Assign(_) => i.hand.None?
    case PostParse => i.hand.Some? && !i.noSlot
    case SubmitBlank => i.hand.Some? && i.noSlot && i.routing == []
    case ParseStart(n) => n in i.queued && !s.flags.poolsStopped
    case ParseDone(n) => n in i.parsing && i.routing == [] && Assigned(i, n)
    case ReleaseSlot => i.finishing > 0 && i.slots > 0
    case Route => i.routing != []
    case TakeNotification => s.d.worker.Idle? && s.d.queue != []
    case HandlerReturns => s.d.worker.Running?
    case PublishCompletion => s.d.worker.Returned?
    case PostReleased => s.d.worker.Releasing?
    case StartRequest(n) => n in s.h.pool && !s.flags.poolsStopped
    case FinishRequest(n, _) => n in s.h.running && Assigned(i, n) && ExpectsReply(Frame(i, n))
    case TakeCompletion(n) => n in s.h.deferred
    case CompletionNotReady(n) => n in s.h.polling
    case CompletionReady(n, _, _, _) => n in s.h.polling && Assigned(i, n) && ExpectsReply(Frame(i, n))
    case OutputFails => true
    case Quit => true
    case ClearRouting => s.flags.quit && i.routing == []
    case Deactivate => s.flags.quit
    case ResetOutput => !s.flags.active
    case StopDispatcher => s.flags.quit
    case StopAsync => s.flags.quit
    case StopPools => s.flags.quit
    case AbandonParse(n) => s.flags.quit && s.flags.poolsStopped && n in i.queued
    case AbandonTask(n) => s.flags.quit && s.flags.poolsStopped && n in s.h.pool
  }

  function Step(s: State, l: Label): State
    requires Enabled(s, l)
  {
    var i := s.intake;
    match l
    case Assign(m) => s.(intake := i.(frames := i.frames + [m], hand := Some(End(i))))
    case PostParse => PostParseStep(s, i.hand.value)
    case SubmitBlank => SubmitBlankStep(s, i.hand.value)
    case ParseStart(n) => s.(intake := i.(queued := i.queued - multiset{n}, parsing := i.parsing + multiset{n}))
    case ParseDone(n) => ParseDoneStep(s, n)
    case ReleaseSlot => s.(intake := i.(finishing := i.finishing - 1, slots := i.slots - 1))
    case Route => RouteStep(s)
    case TakeNotification => s.(d := D.Take(s.d))
    case HandlerReturns =>
      s.(d := s.d.(worker := D.Returned(s.d.worker.sequence)), handled := s.handled + [s.d.worker.sequence])
    case PublishCompletion => s.(d := D.Complete(s.d))
    case PostReleased =>
      if s.d.worker.batch == [] then s.(d := s.d.(worker := D.Idle))
      else PostRequest(s.(d := s.d.(worker := D.Releasing(s.d.worker.batch[1..]))), s.d.worker.batch[0])
    case StartRequest(n) =>
      var h := s.h.(pool := s.h.pool - multiset{n});
      if s.flags.quit then s.(h := h.(lost := h.lost + multiset{n}))
      else s.(h := h.(running := h.running + multiset{n}))
    case FinishRequest(n, o) => FinishStep(s, n, o)
    case TakeCompletion(n) =>
      s.(h := s.h.(deferred := s.h.deferred - multiset{n}, polling := s.h.polling + multiset{n}))
    case CompletionNotReady(n) =>
      var h := s.h.(polling := s.h.polling - multiset{n});
      if s.flags.asyncStopped then s.(h := h.(lost := h.lost + multiset{n}))
      else s.(h := h.(deferred := h.deferred + multiset{n}))
    case CompletionReady(n, result, w1, w2) =>
      var h := s.h.(polling := s.h.polling - multiset{n});
      s.(h := Send(h, s.flags, n, Frame(i, n).id, Emitted(result, w1, w2)))
    case OutputFails => s.(flags := s.flags.(good := false))
    case Quit => s.(flags := s.flags.(quit := true))
    case ClearRouting =>
      s.(intake := i.(buffer := i.buffer.(held := map[]), gone := i.gone + multiset(i.buffer.held.Keys)))
    case Deactivate => s.(flags := s.flags.(active := false))
    case ResetOutput => s.(flags := s.flags.(output := false))
    case StopDispatcher =>
      s.(d := D.Stop(s.d), h := s.h.(lost := s.h.lost + multiset(D.Sequences(s.d.parked))))
    case StopAsync =>
      s.(flags := s.flags.(asyncStopped := true),
         h := s.h.(deferred := multiset{}, lost := s.h.lost + s.h.deferred))
    case StopPools => s.(flags := s.flags.(poolsStopped := true))
    case AbandonParse(n) =>
      s.(intake := i.(queued := i.queued - multiset{n}, gone := i.gone + multiset{n}, abandoned := i.abandoned + 1))
    case AbandonTask(n) =>
      s.(h := s.h.(pool := s.h.pool - multiset{n}, lost := s.h.lost + multiset{n}))
  }

  /** The state resetMessageRouting and startOrderedDispatcher leave: numbering
      continues at `start`, and `leaked` slots are still taken by tasks that an
      earlier session abandoned. */
  function Initial(limits: Limits, start: nat, leaked: nat): State {
    State(limits,
          Intake(start, [], None, false, multiset{}, multiset{}, 0, leaked, leaked, Buffer(start, map[]), [], [], multiset{}, multiset{}),
          D.Fresh, [], [], [],
          Handlers(multiset{}, multiset{}, multiset{}, multiset{}, multiset{}, multiset{}, multiset{}, []),
          Flags(false, true, true, true, false, false))
  }

  /** Any interleaving: labels that are not enabled when their turn comes are skipped. */
  function Exec(s: State, labels: seq<Label>): State
    decreases |labels|
  {
    if labels == [] then s
    else
      var before := Exec(s, labels[..|labels| - 1]);
      var l := labels[|labels| - 1];
      if Enabled(before, l) then Step(before, l) else before
  }

  lemma ExecSnoc(s: State, labels: seq<Label>, l: Label)
    ensures Exec(s, labels + [l])
            == var before := Exec(s, labels); if Enabled(before, l) then Step(before, l) else before
  {
    assert (labels + [l])[..|labels|] == labels;
  }

  lemma {:induction false} ExecAppend(s: State, a: seq<Label>, b: seq<Label>)
    ensures Exec(s, a + b) == Exec(Exec(s, a), b)
    decreases |b|
  {
    if b == [] {
      assert a + b == a;
    } else {
      var front, l := b[..|b| - 1], b[|b| - 1];
      assert b == front + [l];
      ExecAppend(s, a, front);
      Reassociate(a, front, [l]);
      ExecSnoc(s, a + front, l);
      ExecSnoc(Exec(s, a), front, l);
    }
  }

  // -- Causes in a run ----------------------------------------------------------------

  /** Step i of the run is enabled and is such a step. */
  ghost predicate HappensAt(s: State, labels: seq<Label>, i: nat, cause: (State, Label) -> bool) {
    && i < |labels|
    && Enabled(Exec(s, labels[..i]), labels[i]) && cause(Exec(s, labels[..i]), labels[i])
  }

  ghost predicate Happens(s: State, labels: seq<Label>, cause: (State, Label) -> bool) {
    exists i: nat :: HappensAt(s, labels, i, cause)
  }

  lemma EarlierHappens(s: State, front: seq<Label>, l: Label, i: nat, cause: (State, Label) -> bool)
    requires i < |front|
    ensures HappensAt(s, front, i, cause) <==> HappensAt(s, front + [l], i, cause)
  {
    assert front[..i] == (front + [l])[..i];
  }

  lemma HappensSnoc(s: State, front: seq<Label>, l: Label, cause: (State, Label) -> bool)
    ensures Happens(s, front + [l], cause)
            <==> Happens(s, front, cause) || (Enabled(Exec(s, front), l) && cause(Exec(s, front), l))
  {
    var labels := front + [l];
    assert labels[..|front|] == front;
    if i: nat :| HappensAt(s, front, i, cause) { EarlierHappens(s, front, l, i, cause); }
    if i: nat :| HappensAt(s, labels, i, cause) {
      if i < |front| { EarlierHappens(s, front, l, i, cause); }
    }
    if Enabled(Exec(s, front), l) && cause(Exec(s, front), l) { assert HappensAt(s, labels, |front|, cause); }
  }
}
