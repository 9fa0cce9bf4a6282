// Which step puts which reply on the wire, in every run.
module ReplyCauses {
  import opened Base
  import opened Classify
  import opened Pipeline
  import D = Dispatch
  import I = IntakeProof
  import R = ReplyProof
  import E = EndpointTheorems

  // -- What an outcome answers ------------------------------------------------------------

  /** A handler's result leads to this body: a value to a result, an error value or a
      raised request error to that error, any other exception to an internal error, and
      so does a write of a value that threw. */
  predicate ResultPuts(result: HandlerResult, w1: Write, w2: Write, b: Body) {
    match b
    case Result => result.Value? && !w1.ThrewEarly?
    case HandlerError => (result.ErrorValue? || result.RaisedRequestError?) && !w1.ThrewEarly?
    case InternalError =>
      || (result.RaisedOther? && !w1.ThrewEarly?)
      || ((result.Value? || result.ErrorValue?) && !w1.Written? && !w2.ThrewEarly?)
    case Rejected(_) => false
  }

  predicate OutcomePuts(o: Outcome, b: Body) {
    match o
    case NoHandler(w) => b == Rejected(MethodNotFound) && !w.ThrewEarly?
    case Sync(result, w1, w2) => ResultPuts(result, w1, w2, b)
    case AsyncRaised(result, w) =>
      !w.ThrewEarly? && b == if result.RaisedRequestError? then HandlerError else InternalError
    case AsyncStarted => false
  }

  /** Code that answers request n finishes with this reply. */
  predicate HandlerPuts(s: State, l: Label, r: Reply) {
    && (l.FinishRequest? || l.CompletionReady?) && l.n == r.sequence && Open(s.flags)
    && Assigned(s.intake, l.n) && ExpectsReply(Frame(s.intake, l.n)) && r.id == Frame(s.intake, l.n).id
    && if l.FinishRequest? then OutcomePuts(l.outcome, r.body) else ResultPuts(l.result, l.w1, l.w2, r.body)
  }

  /** Routing sends the error that parsing has prepared. */
  predicate RoutingPuts(s: State, l: Label, r: Reply) {
    && l.Route? && s.intake.routing != [] && !s.flags.quit && Open(s.flags)
    && s.intake.routing[0].message.ErrorReply?
    && r == Reply(s.intake.routing[0].sequence, s.intake.routing[0].message.id, Rejected(s.intake.routing[0].message.code))
  }

  predicate Puts(s: State, l: Label, r: Reply) {
    HandlerPuts(s, l, r) || RoutingPuts(s, l, r)
  }

  predicate OnWire(s: State, r: Reply) {
    r in s.h.wire
  }

  lemma EmittedExactly(result: HandlerResult, w1: Write, w2: Write, b: Body)
    ensures b in Emitted(result, w1, w2) <==> ResultPuts(result, w1, w2, b)
  {
  }

  lemma BodiesExactly(o: Outcome, b: Body)
    requires !o.AsyncStarted?
    ensures b in Bodies(o) <==> OutcomePuts(o, b)
  {
    if o.Sync? {
      EmittedExactly(o.result, o.w1, o.w2, b);
    }
  }

  lemma SendPuts(h: Handlers, f: Flags, n: nat, id: Id, bodies: seq<Body>, r: Reply)
    ensures r in Send(h, f, n, id, bodies).wire
            <==> r in h.wire || (Open(f) && r.sequence == n && r.id == id && r.body in bodies)
  {
    var more := Replies(n, id, bodies);
    assert r in more <==> r.sequence == n && r.id == id && r.body in bodies by {
      if r.body in bodies && r.sequence == n && r.id == id {
        var k :| 0 <= k < |bodies| && bodies[k] == r.body;
        assert more[k] == r;
      }
    }
  }

  lemma FinishPuts(s: State, n: nat, o: Outcome, r: Reply)
    requires Enabled(s, FinishRequest(n, o))
    ensures OnWire(FinishStep(s, n, o), r) <==> OnWire(s, r) || Puts(s, FinishRequest(n, o), r)
  {
    if !o.AsyncStarted? {
      BodiesExactly(o, r.body);
      SendPuts(s.h.(running := s.h.running - multiset{n}), s.flags, n, Frame(s.intake, n).id, Bodies(o), r);
    }
  }

  lemma CompletionPuts(s: State, l: Label, r: Reply)
    requires Enabled(s, l) && l.CompletionReady?
    ensures OnWire(Step(s, l), r) <==> OnWire(s, r) || Puts(s, l, r)
  {
    EmittedExactly(l.result, l.w1, l.w2, r.body);
    SendPuts(s.h.(polling := s.h.polling - multiset{l.n}), s.flags, l.n, Frame(s.intake, l.n).id,
             Emitted(l.result, l.w1, l.w2), r);
  }

  lemma RoutePuts(s: State, r: Reply)
    requires Enabled(s, Route)
    ensures OnWire(RouteStep(s), r) <==> OnWire(s, r) || Puts(s, Route, r)
  {
    var x := s.intake.routing[0];
    if x.message.ErrorReply? {
      SendPuts(s.h, s.flags, x.sequence, x.message.id, [Rejected(x.message.code)], r);
    }
  }

  lemma StepPutsExactly(s: State, l: Label, r: Reply)
    requires Enabled(s, l)
    ensures OnWire(Step(s, l), r) <==> OnWire(s, r) || Puts(s, l, r)
  {
    if l.FinishRequest? {
      FinishPuts(s, l.n, l.outcome, r);
    } else if l.CompletionReady? {
      CompletionPuts(s, l, r);
    } else if l.Route? {
      RoutePuts(s, r);
    } else {
      SilentPuts(s, l, r);
    }
  }

  lemma SilentPuts(s: State, l: Label, r: Reply)
    requires Enabled(s, l) && !R.Writes(l)
    ensures Step(s, l).h.wire == s.h.wire && !Puts(s, l, r)
  {
    R.SilentSteps(s, l);
  }

  function Putting(r: Reply): (State, Label) -> bool {
    (s: State, l: Label) => Puts(s, l, r)
  }

  function HandlerPutting(r: Reply): (State, Label) -> bool {
    (s: State, l: Label) => HandlerPuts(s, l, r)
  }

  /** In every run: a reply is on the wire if and only if some step of the run put it
      there, on an open session: a handler or a completion whose outcome has that body, or
      the routing of an error prepared while parsing. */
  lemma {:induction false} RepliedExactlyWhen(s0: State, labels: seq<Label>, r: Reply)
    requires s0.h.wire == []
    ensures OnWire(Exec(s0, labels), r) <==> Happens(s0, labels, Putting(r))
    decreases |labels|
  {
    if labels != [] {
      var front, l := labels[..|labels| - 1], labels[|labels| - 1];
      assert labels == front + [l];
      RepliedExactlyWhen(s0, front, r);
      HappensSnoc(s0, front, l, Putting(r));
      if Enabled(Exec(s0, front), l) {
        StepPutsExactly(Exec(s0, front), l, r);
      }
    }
  }

  // -- Handlers get requests only ------------------------------------------------------------

  /** How often number n is on its way to, or with, a handler. */
  function Held(s: State, n: nat): nat {
    R.Waiting(s.d, n) + s.h.pool[n] + s.h.running[n] + s.h.deferred[n] + s.h.polling[n]
  }

  predicate IsRequestFrame(i: Intake, n: nat) {
    Assigned(i, n) && Frame(i, n).Request?
  }

  /** Routing hands a request to the dispatcher. */
  predicate RoutesRequest(s: State, l: Label, n: nat) {
    l.Route? && s.intake.routing != [] && s.intake.routing[0].message.Request? && s.intake.routing[0].sequence == n
  }

  lemma RouteHolds(s: State, n: nat)
    requires Enabled(s, Route)
    ensures Held(RouteStep(s), n) <= Held(s, n) + Bit(RoutesRequest(s, Route, n))
  {
    var x := s.intake.routing[0];
    if x.message.Request? {
      RequestHolds(Handed(s), x.sequence, n);
    } else if x.message.Ordered? {
      NotificationHolds(Handed(s), x.sequence, n);
    }
  }

  lemma NotificationHolds(s: State, m: nat, n: nat)
    ensures Held(RouteNotification(s, m), n) == Held(s, n)
  {
  }

  lemma RequestHolds(s: State, m: nat, n: nat)
    ensures Held(RouteRequest(s, m), n) <= Held(s, n) + Bit(m == n)
  {
    var (d', verdict) := D.EnqueueRequest(s.d, m, s.limits.parked);
    if verdict.Park? {
      var p := D.Parked(s.d.last.value, m);
      assert D.Sequences(s.d.parked + [p]) == D.Sequences(s.d.parked) + [m];
    }
  }

  lemma HandlerStepsHold(s: State, l: Label, n: nat)
    requires Enabled(s, l) && (l.FinishRequest? || l.CompletionReady?)
    ensures Held(Step(s, l), n) <= Held(s, n)
  {
    if l.FinishRequest? {
      FinishHolds(s, l.n, l.outcome, n);
    } else {
      CompletionHolds(s, l, n);
    }
  }

  lemma FinishHolds(s: State, m: nat, o: Outcome, n: nat)
    requires Enabled(s, FinishRequest(m, o))
    ensures Held(FinishStep(s, m, o), n) <= Held(s, n)
  {
    OneLess(s.h.running, m);
    OneMore(s.h.deferred, m);
  }

  lemma CompletionHolds(s: State, l: Label, n: nat)
    requires Enabled(s, l) && l.CompletionReady?
    ensures Held(Step(s, l), n) <= Held(s, n)
  {
    OneLess(s.h.polling, l.n);
  }

  lemma DispatchHolds(s: State, l: Label, n: nat)
    requires Enabled(s, l) && D.Inv(s.d) && (l.PublishCompletion? || l.StopDispatcher?)
    ensures Held(Step(s, l), n) <= Held(s, n)
  {
    if l.PublishCompletion? {
      R.PublishConserves(s.d, n);
    }
  }

  lemma ReleaseHolds(s: State, n: nat)
    requires Enabled(s, PostReleased)
    ensures Held(Step(s, PostReleased), n) <= Held(s, n)
  {
    if s.d.worker.batch != [] {
      R.ReleaseConserves(s.d, n);
      PostHolds(s.(d := s.d.(worker := D.Releasing(s.d.worker.batch[1..]))), s.d.worker.batch[0], n);
    }
  }

  lemma PostHolds(s: State, m: nat, n: nat)
    ensures Held(PostRequest(s, m), n) <= Held(s, n) + Bit(m == n)
  {
  }

  lemma MoveHolds(s: State, l: Label, n: nat)
    requires Enabled(s, l) && R.MovesRequest(l)
    ensures Held(Step(s, l), n) <= Held(s, n)
  {
    R.MoveLeavesTheRest(s, l);
    if l.StartRequest? || l.AbandonTask? {
      PoolHolds(s, l, n);
    } else {
      AsyncHolds(s, l, n);
    }
  }

  lemma PoolHolds(s: State, l: Label, n: nat)
    requires Enabled(s, l) && (l.StartRequest? || l.AbandonTask?)
    ensures var h := Step(s, l).h;
            h.pool[n] + h.running[n] <= s.h.pool[n] + s.h.running[n]
            && h.deferred == s.h.deferred && h.polling == s.h.polling
  {
  }

  lemma AsyncHolds(s: State, l: Label, n: nat)
    requires Enabled(s, l) && (l.TakeCompletion? || l.CompletionNotReady? || l.StopAsync?)
    ensures var h := Step(s, l).h;
            h.deferred[n] + h.polling[n] <= s.h.deferred[n] + s.h.polling[n]
            && h.pool == s.h.pool && h.running == s.h.running
  {
  }

  lemma OnlyRoutingHolds(s: State, l: Label, n: nat)
    requires Enabled(s, l) && D.Inv(s.d)
    ensures Held(Step(s, l), n) <= Held(s, n) + Bit(RoutesRequest(s, l, n))
  {
    if l.Route? {
      RouteHolds(s, n);
    } else if R.LeavesReplies(l) {
      R.QuietStepsConserve(s, l, n);
    } else if R.MovesRequest(l) {
      MoveHolds(s, l, n);
    } else if l.PostReleased? {
      ReleaseHolds(s, n);
    } else if l.FinishRequest? || l.CompletionReady? {
      HandlerStepsHold(s, l, n);
    } else {
      DispatchHolds(s, l, n);
    }
  }

  lemma FramesStay(s: State, l: Label)
    requires Enabled(s, l)
    ensures Step(s, l).intake.start == s.intake.start && s.intake.frames <= Step(s, l).intake.frames
  {
    if R.Writes(l) {
      WritersLeaveFrames(s, l);
    } else {
      R.FramesOnlyGrow(s, l);
    }
  }

  lemma WritersLeaveFrames(s: State, l: Label)
    requires Enabled(s, l) && R.Writes(l)
    ensures Step(s, l).intake.start == s.intake.start && s.intake.frames == Step(s, l).intake.frames
  {
    if l.Route? {
      I.RouteStepIntake(s);
    }
  }

  ghost predicate HoldsRequests(s: State, n: nat) {
    Held(s, n) > 0 ==> IsRequestFrame(s.intake, n)
  }

  lemma StepHoldsRequests(s: State, l: Label, n: nat)
    requires Enabled(s, l) && D.Inv(s.d) && I.Contents(s.intake) && HoldsRequests(s, n)
    ensures HoldsRequests(Step(s, l), n)
  {
    OnlyRoutingHolds(s, l, n);
    FramesStay(s, l);
    if RoutesRequest(s, l, n) {
      assert I.Genuine(s.intake, n, s.intake.routing[0].message);
    }
  }

  // -- Replies fit their frames ------------------------------------------------------------------

  /** A reply to a frame that parsing rejected says so; a reply to a request comes from its
      handler. */
  ghost predicate Fits(s: State, r: Reply, fromHandler: bool) {
    OnWire(s, r) ==> FitsFrame(s.intake, r, fromHandler)
  }

  ghost predicate FitsFrame(i: Intake, r: Reply, fromHandler: bool) {
    && Assigned(i, r.sequence) && ExpectsReply(Frame(i, r.sequence))
    && (Frame(i, r.sequence).ErrorReply? ==> r.body == Rejected(Frame(i, r.sequence).code))
    && (Frame(i, r.sequence).Request? ==> fromHandler)
  }

  lemma PutFits(s: State, l: Label, r: Reply)
    requires Enabled(s, l) && Puts(s, l, r) && HoldsRequests(s, r.sequence) && I.Contents(s.intake)
    ensures FitsFrame(s.intake, r, HandlerPuts(s, l, r))
  {
    if !HandlerPuts(s, l, r) {
      assert I.Genuine(s.intake, r.sequence, s.intake.routing[0].message);
    }
  }

  lemma StepFits(s: State, l: Label, r: Reply, fromHandler: bool)
    requires Enabled(s, l) && HoldsRequests(s, r.sequence) && I.Contents(s.intake) && Fits(s, r, fromHandler)
    ensures Fits(Step(s, l), r, fromHandler || HandlerPuts(s, l, r))
  {
    StepPutsExactly(s, l, r);
    FramesStay(s, l);
    if Puts(s, l, r) {
      PutFits(s, l, r);
      StillFits(s.intake, Step(s, l).intake, r, HandlerPuts(s, l, r));
    } else if OnWire(s, r) {
      StillFits(s.intake, Step(s, l).intake, r, fromHandler);
    }
  }

  lemma StillFits(i: Intake, i': Intake, r: Reply, fromHandler: bool)
    requires FitsFrame(i, r, fromHandler) && i'.start == i.start && i.frames <= i'.frames
    ensures FitsFrame(i', r, fromHandler)
  {
  }

  lemma {:induction false} RunFits(limits: Limits, start: nat, leaked: nat, labels: seq<Label>, r: Reply)
    requires E.Startable(limits, leaked)
    ensures var s0 := Initial(limits, start, leaked);
            && HoldsRequests(Exec(s0, labels), r.sequence)
            && Fits(Exec(s0, labels), r, Happens(s0, labels, HandlerPutting(r)))
    decreases |labels|
  {
    if labels != [] {
      var s0, front, l := Initial(limits, start, leaked), labels[..|labels| - 1], labels[|labels| - 1];
      assert labels == front + [l];
      RunFits(limits, start, leaked, front, r);
      HappensSnoc(s0, front, l, HandlerPutting(r));
      if Enabled(Exec(s0, front), l) {
        RunIsReady(limits, start, leaked, front);
        StepHoldsRequests(Exec(s0, front), l, r.sequence);
        StepFits(Exec(s0, front), l, r, Happens(s0, front, HandlerPutting(r)));
      }
    }
  }

  lemma RunIsReady(limits: Limits, start: nat, leaked: nat, labels: seq<Label>)
    requires E.Startable(limits, leaked)
    ensures var s := Exec(Initial(limits, start, leaked), labels); D.Inv(s.d) && I.Contents(s.intake)
  {
    E.EveryRunKeepsInv(limits, start, leaked, labels);
  }

  /** In every run: whatever answers a frame that parsing rejected carries the code it was
      rejected with, and whatever answers a request was put there by a step that finished
      this request with an outcome that has this body. */
  lemma RepliesFitTheirFrames(limits: Limits, start: nat, leaked: nat, labels: seq<Label>, r: Reply)
    requires E.Startable(limits, leaked)
    ensures var s0 := Initial(limits, start, leaked);
            Fits(Exec(s0, labels), r, Happens(s0, labels, HandlerPutting(r)))
  {
    RunFits(limits, start, leaked, labels, r);
  }
}
