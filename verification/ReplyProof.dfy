// Conservation of requests: after routing, each request that expects a reply is
// in exactly one place, and answering is the only way to leave for the wire.
module ReplyProof {
  import opened Base
  import opened Classify
  import opened Dispatch
  import opened Pipeline
  import I = IntakeProof

  /** The numbers of routed messages that expect a reply. */
  function Asked(items: seq<Item>): (r: seq<nat>) {
    if items == [] then []
    else
      var x := items[|items| - 1];
      Asked(items[..|items| - 1]) + if ExpectsReply(x.message) then [x.sequence] else []
  }

  function AnsweredNumbers(wire: seq<Reply>): (r: seq<nat>)
    ensures |r| == |wire|
    ensures forall i :: 0 <= i < |r| ==> r[i] == wire[i].sequence
  {
    seq(|wire|, i requires 0 <= i < |wire| => wire[i].sequence)
  }

  /** How many replies to request n are on the wire. */
  function Answers(wire: seq<Reply>, n: nat): nat {
    multiset(AnsweredNumbers(wire))[n]
  }

  /** How often request n waits in the dispatcher. */
  function Waiting(d: Dispatcher, n: nat): nat {
    multiset(Sequences(d.parked))[n] + if d.worker.Releasing? then multiset(d.worker.batch)[n] else 0
  }

  /** How often request n is with the handlers, dropped, suppressed or answered. */
  function InHandlers(h: Handlers, n: nat): nat {
    h.pool[n] + h.running[n] + h.deferred[n] + h.polling[n] + h.dropped[n] + h.lost[n] + Answers(h.wire, n)
  }

  /** Request n is in one place per routing, plus one more reply for each late
      write failure while answering it. */
  ghost predicate Conserved(s: State, n: nat) {
    Waiting(s.d, n) + InHandlers(s.h, n) == multiset(Asked(s.intake.routed))[n] + s.h.doubled[n]
  }

  /** Each reply carries the id of the request it answers. */
  ghost predicate IdsMatch(i: Intake, wire: seq<Reply>) {
    forall k :: 0 <= k < |wire| ==>
      && Assigned(i, wire[k].sequence)
      && ExpectsReply(Frame(i, wire[k].sequence))
      && wire[k].id == Frame(i, wire[k].sequence).id
  }

  // -- Conservation ---------------------------------------------------------------

  function One(a: nat, n: nat): nat {
    if a == n then 1 else 0
  }

  lemma SendConserves(h: Handlers, f: Flags, n: nat, id: Id, bodies: seq<Body>, k: nat)
    requires |bodies| <= 2
    ensures var h' := Send(h, f, n, id, bodies);
            InHandlers(h', k) + h.doubled[k] == InHandlers(h, k) + One(n, k) + h'.doubled[k]
  {
    if Open(f) && bodies != [] {
      var more := Replies(n, id, bodies);
      assert AnsweredNumbers(h.wire + more) == AnsweredNumbers(h.wire) + AnsweredNumbers(more);
      assert AnsweredNumbers(more) == if |bodies| == 1 then [n] else [n, n];
    }
  }

  lemma BodiesAtMostTwo(o: Outcome)
    requires !o.AsyncStarted?
    ensures |Bodies(o)| <= 2
  {
  }

  lemma PublishConserves(d: Dispatcher, n: nat)
    requires Dispatch.Inv(d) && d.worker.Returned?
    ensures Waiting(Complete(d), n) == Waiting(d, n)
  {
    var k := CompleteKeepsInv(d);
    SplitCount(d.parked, k, n);
  }

  lemma SplitCount(parked: seq<Parked>, k: nat, n: nat)
    requires k <= |parked|
    ensures multiset(Sequences(parked))[n] == multiset(Sequences(parked[..k]))[n] + multiset(Sequences(parked[k..]))[n]
  {
    assert Sequences(parked) == Sequences(parked[..k]) + Sequences(parked[k..]);
  }

  lemma ReleaseConserves(d: Dispatcher, n: nat)
    requires d.worker.Releasing? && d.worker.batch != []
    ensures Waiting(d, n) == Waiting(d.(worker := Releasing(d.worker.batch[1..])), n) + One(d.worker.batch[0], n)
  {
    assert d.worker.batch == [d.worker.batch[0]] + d.worker.batch[1..];
  }

  lemma AskedNext(routed: seq<Item>, x: Item, n: nat)
    ensures multiset(Asked(routed + [x]))[n]
            == multiset(Asked(routed))[n] + if ExpectsReply(x.message) then One(x.sequence, n) else 0
  {
    assert (routed + [x])[..|routed|] == routed;
  }

  lemma ParkConserves(d: Dispatcher, p: Parked, n: nat)
    ensures Waiting(d.(parked := d.parked + [p]), n) == Waiting(d, n) + One(p.sequence, n)
  {
    assert Sequences(d.parked + [p]) == Sequences(d.parked) + [p.sequence];
  }

  lemma RouteRequestConserves(s: State, n: nat, k: nat)
    ensures var s' := RouteRequest(s, n);
            && Waiting(s'.d, k) + InHandlers(s'.h, k) == Waiting(s.d, k) + InHandlers(s.h, k) + One(n, k)
            && s'.h.doubled == s.h.doubled && s'.intake == s.intake
  {
    if !s.flags.quit && EnqueueRequest(s.d, n, s.limits.parked).1.Park? {
      ParkConserves(s.d, Parked(s.d.last.value, n), k);
    }
  }

  lemma RouteErrorConserves(s: State, n: nat, id: Id, code: Code, k: nat)
    ensures var s' := RouteError(s, n, id, code);
            && InHandlers(s'.h, k) + s.h.doubled[k] == InHandlers(s.h, k) + One(n, k) + s'.h.doubled[k]
            && s'.d == s.d && s'.intake == s.intake
  {
    SendConserves(s.h, s.flags, n, id, [Rejected(code)], k);
  }

  lemma RouteNotificationLeaves(s: State, n: nat, k: nat)
    ensures var s' := RouteNotification(s, n);
            s'.h == s.h && s'.intake == s.intake && Waiting(s'.d, k) == Waiting(s.d, k)
  {
  }

  lemma RouteBalance(s: State, n: nat)
    requires s.intake.routing != []
    ensures var s', x := RouteStep(s), s.intake.routing[0];
            Waiting(s'.d, n) + InHandlers(s'.h, n) + s.h.doubled[n]
            == Waiting(s.d, n) + InHandlers(s.h, n) + s'.h.doubled[n] + if ExpectsReply(x.message) then One(x.sequence, n) else 0
  {
    var x := s.intake.routing[0];
    if x.message.Request? {
      RouteRequestConserves(Handed(s), x.sequence, n);
    } else if x.message.ErrorReply? {
      RouteErrorConserves(Handed(s), x.sequence, x.message.id, x.message.code, n);
    } else if x.message.Ordered? {
      RouteNotificationLeaves(Handed(s), x.sequence, n);
    }
  }

  lemma RouteConserves(s: State, n: nat)
    requires Conserved(s, n) && s.intake.routing != []
    ensures Conserved(RouteStep(s), n)
  {
    RouteBalance(s, n);
    I.RouteStepIntake(s);
    AskedNext(s.intake.routed, s.intake.routing[0], n);
  }

  lemma AsyncConserves(s: State, n: nat, k: nat)
    requires Enabled(s, FinishRequest(n, AsyncStarted))
    ensures var s' := FinishStep(s, n, AsyncStarted);
            && InHandlers(s'.h, k) == InHandlers(s.h, k) && s'.h.doubled == s.h.doubled
            && s'.h.wire == s.h.wire && s'.d == s.d && s'.intake == s.intake
  {
  }

  lemma ReplyConserves(s: State, n: nat, o: Outcome, k: nat)
    requires Enabled(s, FinishRequest(n, o)) && !o.AsyncStarted?
    ensures var s' := FinishStep(s, n, o);
            && InHandlers(s'.h, k) + s.h.doubled[k] == InHandlers(s.h, k) + s'.h.doubled[k]
            && s'.d == s.d && s'.intake == s.intake
  {
    var h := s.h.(running := s.h.running - multiset{n});
    BodiesAtMostTwo(o);
    SendConserves(h, s.flags, n, Frame(s.intake, n).id, Bodies(o), k);
  }

  lemma FinishConserves(s: State, n: nat, o: Outcome, k: nat)
    requires Conserved(s, k) && Enabled(s, FinishRequest(n, o))
    ensures Conserved(FinishStep(s, n, o), k)
  {
    if o.AsyncStarted? {
      AsyncConserves(s, n, k);
    } else {
      ReplyConserves(s, n, o, k);
    }
  }

  lemma CompletionConserves(s: State, l: Label, k: nat)
    requires Conserved(s, k) && l.CompletionReady? && Enabled(s, l)
    ensures Conserved(Step(s, l), k)
  {
    var h := s.h.(polling := s.h.polling - multiset{l.n});
    TwiceExactlyAfterLateFailure(l.result, l.w1, l.w2);
    SendConserves(h, s.flags, l.n, Frame(s.intake, l.n).id, Emitted(l.result, l.w1, l.w2), k);
  }

  /** Steps that move a request between places of the handler side. */
  predicate MovesRequest(l: Label) {
    l.StartRequest? || l.TakeCompletion? || l.CompletionNotReady? || l.StopAsync? || l.AbandonTask?
  }

  lemma MoveLeavesTheRest(s: State, l: Label)
    requires MovesRequest(l) && Enabled(s, l)
    ensures var s' := Step(s, l);
            s'.h.wire == s.h.wire && s'.h.doubled == s.h.doubled && s'.h.dropped == s.h.dropped
            && s'.d == s.d && s'.intake == s.intake
  {
  }

  lemma PoolMoves(s: State, l: Label, k: nat)
    requires (l.StartRequest? || l.AbandonTask?) && Enabled(s, l)
    ensures var h := Step(s, l).h;
            && h.deferred == s.h.deferred && h.polling == s.h.polling
            && h.pool[k] + h.running[k] + h.lost[k] == s.h.pool[k] + s.h.running[k] + s.h.lost[k]
  {
  }

  lemma AsyncMoves(s: State, l: Label, k: nat)
    requires (l.TakeCompletion? || l.CompletionNotReady? || l.StopAsync?) && Enabled(s, l)
    ensures var h := Step(s, l).h;
            && h.pool == s.h.pool && h.running == s.h.running
            && h.deferred[k] + h.polling[k] + h.lost[k] == s.h.deferred[k] + s.h.polling[k] + s.h.lost[k]
  {
  }

  lemma MoveConserves(s: State, l: Label, k: nat)
    requires MovesRequest(l) && Enabled(s, l)
    ensures var s' := Step(s, l);
            && InHandlers(s'.h, k) == InHandlers(s.h, k) && s'.h.doubled == s.h.doubled
            && s'.d == s.d && s'.intake == s.intake
  {
    MoveLeavesTheRest(s, l);
    if l.StartRequest? || l.AbandonTask? {
      PoolMoves(s, l, k);
    } else {
      AsyncMoves(s, l, k);
    }
  }

  lemma PostReleasedConserves(s: State, k: nat)
    requires Conserved(s, k) && Enabled(s, PostReleased)
    ensures Conserved(Step(s, PostReleased), k)
  {
    if s.d.worker.batch != [] {
      ReleaseConserves(s.d, k);
      PostConserves(s.(d := s.d.(worker := Releasing(s.d.worker.batch[1..]))), s.d.worker.batch[0], k);
    }
  }

  lemma PostConserves(s: State, n: nat, k: nat)
    ensures var s' := PostRequest(s, n);
            && s'.d == s.d && s'.intake == s.intake && s'.h.doubled == s.h.doubled
            && InHandlers(s'.h, k) == InHandlers(s.h, k) + One(n, k)
  {
  }

  predicate LeavesReplies(l: Label) {
    !MovesRequest(l) && !l.Route? && !l.FinishRequest? && !l.CompletionReady?
    && !l.PublishCompletion? && !l.PostReleased? && !l.StopDispatcher?
  }

  lemma QuietStepsConserve(s: State, l: Label, k: nat)
    requires LeavesReplies(l) && Enabled(s, l)
    ensures var s' := Step(s, l);
            s'.h == s.h && s'.intake.routed == s.intake.routed && Waiting(s'.d, k) == Waiting(s.d, k)
  {
    QuietStepsLeaveHandlers(s, l);
    QuietStepsLeaveWaiting(s, l, k);
  }

  lemma QuietStepsLeaveHandlers(s: State, l: Label)
    requires LeavesReplies(l) && Enabled(s, l)
    ensures Step(s, l).h == s.h && Step(s, l).intake.routed == s.intake.routed
  {
  }

  lemma QuietStepsLeaveWaiting(s: State, l: Label, k: nat)
    requires LeavesReplies(l) && Enabled(s, l)
    ensures Waiting(Step(s, l).d, k) == Waiting(s.d, k)
  {
  }

  lemma StepConserves(s: State, l: Label, k: nat)
    requires Conserved(s, k) && Enabled(s, l) && Dispatch.Inv(s.d)
    ensures Conserved(Step(s, l), k)
  {
    if LeavesReplies(l) {
      QuietStepsConserve(s, l, k);
    } else if MovesRequest(l) {
      MoveConserves(s, l, k);
    } else if l.Route? {
      RouteConserves(s, k);
    } else if l.FinishRequest? {
      FinishConserves(s, l.n, l.outcome, k);
    } else if l.CompletionReady? {
      CompletionConserves(s, l, k);
    } else if l.PostReleased? {
      PostReleasedConserves(s, k);
    } else {
      DispatcherConserves(s, l, k);
    }
  }

  lemma DispatcherConserves(s: State, l: Label, k: nat)
    requires Conserved(s, k) && Enabled(s, l) && Dispatch.Inv(s.d) && (l.PublishCompletion? || l.StopDispatcher?)
    ensures Conserved(Step(s, l), k)
  {
    if l.PublishCompletion? {
      PublishConserves(s.d, k);
    }
  }

  // -- Ids ------------------------------------------------------------------------

  lemma SendKeepsIds(i: Intake, h: Handlers, f: Flags, n: nat, bodies: seq<Body>)
    requires IdsMatch(i, h.wire) && Assigned(i, n) && ExpectsReply(Frame(i, n))
    ensures IdsMatch(i, Send(h, f, n, Frame(i, n).id, bodies).wire)
  {
  }

  lemma RouteKeepsIds(s: State)
    requires IdsMatch(s.intake, s.h.wire) && s.intake.routing != [] && I.Contents(s.intake)
    ensures IdsMatch(RouteStep(s).intake, RouteStep(s).h.wire)
  {
    var x := s.intake.routing[0];
    assert I.Genuine(s.intake, x.sequence, x.message);
    if x.message.ErrorReply? {
      SendKeepsIds(s.intake, s.h, s.flags, x.sequence, [Rejected(x.message.code)]);
    }
    IdsCarryOver(s.intake, RouteStep(s).intake, RouteStep(s).h.wire);
  }

  lemma IdsCarryOver(i: Intake, i': Intake, wire: seq<Reply>)
    requires IdsMatch(i, wire) && i'.start == i.start && i.frames <= i'.frames
    ensures IdsMatch(i', wire)
  {
  }

  lemma FinishKeepsIds(s: State, n: nat, o: Outcome)
    requires IdsMatch(s.intake, s.h.wire) && Enabled(s, FinishRequest(n, o))
    ensures IdsMatch(s.intake, FinishStep(s, n, o).h.wire)
  {
    if !o.AsyncStarted? {
      SendKeepsIds(s.intake, s.h.(running := s.h.running - multiset{n}), s.flags, n, Bodies(o));
    }
  }

  predicate Writes(l: Label) {
    l.Route? || l.FinishRequest? || l.CompletionReady?
  }

  lemma SilentSteps(s: State, l: Label)
    requires Enabled(s, l) && !Writes(l)
    ensures Step(s, l).h.wire == s.h.wire
  {
  }

  lemma FramesOnlyGrow(s: State, l: Label)
    requires Enabled(s, l) && !Writes(l)
    ensures Step(s, l).intake.start == s.intake.start && s.intake.frames <= Step(s, l).intake.frames
  {
  }

  lemma StepKeepsIds(s: State, l: Label)
    requires IdsMatch(s.intake, s.h.wire) && Enabled(s, l) && I.Contents(s.intake)
    ensures IdsMatch(Step(s, l).intake, Step(s, l).h.wire)
  {
    if l.Route? {
      RouteKeepsIds(s);
    } else if l.FinishRequest? {
      FinishKeepsIds(s, l.n, l.outcome);
    } else if l.CompletionReady? {
      CompletionKeepsIds(s, l);
    } else {
      SilentSteps(s, l);
      FramesOnlyGrow(s, l);
      IdsCarryOver(s.intake, Step(s, l).intake, s.h.wire);
    }
  }

  lemma CompletionKeepsIds(s: State, l: Label)
    requires IdsMatch(s.intake, s.h.wire) && Enabled(s, l) && l.CompletionReady?
    ensures IdsMatch(Step(s, l).intake, Step(s, l).h.wire)
  {
    SendKeepsIds(s.intake, s.h.(polling := s.h.polling - multiset{l.n}), s.flags, l.n, Emitted(l.result, l.w1, l.w2));
  }
}
