// Progress of one session: its own steps, however they are scheduled, come to an
// end, and they end only when nothing is left to do.
module Progress {
  import opened Base
  import opened Classify
  import opened Reorder
  import opened Pipeline
  import D = Dispatch
  import I = IntakeProof
  import R = ReplyProof
  import E = EndpointTheorems

  /** Steps the session takes by itself. The others are new frames, polls of futures
      that are not ready, failures of the output and the steps of a stop. */
  predicate Internal(l: Label) {
    l.PostParse? || l.SubmitBlank? || l.ParseStart? || l.ParseDone? || l.ReleaseSlot? || l.Route?
    || l.TakeNotification? || l.HandlerReturns? || l.PublishCompletion? || l.PostReleased?
    || l.StartRequest? || l.FinishRequest? || l.TakeCompletion? || l.CompletionReady?
  }

  // -- No livelock ------------------------------------------------------------------

  function HandWork(i: Intake): nat {
    if i.hand.None? then 0 else if i.noSlot then 9 else 12
  }

  /** What is left to do before routing: the distance of each frame from the end. */
  function IntakeWork(i: Intake): nat {
    HandWork(i) + 11 * |i.queued| + 10 * |i.parsing| + i.finishing + 8 * |i.buffer.held| + 7 * |i.routing|
  }

  function WorkerWork(w: D.Worker): nat {
    match w
    case Idle => 0
    case Running(_) => 3
    case Returned(_) => 2
    case Releasing(batch) => 1 + 5 * |batch|
  }

  function DispatchWork(d: D.Dispatcher): nat {
    4 * |d.queue| + 6 * |d.parked| + WorkerWork(d.worker)
  }

  function HandlerWork(h: Handlers): nat {
    4 * |h.pool| + 3 * |h.running| + 2 * |h.deferred| + |h.polling|
  }

  function Work(s: State): nat {
    IntakeWork(s.intake) + DispatchWork(s.d) + HandlerWork(s.h)
  }

  lemma {:induction false} DrainMoves(b: Buffer<Message>)
    ensures var (b', ready) := Drain(b); |b'.held| + |ready| == |b.held|
    decreases b.held.Keys
  {
    if b.next in b.held {
      var rest := b.held - {b.next};
      assert rest.Keys == b.held.Keys - {b.next};
      DrainMoves(Buffer(b.next + 1, rest));
    }
  }

  /** A submission leaves one more message with the buffer or on its way to routing. */
  lemma BufferMoves(b: Buffer<Message>, n: nat, m: Message, bypass: bool, lim: Limits)
    ensures var o := Submit(b, n, m, Blank, bypass, lim.reorder, lim.dropNewest);
            8 * |o.buffer.held| + 7 * |o.ready| <= 8 * |b.held| + 8
  {
    DrainMoves(I.SubmitSource(b, n, m, bypass, lim));
  }

  lemma SubmitMoves(i: Intake, n: nat, m: Message, bypass: bool, lim: Limits)
    requires i.routing == []
    ensures var i' := Submitted(i, n, m, bypass, lim).0;
            && IntakeWork(i') <= IntakeWork(i) + 8
            && i'.finishing == i.finishing && i'.queued == i.queued && i'.parsing == i.parsing && i'.hand == i.hand
  {
    BufferMoves(i.buffer, n, m, bypass, lim);
  }

  lemma IntakeStepWorks(s: State, l: Label)
    requires Enabled(s, l) && (l.PostParse? || l.SubmitBlank? || l.ParseStart? || l.ParseDone? || l.ReleaseSlot?)
    ensures var s' := Step(s, l); s'.d == s.d && s'.h == s.h && IntakeWork(s'.intake) < IntakeWork(s.intake)
  {
    if l.SubmitBlank? {
      SubmitMoves(s.intake.(hand := None, noSlot := false), s.intake.hand.value, Blank, true, s.limits);
    } else if l.ParseDone? {
      ParseDoneWorks(s, l.n);
    } else if l.ParseStart? {
      OneLess(s.intake.queued, l.n);
      OneMore(s.intake.parsing, l.n);
    } else if l.PostParse? {
      OneMore(s.intake.queued, s.intake.hand.value);
    }
  }

  lemma ParseDoneWorks(s: State, n: nat)
    requires Enabled(s, ParseDone(n))
    ensures var s' := Step(s, ParseDone(n));
            s'.d == s.d && s'.h == s.h && IntakeWork(s'.intake) < IntakeWork(s.intake)
  {
    I.ParseDoneIs(s, n);
    AfterParseWorks(s.intake, n, s.flags.quit, s.limits);
    ParseDoneIsIntake(s, n);
  }

  lemma ParseDoneIsIntake(s: State, n: nat)
    requires Enabled(s, ParseDone(n))
    ensures Step(s, ParseDone(n)).d == s.d && Step(s, ParseDone(n)).h == s.h
  {
  }

  lemma AfterParseWorks(i: Intake, n: nat, quit: bool, lim: Limits)
    requires n in i.parsing && i.routing == [] && Assigned(i, n)
    ensures IntakeWork(I.AfterParse(i, n, quit, lim).0) < IntakeWork(i)
  {
    var i' := i.(parsing := i.parsing - multiset{n}, finishing := i.finishing + 1);
    OneLess(i.parsing, n);
    SubmitMoves(i', n, Frame(i, n), false, lim);
  }

  lemma RouteWorks(s: State)
    requires Enabled(s, Route)
    ensures Work(RouteStep(s)) < Work(s)
  {
    var t, x := Handed(s), s.intake.routing[0];
    assert Work(t) == Work(s) - 7;
    match x.message
    case Request(_) => RequestMoves(t, x.sequence);
    case ErrorReply(id, code) => ErrorMoves(t, x.sequence, id, code);
    case Ordered => NotificationMoves(t, x.sequence);
    case _ =>
  }

  lemma PostMoves(s: State, n: nat)
    ensures var s' := PostRequest(s, n);
            s'.intake == s.intake && s'.d == s.d && HandlerWork(s'.h) <= HandlerWork(s.h) + 4
  {
    assert |s.h.pool + multiset{n}| == |s.h.pool| + 1;
  }

  lemma RequestMoves(s: State, n: nat)
    ensures Work(RouteRequest(s, n)) <= Work(s) + 6
  {
    PostMoves(s, n);
  }

  lemma ErrorMoves(s: State, n: nat, id: Id, code: Code)
    ensures Work(RouteError(s, n, id, code)) == Work(s)
  {
  }

  lemma NotificationMoves(s: State, n: nat)
    ensures Work(RouteNotification(s, n)) <= Work(s) + 4
  {
  }

  lemma {:induction false} ReleaseMoves(parked: seq<D.Parked>, completed: nat)
    ensures |D.Ready(parked, completed)| + |D.StillParked(parked, completed)| == |parked|
  {
    if parked != [] {
      ReleaseMoves(parked[1..], completed);
    }
  }

  lemma WorkerStepWorks(s: State, l: Label)
    requires Enabled(s, l) && (l.TakeNotification? || l.HandlerReturns? || l.PublishCompletion?)
    ensures var s' := Step(s, l);
            s'.intake == s.intake && s'.h == s.h && DispatchWork(s'.d) < DispatchWork(s.d)
  {
    if l.PublishCompletion? {
      ReleaseMoves(s.d.parked, s.d.worker.sequence);
    }
  }

  lemma PostReleasedWorks(s: State)
    requires Enabled(s, PostReleased)
    ensures Work(Step(s, PostReleased)) < Work(s)
  {
    var batch := s.d.worker.batch;
    if batch != [] {
      var t := s.(d := s.d.(worker := D.Releasing(batch[1..])));
      assert DispatchWork(t.d) == DispatchWork(s.d) - 5;
      PostMoves(t, batch[0]);
    }
  }

  lemma StartWorks(h: Handlers, n: nat)
    requires n in h.pool
    ensures HandlerWork(h.(pool := h.pool - multiset{n})) == HandlerWork(h) - 4
    ensures HandlerWork(h.(pool := h.pool - multiset{n}, running := h.running + multiset{n})) == HandlerWork(h) - 1
  {
    assert |h.pool - multiset{n}| == |h.pool| - 1;
    assert |h.running + multiset{n}| == |h.running| + 1;
  }

  lemma FinishWorks(h: Handlers, n: nat)
    requires n in h.running
    ensures HandlerWork(h.(running := h.running - multiset{n})) == HandlerWork(h) - 3
    ensures HandlerWork(h.(running := h.running - multiset{n}, deferred := h.deferred + multiset{n})) == HandlerWork(h) - 1
  {
    assert |h.running - multiset{n}| == |h.running| - 1;
    assert |h.deferred + multiset{n}| == |h.deferred| + 1;
  }

  lemma TakeWorks(h: Handlers, n: nat)
    requires n in h.deferred
    ensures HandlerWork(h.(deferred := h.deferred - multiset{n}, polling := h.polling + multiset{n})) == HandlerWork(h) - 1
  {
    assert |h.deferred - multiset{n}| == |h.deferred| - 1;
    assert |h.polling + multiset{n}| == |h.polling| + 1;
  }

  lemma ReadyWorks(h: Handlers, n: nat)
    requires n in h.polling
    ensures HandlerWork(h.(polling := h.polling - multiset{n})) == HandlerWork(h) - 1
  {
    assert |h.polling - multiset{n}| == |h.polling| - 1;
  }

  /** Sending and losing replies is no further work. */
  lemma SendIsNoWork(h: Handlers, f: Flags, n: nat, id: Id, bodies: seq<Body>, lost: multiset<nat>)
    ensures HandlerWork(Send(h, f, n, id, bodies)) == HandlerWork(h) == HandlerWork(h.(lost := lost))
  {
  }

  lemma StartStepWorks(s: State, n: nat)
    requires Enabled(s, StartRequest(n))
    ensures Work(Step(s, StartRequest(n))) < Work(s)
  {
    StartWorks(s.h, n);
  }

  lemma FinishStepWorks(s: State, n: nat, o: Pipeline.Outcome)
    requires Enabled(s, FinishRequest(n, o))
    ensures Work(FinishStep(s, n, o)) < Work(s)
  {
    FinishWorks(s.h, n);
    if !o.AsyncStarted? {
      var h := s.h.(running := s.h.running - multiset{n});
      SendIsNoWork(h, s.flags, n, Frame(s.intake, n).id, Bodies(o), h.lost);
    }
  }

  lemma CompletionStepWorks(s: State, l: Label)
    requires Enabled(s, l) && (l.TakeCompletion? || l.CompletionReady?)
    ensures Work(Step(s, l)) < Work(s)
  {
    if l.TakeCompletion? {
      TakeWorks(s.h, l.n);
    } else {
      ReadyWorks(s.h, l.n);
      var h := s.h.(polling := s.h.polling - multiset{l.n});
      SendIsNoWork(h, s.flags, l.n, Frame(s.intake, l.n).id, Emitted(l.result, l.w1, l.w2), h.lost);
    }
  }

  /** Every step of the session's own brings it nearer to rest. */
  lemma InternalStepWorks(s: State, l: Label)
    requires Internal(l) && Enabled(s, l)
    ensures Work(Step(s, l)) < Work(s)
  {
    if l.PostParse? || l.SubmitBlank? || l.ParseStart? || l.ParseDone? || l.ReleaseSlot? {
      IntakeStepWorks(s, l);
    } else if l.Route? {
      RouteWorks(s);
    } else if l.PostReleased? {
      PostReleasedWorks(s);
    } else if l.TakeNotification? || l.HandlerReturns? || l.PublishCompletion? {
      WorkerStepWorks(s, l);
    } else if l.StartRequest? {
      StartStepWorks(s, l.n);
    } else if l.FinishRequest? {
      FinishStepWorks(s, l.n, l.outcome);
    } else {
      CompletionStepWorks(s, l);
    }
  }

  /** Each step of the schedule is internal and enabled when its turn comes. */
  ghost predicate Schedule(s: State, labels: seq<Label>)
    decreases |labels|
  {
    labels != [] ==>
      var front, l := labels[..|labels| - 1], labels[|labels| - 1];
      Schedule(s, front) && Internal(l) && Enabled(Exec(s, front), l)
  }

  /** However the session's own steps are interleaved, there are no more of them than
      there was work to do. */
  lemma {:induction false} EveryScheduleEnds(s: State, labels: seq<Label>)
    requires Schedule(s, labels)
    ensures |labels| + Work(Exec(s, labels)) <= Work(s)
    decreases |labels|
  {
    if labels != [] {
      var front, l := labels[..|labels| - 1], labels[|labels| - 1];
      EveryScheduleEnds(s, front);
      InternalStepWorks(Exec(s, front), l);
    }
  }

  // -- No deadlock ------------------------------------------------------------------

  ghost predicate Stuck(s: State) {
    forall l :: Internal(l) ==> !Enabled(s, l)
  }

  /** Nothing is on its way and every parse task has returned its slot. */
  predicate AtRest(s: State) {
    E.Quiescent(s) && s.intake.finishing == 0
  }

  /** Nothing is on its way but tasks that no worker has taken. */
  predicate OnlyTasksLeft(s: State) {
    && s.intake.hand.None? && s.intake.parsing == multiset{} && s.intake.routing == [] && s.intake.finishing == 0
    && s.d.worker.Idle? && s.d.queue == []
    && s.h.running == s.h.deferred == s.h.polling == multiset{}
  }

  /** What the session's own steps end in: rest, or tasks that stopped pools will never
      run. */
  predicate Settled(s: State) {
    OnlyTasksLeft(s) && (s.flags.poolsStopped || (s.intake.queued == multiset{} && s.h.pool == multiset{}))
  }

  /** What every run keeps, as far as progress needs it. */
  ghost predicate Sound(s: State) {
    E.Inv(s) && forall n: nat :: R.Answers(s.h.wire, n) >= 2 * s.h.doubled[n]
  }

  lemma EveryRunIsSound(limits: Limits, start: nat, leaked: nat, labels: seq<Label>)
    requires E.Startable(limits, leaked)
    ensures Sound(Exec(Initial(limits, start, leaked), labels))
  {
    var s0 := Initial(limits, start, leaked);
    E.EveryRunKeepsInv(limits, start, leaked, labels);
    forall n: nat ensures R.Answers(Exec(s0, labels).h.wire, n) >= 2 * Exec(s0, labels).h.doubled[n] {
      E.DoubledMeansTwo(s0, labels, n);
    }
  }

  /** What is with a handler is a request that expects a reply. */
  lemma HandledIsRequest(s: State, n: nat)
    requires Sound(s) && (n in s.h.running || n in s.h.polling)
    ensures Assigned(s.intake, n) && ExpectsReply(Frame(s.intake, n))
  {
    assert R.Conserved(s, n) && R.Answers(s.h.wire, n) >= 2 * s.h.doubled[n];
    E.OnePlaceEach(s, n);
    assert E.RoutedRequest(s.intake, n);
    RoutedRequestIsFrame(s.intake, n);
  }

  lemma RoutedRequestIsFrame(i: Intake, n: nat)
    requires I.InOrder(i) && I.Contents(i) && E.RoutedRequest(i, n)
    ensures Assigned(i, n) && ExpectsReply(Frame(i, n))
  {
    E.RoutedPrefix(i);
    var x := i.routed[n - i.start];
    assert x.sequence == I.Numbers(i.routed)[n - i.start] == n;
    assert I.Genuine(i, x.sequence, x.message);
  }

  lemma IntakeNextStep(s: State) returns (l: Label)
    requires Sound(s)
    requires s.intake.routing != [] || s.intake.hand.Some? || s.intake.parsing != multiset{} || s.intake.finishing > 0
    ensures Internal(l) && Enabled(s, l) && E.CleanLabel(l)
  {
    var i := s.intake;
    if i.routing != [] {
      l := Route;
    } else if i.hand.Some? {
      l := if i.noSlot then SubmitBlank else PostParse;
    } else if i.parsing != multiset{} {
      var n :| n in i.parsing;
      assert I.Places(i, n) >= 1;
      l := ParseDone(n);
    } else {
      l := ReleaseSlot;
    }
  }

  lemma HandlerNextStep(s: State) returns (l: Label)
    requires Sound(s) && (s.h.running != multiset{} || s.h.deferred != multiset{} || s.h.polling != multiset{})
    ensures Internal(l) && Enabled(s, l) && E.CleanLabel(l)
  {
    if s.h.running != multiset{} {
      var n :| n in s.h.running;
      HandledIsRequest(s, n);
      l := FinishRequest(n, NoHandler(Written));
    } else if s.h.deferred != multiset{} {
      var n :| n in s.h.deferred;
      l := TakeCompletion(n);
    } else {
      var n :| n in s.h.polling;
      HandledIsRequest(s, n);
      l := CompletionReady(n, Value, Written, Written);
    }
  }

  lemma PoolNextStep(s: State) returns (l: Label)
    requires !s.flags.poolsStopped && (s.intake.queued != multiset{} || s.h.pool != multiset{})
    ensures Internal(l) && Enabled(s, l) && E.CleanLabel(l)
  {
    if s.intake.queued != multiset{} {
      var n :| n in s.intake.queued;
      l := ParseStart(n);
    } else {
      var n :| n in s.h.pool;
      l := StartRequest(n);
    }
  }

  /** Before it has settled, some step of the session's own is enabled. */
  lemma NextStep(s: State) returns (l: Label)
    requires Sound(s) && !Settled(s)
    ensures Internal(l) && Enabled(s, l) && E.CleanLabel(l)
  {
    var i := s.intake;
    if i.routing != [] || i.hand.Some? || i.parsing != multiset{} || i.finishing > 0 {
      l := IntakeNextStep(s);
    } else if !s.d.worker.Idle? || s.d.queue != [] {
      match s.d.worker
      case Idle => l := TakeNotification;
      case Running(_) => l := HandlerReturns;
      case Returned(_) => l := PublishCompletion;
      case Releasing(_) => l := PostReleased;
    } else if s.h.running != multiset{} || s.h.deferred != multiset{} || s.h.polling != multiset{} {
      l := HandlerNextStep(s);
    } else {
      l := PoolNextStep(s);
    }
  }

  lemma SettledDisables(s: State, l: Label)
    requires Settled(s) && Internal(l)
    ensures !Enabled(s, l)
  {
  }

  /** In every reachable state, also while stopping, the session's own steps come to a
      halt exactly when nothing is left to do, or nothing but tasks that a stopped pool
      will never run. */
  lemma StuckExactlyWhenSettled(limits: Limits, start: nat, leaked: nat, labels: seq<Label>)
    requires E.Startable(limits, leaked)
    ensures var s := Exec(Initial(limits, start, leaked), labels); Stuck(s) <==> Settled(s)
  {
    var s := Exec(Initial(limits, start, leaked), labels);
    EveryRunIsSound(limits, start, leaked, labels);
    if Settled(s) {
      forall l | Internal(l) ensures !Enabled(s, l) { SettledDisables(s, l); }
    } else {
      var l := NextStep(s);
    }
  }

  /** Until the pools are stopped, a halt is rest. */
  lemma StuckExactlyAtRest(limits: Limits, start: nat, leaked: nat, labels: seq<Label>)
    requires E.Startable(limits, leaked) && !Exec(Initial(limits, start, leaked), labels).flags.poolsStopped
    ensures var s := Exec(Initial(limits, start, leaked), labels); Stuck(s) <==> AtRest(s)
  {
    StuckExactlyWhenSettled(limits, start, leaked, labels);
  }

  /** Neither a stop nor a failure of the output. */
  predicate Calm(l: Label) {
    !l.Quit? && !l.OutputFails? && E.CleanLabel(l)
  }

  ghost predicate AllCalm(labels: seq<Label>) {
    forall i :: 0 <= i < |labels| ==> Calm(labels[i])
  }

  /** From every reachable state the session can settle by itself, with every write
      succeeding, and any schedule begun that way can be completed. */
  lemma {:induction false} CanSettle(
    limits: Limits, start: nat, leaked: nat, labels: seq<Label>, begun: seq<Label>) returns (schedule: seq<Label>)
    requires E.Startable(limits, leaked)
    requires Schedule(Exec(Initial(limits, start, leaked), labels), begun) && AllCalm(begun)
    ensures begun <= schedule && AllCalm(schedule)
    ensures var s := Exec(Initial(limits, start, leaked), labels);
            Schedule(s, schedule) && Settled(Exec(s, schedule))
    decreases Work(Exec(Exec(Initial(limits, start, leaked), labels), begun))
  {
    if Settled(Exec(Exec(Initial(limits, start, leaked), labels), begun)) {
      schedule := begun;
    } else {
      var l := CanGoOn(limits, start, leaked, labels, begun);
      schedule := CanSettle(limits, start, leaked, labels, begun + [l]);
    }
  }

  lemma CanGoOn(limits: Limits, start: nat, leaked: nat, labels: seq<Label>, begun: seq<Label>) returns (l: Label)
    requires E.Startable(limits, leaked)
    requires Schedule(Exec(Initial(limits, start, leaked), labels), begun)
    requires !Settled(Exec(Exec(Initial(limits, start, leaked), labels), begun))
    ensures var s := Exec(Initial(limits, start, leaked), labels);
            Calm(l) && Schedule(s, begun + [l]) && Work(Exec(s, begun + [l])) < Work(Exec(s, begun))
  {
    var s0 := Initial(limits, start, leaked);
    var now := Exec(Exec(s0, labels), begun);
    ExecAppend(s0, labels, begun);
    EveryRunIsSound(limits, start, leaked, labels + begun);
    l := NextStep(now);
    ScheduleSnoc(Exec(s0, labels), begun, l);
    InternalStepWorks(now, l);
  }

  /** The session's own steps never stop the pools. */
  lemma {:induction false} ScheduleLeavesPools(s: State, labels: seq<Label>)
    requires Schedule(s, labels)
    ensures Exec(s, labels).flags.poolsStopped == s.flags.poolsStopped
    decreases |labels|
  {
    if labels != [] {
      var front, l := labels[..|labels| - 1], labels[|labels| - 1];
      ScheduleLeavesPools(s, front);
      PoolsOnlyByStop(Exec(s, front), l);
    }
  }

  lemma PoolsOnlyByStop(s: State, l: Label)
    requires Enabled(s, l)
    ensures Step(s, l).flags.poolsStopped == (s.flags.poolsStopped || l.StopPools?)
  {
    if l.Route? {
      RouteLeavesPools(s);
    } else if l.ParseDone? {
      ParseLeavesPools(s, l.n);
    } else {
      OthersLeavePools(s, l);
    }
  }

  lemma RouteLeavesPools(s: State)
    requires Enabled(s, Route)
    ensures RouteStep(s).flags.poolsStopped == s.flags.poolsStopped
  {
  }

  lemma ParseLeavesPools(s: State, n: nat)
    requires Enabled(s, ParseDone(n))
    ensures Step(s, ParseDone(n)).flags.poolsStopped == s.flags.poolsStopped
  {
  }

  lemma OthersLeavePools(s: State, l: Label)
    requires Enabled(s, l) && !l.Route? && !l.ParseDone?
    ensures Step(s, l).flags.poolsStopped == (s.flags.poolsStopped || l.StopPools?)
  {
    if SetsFlag(l) {
      FlagSet(s, l);
    } else {
      FlagsKept(s, l);
    }
  }

  predicate SetsFlag(l: Label) {
    l.PostParse? || l.OutputFails? || l.Quit? || l.Deactivate? || l.ResetOutput? || l.StopAsync? || l.StopPools?
  }

  lemma FlagSet(s: State, l: Label)
    requires Enabled(s, l) && SetsFlag(l)
    ensures Step(s, l).flags.poolsStopped == (s.flags.poolsStopped || l.StopPools?)
  {
    if l.PostParse? {
      assert PostParseStep(s, s.intake.hand.value).flags.poolsStopped == s.flags.poolsStopped;
    }
  }

  lemma FlagsKept(s: State, l: Label)
    requires Enabled(s, l) && !SetsFlag(l) && !l.Route? && !l.ParseDone?
    ensures Step(s, l).flags == s.flags
  {
  }

  /** Before the pools are stopped the session can come to rest by itself. */
  lemma CanComeToRest(
    limits: Limits, start: nat, leaked: nat, labels: seq<Label>, begun: seq<Label>) returns (schedule: seq<Label>)
    requires E.Startable(limits, leaked) && !Exec(Initial(limits, start, leaked), labels).flags.poolsStopped
    requires Schedule(Exec(Initial(limits, start, leaked), labels), begun) && AllCalm(begun)
    ensures begun <= schedule && AllCalm(schedule)
    ensures var s := Exec(Initial(limits, start, leaked), labels);
            Schedule(s, schedule) && AtRest(Exec(s, schedule))
  {
    schedule := CanSettle(limits, start, leaked, labels, begun);
    ScheduleLeavesPools(Exec(Initial(limits, start, leaked), labels), schedule);
  }

  lemma ScheduleSnoc(s: State, labels: seq<Label>, l: Label)
    requires Schedule(s, labels) && Internal(l) && Enabled(Exec(s, labels), l)
    ensures Schedule(s, labels + [l]) && Exec(s, labels + [l]) == Step(Exec(s, labels), l)
  {
    assert (labels + [l])[..|labels|] == labels;
    ExecSnoc(s, labels, l);
  }

  // -- Every request is answered -------------------------------------------------------

  predicate Unlimited(limits: Limits) {
    limits.parse == limits.reorder == limits.notifications == limits.parked == 0
  }

  lemma LimitsStay(s: State, l: Label)
    requires Enabled(s, l)
    ensures Step(s, l).limits == s.limits
  {
  }

  lemma IntakeStaysHealthy(s: State, l: Label)
    requires Enabled(s, l) && I.TouchesIntake(l) && !l.Route? && Calm(l) && E.Healthy(s.flags)
    requires s.limits.dropNewest || Unlimited(s.limits)
    ensures E.Healthy(Step(s, l).flags)
  {
  }

  lemma RouteStaysHealthy(s: State)
    requires Enabled(s, Route) && E.Healthy(s.flags) && (s.limits.dropNewest || Unlimited(s.limits))
    ensures E.Healthy(RouteStep(s).flags)
  {
  }

  lemma OthersStayHealthy(s: State, l: Label)
    requires Enabled(s, l) && !I.TouchesIntake(l) && Calm(l) && E.Healthy(s.flags)
    ensures E.Healthy(Step(s, l).flags)
  {
  }

  /** Overloads do not end a session under DropNewest, or where there is no limit. */
  lemma {:induction false} RunStaysHealthy(s: State, labels: seq<Label>)
    requires s.limits.dropNewest || Unlimited(s.limits)
    requires E.Healthy(s.flags) && AllCalm(labels)
    ensures E.Healthy(Exec(s, labels).flags) && Exec(s, labels).limits == s.limits
    ensures Exec(s, labels).flags.poolsStopped == s.flags.poolsStopped
    decreases |labels|
  {
    if labels != [] {
      var front, l := labels[..|labels| - 1], labels[|labels| - 1];
      RunStaysHealthy(s, front);
      var before := Exec(s, front);
      if Enabled(before, l) {
        LimitsStay(before, l);
        PoolsOnlyByStop(before, l);
        if l.Route? {
          RouteStaysHealthy(before);
        } else if I.TouchesIntake(l) {
          IntakeStaysHealthy(before, l);
        } else {
          OthersStayHealthy(before, l);
        }
      }
    }
  }

  /** Under DropNewest, as long as nobody stops the session or breaks its output, any
      schedule of its own steps that goes on as long as it can ends, after at most as
      many steps as there was work, with every request that ever arrived answered
      exactly once, except for exactly those that an overload discarded. */
  lemma EveryRequestIsAnswered(limits: Limits, start: nat, leaked: nat, labels: seq<Label>, schedule: seq<Label>, n: nat)
    requires E.Startable(limits, leaked) && (limits.dropNewest || Unlimited(limits))
    requires AllCalm(labels) && AllCalm(schedule)
    requires Schedule(Exec(Initial(limits, start, leaked), labels), schedule)
    requires Stuck(Exec(Exec(Initial(limits, start, leaked), labels), schedule))
    ensures |schedule| <= Work(Exec(Initial(limits, start, leaked), labels))
    ensures var s := Exec(Exec(Initial(limits, start, leaked), labels), schedule);
            R.Answers(s.h.wire, n) == Bit(E.MustBeAnswered(s, n))
  {
    EveryScheduleEnds(Exec(Initial(limits, start, leaked), labels), schedule);
    ExecAppend(Initial(limits, start, leaked), labels, schedule);
    StuckRunIsAnswered(limits, start, leaked, labels + schedule, n);
  }

  lemma StuckRunIsAnswered(limits: Limits, start: nat, leaked: nat, labels: seq<Label>, n: nat)
    requires E.Startable(limits, leaked) && (limits.dropNewest || Unlimited(limits)) && AllCalm(labels)
    requires Stuck(Exec(Initial(limits, start, leaked), labels))
    ensures var s := Exec(Initial(limits, start, leaked), labels);
            R.Answers(s.h.wire, n) == Bit(E.MustBeAnswered(s, n))
  {
    RunStaysHealthy(Initial(limits, start, leaked), labels);
    StuckExactlyAtRest(limits, start, leaked, labels);
    E.ExactlyOneReply(limits, start, leaked, labels, n);
  }

  lemma StepDiscardsNothing(s: State, l: Label)
    requires Enabled(s, l) && Unlimited(s.limits) && !l.Route?
    ensures Step(s, l).intake.blanked == s.intake.blanked && Step(s, l).h.dropped == s.h.dropped
  {
    StepBlanksNothing(s, l);
    StepDropsNothing(s, l);
  }

  lemma StepBlanksNothing(s: State, l: Label)
    requires Enabled(s, l) && Unlimited(s.limits) && !l.Route?
    ensures Step(s, l).intake.blanked == s.intake.blanked
  {
  }

  lemma StepDropsNothing(s: State, l: Label)
    requires Enabled(s, l) && !l.Route?
    ensures Step(s, l).h.dropped == s.h.dropped
  {
  }

  lemma RouteDiscardsNothing(s: State)
    requires Enabled(s, Route) && Unlimited(s.limits)
    ensures RouteStep(s).intake.blanked == s.intake.blanked && RouteStep(s).h.dropped == s.h.dropped
  {
  }

  /** Without limits no run discards anything. */
  lemma {:induction false} NothingDiscardedWithoutLimits(s: State, labels: seq<Label>)
    requires Unlimited(s.limits)
    ensures var s' := Exec(s, labels);
            s'.limits == s.limits && s'.intake.blanked == s.intake.blanked && s'.h.dropped == s.h.dropped
    decreases |labels|
  {
    if labels != [] {
      NothingDiscardedWithoutLimits(s, labels[..|labels| - 1]);
      var before, l := Exec(s, labels[..|labels| - 1]), labels[|labels| - 1];
      if Enabled(before, l) {
        LimitsStay(before, l);
        if l.Route? {
          RouteDiscardsNothing(before);
        } else {
          StepDiscardsNothing(before, l);
        }
      }
    }
  }
}
