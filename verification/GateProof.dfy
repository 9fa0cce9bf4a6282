// Ordered notifications run one at a time in arrival order, and a request is
// posted only behind all ordered notifications that arrived before it.
module GateProof {
  import opened Base
  import opened Classify
  import opened Dispatch
  import opened Pipeline

  /** The number the next routed message will carry. */
  function Frontier(s: State): nat {
    s.intake.start + |s.intake.routed|
  }

  function InHandler(d: Dispatcher): seq<nat> {
    if d.worker.Running? then [d.worker.sequence] else []
  }

  /** Every accepted notification from position |handled| on comes after r: no
      notification older than r is still to be handled. */
  ghost predicate Cleared(accepted: seq<nat>, handled: seq<nat>, r: nat) {
    forall k :: |handled| <= k < |accepted| ==> r <= accepted[k]
  }

  ghost predicate AllCleared(accepted: seq<nat>, handled: seq<nat>, rs: seq<nat>, frontier: nat) {
    forall i :: 0 <= i < |rs| ==> rs[i] < frontier && Cleared(accepted, handled, rs[i])
  }

  /** The gate of a parked request covers all older notifications. */
  ghost predicate GateCovers(accepted: seq<nat>, p: Parked) {
    forall k :: 0 <= k < |accepted| ==> accepted[k] >= p.sequence || accepted[k] <= p.gate
  }

  ghost predicate AllCovered(accepted: seq<nat>, parked: seq<Parked>, frontier: nat) {
    forall i :: 0 <= i < |parked| ==> parked[i].sequence < frontier && GateCovers(accepted, parked[i])
  }

  /** Handlers run in acceptance order: what has returned, then what is running,
      then what is queued make up the accepted notifications. */
  ghost predicate RunsInOrder(d: Dispatcher, accepted: seq<nat>, handled: seq<nat>, frontier: nat) {
    && Increasing(accepted) && Below(accepted, frontier)
    && handled + InHandler(d) <= accepted
    && (!d.stopped ==> accepted == handled + InHandler(d) + d.queue)
    && (d.worker.Returned? ==> handled != [] && handled[|handled| - 1] == d.worker.sequence)
    && (d.completed.Some? ==> d.completed.value < frontier)
  }

  ghost predicate GateInv(d: Dispatcher, accepted: seq<nat>, handled: seq<nat>, posted: seq<nat>, frontier: nat) {
    && Dispatch.Inv(d)
    && RunsInOrder(d, accepted, handled, frontier)
    && AllCovered(accepted, d.parked, frontier)
    && AllCleared(accepted, handled, posted, frontier)
    && (d.worker.Releasing? ==> AllCleared(accepted, handled, d.worker.batch, frontier))
  }

  lemma FrontierGrows(d: Dispatcher, accepted: seq<nat>, handled: seq<nat>, posted: seq<nat>, f: nat)
    requires GateInv(d, accepted, handled, posted, f)
    ensures GateInv(d, accepted, handled, posted, f + 1)
  {
  }

  lemma ActiveBelow(d: Dispatcher, accepted: seq<nat>, handled: seq<nat>, f: nat)
    requires !d.stopped && RunsInOrder(d, accepted, handled, f)
    ensures Below(Active(d), f)
  {
    if d.worker.Returned? {
      assert accepted[|handled| - 1] == d.worker.sequence;
      assert forall i :: 0 <= i < |d.queue| ==> d.queue[i] == accepted[|handled| + i];
    } else {
      assert forall i :: 0 <= i < |Active(d)| ==> Active(d)[i] == accepted[|handled| + i];
    }
  }

  lemma AcceptKeepsInv(d: Dispatcher, accepted: seq<nat>, handled: seq<nat>, posted: seq<nat>, f: nat, limit: nat)
    requires GateInv(d, accepted, handled, posted, f) && !d.stopped
    ensures var (d', ok) := EnqueueNotification(d, f, limit);
            ok ==> GateInv(d', accepted + [f], handled, posted, f + 1)
  {
    var (d', ok) := EnqueueNotification(d, f, limit);
    if ok {
      ActiveBelow(d, accepted, handled, f);
      NotificationKeepsInv(d, f, limit);
      assert accepted + [f] == handled + InHandler(d') + d'.queue;
    }
  }

  lemma ParkKeepsInv(d: Dispatcher, accepted: seq<nat>, handled: seq<nat>, posted: seq<nat>, f: nat, limit: nat)
    requires GateInv(d, accepted, handled, posted, f)
    ensures var (d', verdict) := EnqueueRequest(d, f, limit);
            verdict.Park? ==> GateInv(d', accepted, handled, posted, f + 1)
  {
    var (d', verdict) := EnqueueRequest(d, f, limit);
    if verdict.Park? {
      RequestKeepsInv(d, f, limit);
      assert GateCovers(accepted, Parked(d.last.value, f)) by {
        ParksExactlyBehindActive(d);
        LastIsNewest(d, accepted, handled, f);
      }
    }
  }

  lemma LastIsNewest(d: Dispatcher, accepted: seq<nat>, handled: seq<nat>, f: nat)
    requires Dispatch.Inv(d) && !d.stopped && RunsInOrder(d, accepted, handled, f) && Active(d) != []
    ensures accepted != [] && d.last == Some(accepted[|accepted| - 1])
  {
    if d.queue == [] {
      if d.worker.Returned? { assert accepted == handled; }
    } else {
      assert Active(d)[|Active(d)| - 1] == d.queue[|d.queue| - 1];
    }
  }

  /** A request that is posted at routing time finds every notification handled. */
  lemma PostNowKeepsInv(d: Dispatcher, accepted: seq<nat>, handled: seq<nat>, posted: seq<nat>, f: nat, limit: nat)
    requires GateInv(d, accepted, handled, posted, f) && !d.stopped
    requires EnqueueRequest(d, f, limit).1.PostNow?
    ensures GateInv(d, accepted, handled, posted + [f], f + 1)
  {
    ParksExactlyBehindActive(d);
    assert Active(d) == [];
    assert d.queue == [] && InHandler(d) == [];
    assert |accepted| == |handled|;
    assert AllCleared(accepted, handled, posted + [f], f + 1);
  }

  lemma TakeKeepsGateInv(d: Dispatcher, accepted: seq<nat>, handled: seq<nat>, posted: seq<nat>, f: nat)
    requires GateInv(d, accepted, handled, posted, f) && d.worker.Idle? && d.queue != []
    ensures GateInv(Take(d), accepted, handled, posted, f)
  {
    TakeKeepsInv(d);
    assert handled + InHandler(Take(d)) + Take(d).queue == handled + d.queue;
  }

  lemma ReturnKeepsInv(d: Dispatcher, accepted: seq<nat>, handled: seq<nat>, posted: seq<nat>, f: nat)
    requires GateInv(d, accepted, handled, posted, f) && d.worker.Running?
    ensures GateInv(d.(worker := Returned(d.worker.sequence)), accepted, handled + [d.worker.sequence], posted, f)
  {
    var d' := d.(worker := Returned(d.worker.sequence));
    assert Active(d') == Active(d);
    assert handled + [d.worker.sequence] == handled + InHandler(d);
    assert handled + [d.worker.sequence] + InHandler(d') == handled + InHandler(d);
  }

  lemma PublishKeepsInv(d: Dispatcher, accepted: seq<nat>, handled: seq<nat>, posted: seq<nat>, f: nat)
    requires GateInv(d, accepted, handled, posted, f) && d.worker.Returned?
    ensures GateInv(Complete(d), accepted, handled, posted, f)
  {
    var n := d.worker.sequence;
    var k := CompleteKeepsInv(d);
    assert accepted[|handled| - 1] == n;
    forall i | 0 <= i < k ensures Cleared(accepted, handled, d.parked[i].sequence) {
      assert GateCovers(accepted, d.parked[i]) && d.parked[i].gate <= n;
    }
    assert AllCovered(accepted, d.parked[k..], f);
  }

  lemma ReleasedKeepsInv(d: Dispatcher, accepted: seq<nat>, handled: seq<nat>, posted: seq<nat>, f: nat)
    requires GateInv(d, accepted, handled, posted, f) && d.worker.Releasing? && d.worker.batch != []
    ensures var d' := d.(worker := Releasing(d.worker.batch[1..]));
            && GateInv(d', accepted, handled, posted, f)
            && GateInv(d', accepted, handled, posted + [d.worker.batch[0]], f)
  {
    var d' := d.(worker := Releasing(d.worker.batch[1..]));
    assert Active(d') == Active(d);
  }

  lemma IdleKeepsInv(d: Dispatcher, accepted: seq<nat>, handled: seq<nat>, posted: seq<nat>, f: nat)
    requires GateInv(d, accepted, handled, posted, f) && d.worker.Releasing?
    ensures GateInv(d.(worker := Idle), accepted, handled, posted, f)
  {
    assert Active(d.(worker := Idle)) == Active(d);
  }

  lemma StopKeepsInv(d: Dispatcher, accepted: seq<nat>, handled: seq<nat>, posted: seq<nat>, f: nat)
    requires GateInv(d, accepted, handled, posted, f)
    ensures GateInv(Stop(d), accepted, handled, posted, f)
  {
  }

  // -- Steps of the whole machine -----------------------------------------------------

  ghost predicate Gated(s: State) {
    && GateInv(s.d, s.accepted, s.handled, s.posted, Frontier(s))
    && (s.d.stopped ==> s.flags.quit)
  }

  lemma NotificationKeepsGated(s: State)
    requires Gated(s) && s.intake.routing != []
    ensures Gated(RouteNotification(Handed(s), Frontier(s)))
  {
    FrontierGrows(s.d, s.accepted, s.handled, s.posted, Frontier(s));
    if !s.flags.quit && !s.d.stopped {
      AcceptKeepsInv(s.d, s.accepted, s.handled, s.posted, Frontier(s), s.limits.notifications);
    }
  }

  lemma RequestKeepsGated(s: State)
    requires Gated(s) && s.intake.routing != []
    ensures Gated(RouteRequest(Handed(s), Frontier(s)))
  {
    var verdict := EnqueueRequest(s.d, Frontier(s), s.limits.parked).1;
    if !s.flags.quit && verdict.PostNow? {
      PostedKeepsGated(s);
    } else if !s.flags.quit && verdict.Park? {
      ParkedKeepsGated(s);
    } else {
      FrontierGrows(s.d, s.accepted, s.handled, s.posted, Frontier(s));
    }
  }

  lemma PostedKeepsGated(s: State)
    requires Gated(s) && s.intake.routing != [] && !s.flags.quit
    requires EnqueueRequest(s.d, Frontier(s), s.limits.parked).1.PostNow?
    ensures Gated(RouteRequest(Handed(s), Frontier(s)))
  {
    PostNowKeepsInv(s.d, s.accepted, s.handled, s.posted, Frontier(s), s.limits.parked);
  }

  lemma ParkedKeepsGated(s: State)
    requires Gated(s) && s.intake.routing != [] && !s.flags.quit
    requires EnqueueRequest(s.d, Frontier(s), s.limits.parked).1.Park?
    ensures Gated(RouteRequest(Handed(s), Frontier(s)))
  {
    ParkKeepsInv(s.d, s.accepted, s.handled, s.posted, Frontier(s), s.limits.parked);
  }

  /** Messages other than ordered notifications and requests leave the dispatcher alone. */
  lemma OtherMessagesPass(s: State)
    requires s.intake.routing != []
    ensures var m, n := s.intake.routing[0].message, s.intake.routing[0].sequence;
            && (m.Ordered? ==> RouteStep(s) == RouteNotification(Handed(s), n))
            && (m.Request? ==> RouteStep(s) == RouteRequest(Handed(s), n))
            && (!m.Ordered? && !m.Request? ==>
                  var s' := RouteStep(s);
                  && s'.d == s.d && s'.accepted == s.accepted && s'.handled == s.handled && s'.posted == s.posted
                  && s'.flags == s.flags && s'.intake == Handed(s).intake)
  {
  }

  lemma RouteKeepsGated(s: State)
    requires Gated(s) && s.intake.routing != [] && s.intake.routing[0].sequence == Frontier(s)
    ensures Gated(RouteStep(s))
  {
    OtherMessagesPass(s);
    if s.intake.routing[0].message.Ordered? {
      NotificationKeepsGated(s);
    } else if s.intake.routing[0].message.Request? {
      RequestKeepsGated(s);
    } else {
      FrontierGrows(s.d, s.accepted, s.handled, s.posted, Frontier(s));
    }
  }

  predicate TouchesGate(l: Label) {
    l.Route? || l.TakeNotification? || l.HandlerReturns? || l.PublishCompletion? || l.PostReleased? || l.StopDispatcher?
  }

  lemma OtherStepsLeaveGate(s: State, l: Label)
    requires Enabled(s, l) && !TouchesGate(l)
    ensures var s' := Step(s, l);
            && s'.d == s.d && s'.accepted == s.accepted && s'.handled == s.handled && s'.posted == s.posted
            && Frontier(s') == Frontier(s) && (s.flags.quit ==> s'.flags.quit)
  {
    OtherStepsLeaveDispatch(s, l);
    OtherStepsLeaveFrontier(s, l);
  }

  lemma OtherStepsLeaveDispatch(s: State, l: Label)
    requires Enabled(s, l) && !TouchesGate(l)
    ensures var s' := Step(s, l);
            s'.d == s.d && s'.accepted == s.accepted && s'.handled == s.handled && s'.posted == s.posted
  {
  }

  lemma OtherStepsLeaveFrontier(s: State, l: Label)
    requires Enabled(s, l) && !TouchesGate(l)
    ensures Frontier(Step(s, l)) == Frontier(s) && (s.flags.quit ==> Step(s, l).flags.quit)
  {
    NothingIsRouted(s, l);
    if s.flags.quit { QuitStays(s, l); }
  }

  lemma NothingIsRouted(s: State, l: Label)
    requires Enabled(s, l) && !TouchesGate(l)
    ensures Step(s, l).intake.start == s.intake.start && Step(s, l).intake.routed == s.intake.routed
  {
  }

  lemma QuitStays(s: State, l: Label)
    requires Enabled(s, l) && !TouchesGate(l) && s.flags.quit
    ensures Step(s, l).flags.quit
  {
  }

  lemma StepKeepsGated(s: State, l: Label)
    requires Gated(s) && Enabled(s, l)
    requires l.Route? ==> s.intake.routing[0].sequence == Frontier(s)
    ensures Gated(Step(s, l))
  {
    if !TouchesGate(l) {
      OtherStepsLeaveGate(s, l);
    } else if l.Route? {
      RouteKeepsGated(s);
    } else if l.PostReleased? {
      PostReleasedKeepsGated(s);
    } else {
      WorkerStepKeepsGated(s, l);
    }
  }

  lemma PostReleasedKeepsGated(s: State)
    requires Gated(s) && Enabled(s, PostReleased)
    ensures Gated(Step(s, PostReleased))
  {
    if s.d.worker.batch == [] {
      IdleKeepsInv(s.d, s.accepted, s.handled, s.posted, Frontier(s));
    } else {
      ReleasedKeepsInv(s.d, s.accepted, s.handled, s.posted, Frontier(s));
    }
  }

  lemma WorkerStepKeepsGated(s: State, l: Label)
    requires Gated(s) && Enabled(s, l)
    requires l.TakeNotification? || l.HandlerReturns? || l.PublishCompletion? || l.StopDispatcher?
    ensures Gated(Step(s, l))
  {
    var f := Frontier(s);
    if l.TakeNotification? {
      TakeKeepsGateInv(s.d, s.accepted, s.handled, s.posted, f);
    } else if l.HandlerReturns? {
      ReturnKeepsInv(s.d, s.accepted, s.handled, s.posted, f);
    } else if l.PublishCompletion? {
      PublishKeepsInv(s.d, s.accepted, s.handled, s.posted, f);
    } else {
      StopKeepsInv(s.d, s.accepted, s.handled, s.posted, f);
    }
  }
}
