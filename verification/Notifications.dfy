// What becomes of ordered notifications: which are accepted, and that all of them are
// handled.
module Notifications {
  import opened Base
  import opened Classify
  import opened Pipeline
  import D = Dispatch
  import I = IntakeProof
  import G = GateProof
  import O = OverloadProof
  import E = EndpointTheorems

  /** The step hands an ordered notification to the dispatcher. */
  predicate Offers(s: State, l: Label) {
    l.Route? && s.intake.routing != [] && s.intake.routing[0].message.Ordered?
  }

  /** Why a notification that is routed now would be turned away. */
  predicate TurnsAway(s: State) {
    s.flags.quit || s.d.stopped || (s.limits.notifications != 0 && |s.d.queue| >= s.limits.notifications)
  }

  function Offered(s: State): nat
    requires s.intake.routing != []
  {
    s.intake.routing[0].sequence
  }

  lemma RouteAccepts(s: State)
    requires Enabled(s, Route)
    ensures RouteStep(s).accepted
            == if Offers(s, Route) && !TurnsAway(s) then s.accepted + [Offered(s)] else s.accepted
  {
  }

  lemma OthersAcceptNothing(s: State, l: Label)
    requires Enabled(s, l) && !l.Route?
    ensures Step(s, l).accepted == s.accepted
  {
    if !G.TouchesGate(l) {
      G.OtherStepsLeaveDispatch(s, l);
    } else {
      WorkerAcceptsNothing(s, l);
    }
  }

  lemma WorkerAcceptsNothing(s: State, l: Label)
    requires Enabled(s, l) && G.TouchesGate(l) && !l.Route?
    ensures Step(s, l).accepted == s.accepted
  {
  }

  /** Number n is offered and turned away. */
  function TurningAway(n: nat): (State, Label) -> bool {
    (s: State, l: Label) => Offers(s, l) && Offered(s) == n && TurnsAway(s)
  }

  /** Message n has been routed as an ordered notification. */
  predicate RoutedOrdered(i: Intake, n: nat) {
    i.start <= n < i.start + |i.routed| && i.routed[n - i.start].message.Ordered?
  }

  /** A routed ordered notification was accepted or turned away, and nothing else was. */
  ghost predicate Decided(s: State, n: nat, turned: bool) {
    && (RoutedOrdered(s.intake, n) <==> n in s.accepted || turned)
    && !(n in s.accepted && turned)
  }

  lemma RoutingDecides(s: State, n: nat, turned: bool)
    requires I.InOrder(s.intake) && Enabled(s, Route) && Decided(s, n, turned)
    ensures Decided(RouteStep(s), n, turned || TurningAway(n)(s, Route))
  {
    E.NextToRoute(s.intake);
    I.RouteStepIntake(s);
    RouteAccepts(s);
  }

  lemma OthersDecideNothing(s: State, l: Label, n: nat, turned: bool)
    requires Enabled(s, l) && !l.Route? && Decided(s, n, turned)
    ensures Decided(Step(s, l), n, turned)
  {
    OthersAcceptNothing(s, l);
    if G.TouchesGate(l) {
      WorkerRoutesNothing(s, l);
    } else {
      G.NothingIsRouted(s, l);
    }
  }

  lemma WorkerRoutesNothing(s: State, l: Label)
    requires Enabled(s, l) && G.TouchesGate(l) && !l.Route?
    ensures Step(s, l).intake == s.intake
  {
  }

  lemma {:induction false} RunDecides(limits: Limits, start: nat, leaked: nat, labels: seq<Label>, n: nat)
    requires E.Startable(limits, leaked)
    ensures var s0 := Initial(limits, start, leaked);
            Decided(Exec(s0, labels), n, Happens(s0, labels, TurningAway(n)))
    decreases |labels|
  {
    if labels != [] {
      var s0, front, l := Initial(limits, start, leaked), labels[..|labels| - 1], labels[|labels| - 1];
      assert labels == front + [l];
      RunDecides(limits, start, leaked, front, n);
      HappensSnoc(s0, front, l, TurningAway(n));
      var before := Exec(s0, front);
      if Enabled(before, l) {
        if l.Route? {
          E.EveryRunKeepsInv(limits, start, leaked, front);
          RoutingDecides(before, n, Happens(s0, front, TurningAway(n)));
        } else {
          OthersDecideNothing(before, l, n, Happens(s0, front, TurningAway(n)));
        }
      }
    }
  }

  /** In every run: an ordered notification that has been routed is accepted if and only
      if it was not routed while quitting, while the dispatcher was stopped, or while the
      queue held as many as its nonzero limit; and nothing else is accepted. */
  lemma AcceptedExactlyWhen(limits: Limits, start: nat, leaked: nat, labels: seq<Label>, n: nat)
    requires E.Startable(limits, leaked)
    ensures var s0 := Initial(limits, start, leaked);
            n in Exec(s0, labels).accepted
            <==> RoutedOrdered(Exec(s0, labels).intake, n) && !Happens(s0, labels, TurningAway(n))
  {
    RunDecides(limits, start, leaked, labels, n);
  }

  // -- All of them are handled ------------------------------------------------------------

  /** The numbers of the ordered notifications among the first k frames that no overload
      discarded. */
  function OrderedFrames(i: Intake, k: nat): seq<nat>
    requires k <= |i.frames|
  {
    if k == 0 then []
    else OrderedFrames(i, k - 1)
         + if i.frames[k - 1].Ordered? && i.start + k - 1 !in i.blanked then [i.start + k - 1] else []
  }

  function OrderedOf(items: seq<Item>): seq<nat> {
    if items == [] then []
    else
      var x := items[|items| - 1];
      OrderedOf(items[..|items| - 1]) + if x.message.Ordered? then [x.sequence] else []
  }

  lemma RouteExtends(s: State)
    requires Enabled(s, Route) && s.accepted == OrderedOf(s.intake.routed) && !TurnsAway(s)
    ensures RouteStep(s).accepted == OrderedOf(RouteStep(s).intake.routed)
  {
    RouteAccepts(s);
    I.RouteStepIntake(s);
    var x := s.intake.routing[0];
    assert (s.intake.routed + [x])[..|s.intake.routed|] == s.intake.routed;
  }

  /** Without a limit, a run that is still healthy has accepted every ordered notification
      routed so far. */
  lemma {:induction false} HealthyRunAcceptsAll(limits: Limits, start: nat, leaked: nat, labels: seq<Label>)
    requires E.Startable(limits, leaked) && limits.notifications == 0
    ensures var s := Exec(Initial(limits, start, leaked), labels);
            E.Healthy(s.flags) ==> s.accepted == OrderedOf(s.intake.routed)
    decreases |labels|
  {
    if labels != [] {
      var front, l := labels[..|labels| - 1], labels[|labels| - 1];
      var before := Exec(Initial(limits, start, leaked), front);
      HealthyRunAcceptsAll(limits, start, leaked, front);
      if Enabled(before, l) && E.Healthy(Step(before, l).flags) {
        E.HealthNeverReturns(before, l);
        if l.Route? {
          RunIsGated(limits, start, leaked, front);
          RouteExtends(before);
        } else {
          OthersKeepRouted(before, l);
        }
      }
    }
  }

  lemma RunIsGated(limits: Limits, start: nat, leaked: nat, labels: seq<Label>)
    requires E.Startable(limits, leaked)
    ensures var s := Exec(Initial(limits, start, leaked), labels);
            (s.d.stopped ==> s.flags.quit) && s.limits == limits
  {
    E.EveryRunKeepsInv(limits, start, leaked, labels);
  }

  lemma OthersKeepRouted(s: State, l: Label)
    requires Enabled(s, l) && !l.Route?
    ensures Step(s, l).accepted == s.accepted && Step(s, l).intake.routed == s.intake.routed
  {
    OthersAcceptNothing(s, l);
    if G.TouchesGate(l) {
      WorkerRoutesNothing(s, l);
    } else {
      G.NothingIsRouted(s, l);
    }
  }

  lemma RoutedIsFrame(i: Intake, k: nat)
    requires I.InOrder(i) && I.Contents(i) && O.BlanksStay(i) && k < |i.routed|
    ensures i.routed[k].sequence == i.start + k && k < |i.frames|
    ensures i.routed[k].message == if i.start + k in i.blanked then Blank else i.frames[k]
  {
    E.RoutedPrefix(i);
    assert i.routed[k].sequence == I.Numbers(i.routed)[k] == i.start + k;
    assert I.Genuine(i, i.routed[k].sequence, i.routed[k].message);
    assert O.BlankStays(i, i.start + k);
  }

  lemma {:induction false} OrderedOfRouted(i: Intake, k: nat)
    requires I.InOrder(i) && I.Contents(i) && O.BlanksStay(i) && k <= |i.routed| && k <= |i.frames|
    ensures OrderedOf(i.routed[..k]) == OrderedFrames(i, k)
    decreases k
  {
    if k > 0 {
      OrderedOfRouted(i, k - 1);
      assert i.routed[..k][..k - 1] == i.routed[..k - 1];
      RoutedIsFrame(i, k - 1);
    }
  }

  lemma HandledAtRest(s: State)
    requires E.Inv(s) && E.Quiescent(s) && E.Healthy(s.flags)
    ensures s.handled == s.accepted
  {
    assert s.handled + G.InHandler(s.d) + s.d.queue == s.handled;
  }

  /** Once a session without a limit on notifications is quiescent and nothing has stopped
      it, the handlers that have run are exactly those of all ordered notifications that
      arrived and that no overload of parsing or reordering discarded, in order. */
  lemma EveryNotificationIsHandled(limits: Limits, start: nat, leaked: nat, labels: seq<Label>)
    requires E.Startable(limits, leaked) && limits.notifications == 0
    ensures var s := Exec(Initial(limits, start, leaked), labels);
            E.Quiescent(s) && E.Healthy(s.flags) ==> s.handled == OrderedFrames(s.intake, |s.intake.frames|)
  {
    var s := Exec(Initial(limits, start, leaked), labels);
    if E.Quiescent(s) && E.Healthy(s.flags) {
      HealthyRunAcceptsAll(limits, start, leaked, labels);
      E.EveryRunKeepsInv(limits, start, leaked, labels);
      E.EveryRunKeepsBlanks(limits, start, leaked, labels);
      HandledAtRest(s);
      AllRouted(s.intake, s.limits);
      OrderedOfRouted(s.intake, |s.intake.frames|);
    }
  }

  lemma AllRouted(i: Intake, lim: Limits)
    requires I.IntakeInv(i, false, lim) && i.hand.None? && i.queued == i.parsing == multiset{} && i.routing == []
    ensures |i.routed| == |i.frames| && i.routed[..|i.frames|] == i.routed
  {
    E.NothingHeldBack(i, lim);
    assert i.routed + i.routing == i.routed;
  }

  /** With a limit they are exactly the accepted ones. */
  lemma EveryAcceptedIsHandled(limits: Limits, start: nat, leaked: nat, labels: seq<Label>)
    requires E.Startable(limits, leaked)
    ensures var s := Exec(Initial(limits, start, leaked), labels);
            E.Quiescent(s) && E.Healthy(s.flags) ==> s.handled == s.accepted
  {
    E.EveryRunKeepsInv(limits, start, leaked, labels);
    var s := Exec(Initial(limits, start, leaked), labels);
    if E.Quiescent(s) && E.Healthy(s.flags) {
      HandledAtRest(s);
    }
  }
}
