// What holds after every run of one session, for every interleaving, every
// handler behaviour and every configuration of limits.
module EndpointTheorems {
  import opened Base
  import opened Classify
  import opened Reorder
  import opened Pipeline
  import D = Dispatch
  import I = IntakeProof
  import G = GateProof
  import R = ReplyProof
  import O = OverloadProof

  ghost predicate Inv(s: State) {
    && I.IntakeInv(s.intake, s.flags.quit, s.limits)
    && G.Gated(s)
    && (forall n: nat :: R.Conserved(s, n))
    && R.IdsMatch(s.intake, s.h.wire)
  }

  lemma NextToRoute(i: Intake)
    requires I.InOrder(i) && i.routing != []
    ensures i.routing[0].sequence == i.start + |i.routed|
  {
    assert I.Numbers(i.routed + i.routing)[|i.routed|] == (i.routed + i.routing)[|i.routed|].sequence;
  }

  lemma StepKeepsInv(s: State, l: Label)
    requires Inv(s) && Enabled(s, l)
    ensures Inv(Step(s, l)) && Step(s, l).limits == s.limits
  {
    I.StepKeepsIntake(s, l);
    if l.Route? { NextToRoute(s.intake); }
    G.StepKeepsGated(s, l);
    forall n: nat ensures R.Conserved(Step(s, l), n) {
      R.StepConserves(s, l, n);
    }
    R.StepKeepsIds(s, l);
  }

  ghost predicate Startable(limits: Limits, leaked: nat) {
    limits.parse != 0 ==> leaked <= limits.parse
  }

  lemma InitialInv(limits: Limits, start: nat, leaked: nat)
    requires Startable(limits, leaked)
    ensures Inv(Initial(limits, start, leaked))
  {
    var s := Initial(limits, start, leaked);
    assert s.intake.routed + s.intake.routing == [];
    forall k: nat ensures I.Places(s.intake, k) == if Assigned(s.intake, k) then 1 else 0 {
    }
  }

  lemma {:induction false} EveryRunKeepsInv(limits: Limits, start: nat, leaked: nat, labels: seq<Label>)
    requires Startable(limits, leaked)
    ensures Inv(Exec(Initial(limits, start, leaked), labels))
    ensures Exec(Initial(limits, start, leaked), labels).limits == limits
    decreases |labels|
  {
    InitialInv(limits, start, leaked);
    if labels != [] {
      var before := Exec(Initial(limits, start, leaked), labels[..|labels| - 1]);
      EveryRunKeepsInv(limits, start, leaked, labels[..|labels| - 1]);
      if Enabled(before, labels[|labels| - 1]) {
        StepKeepsInv(before, labels[|labels| - 1]);
      }
    }
  }

  // -- Numbering and routing ----------------------------------------------------------

  /** The stages of number n on its way to routing: in the producer's hand, queued for
      parsing, being parsed, in the reorder buffer, in the ready list, routed, or discarded
      because the session is quitting. */
  function Stages(i: Intake, n: nat): nat {
    Bit(i.hand == Some(n)) + i.queued[n] + i.parsing[n] + i.gone[n] + Bit(n in i.buffer.held)
    + Bit(n in I.Numbers(i.routing)) + Bit(n in I.Numbers(i.routed))
  }

  lemma OneStageEach(i: Intake, quit: bool, lim: Limits, n: nat)
    requires I.IntakeInv(i, quit, lim)
    ensures Stages(i, n) == Bit(Assigned(i, n))
    ensures n in i.buffer.held ==> i.buffer.next < n < End(i)
  {
    assert I.Places(i, n) == Bit(Assigned(i, n));
    assert I.Numbers(i.routed + i.routing) == I.Numbers(i.routed) + I.Numbers(i.routing);
    RangeSplit(I.Numbers(i.routed), I.Numbers(i.routing), i.start, i.buffer.next, n);
  }

  /** Sequence numbers handed to routing are start, start + 1, ... up to
      next_route_sequence; every number the producer has assigned is in exactly
      one stage; and every buffered number is beyond the next one to route. */
  lemma RoutingIsInOrderAndComplete(limits: Limits, start: nat, leaked: nat, labels: seq<Label>, n: nat)
    requires Startable(limits, leaked)
    ensures var i := Exec(Initial(limits, start, leaked), labels).intake;
            && i.start <= i.buffer.next
            && I.Numbers(i.routed + i.routing) == Iota(i.start, i.buffer.next)
            && Stages(i, n) == Bit(Assigned(i, n))
            && (n in i.buffer.held ==> i.buffer.next < n < End(i))
  {
    EveryRunKeepsInv(limits, start, leaked, labels);
    var s := Exec(Initial(limits, start, leaked), labels);
    OneStageEach(s.intake, s.flags.quit, s.limits, n);
  }

  lemma RangeSplit(a: seq<nat>, b: seq<nat>, lo: nat, hi: nat, n: nat)
    requires lo <= hi && a + b == Iota(lo, hi)
    ensures Bit(n in a) + Bit(n in b) == Bit(lo <= n < hi)
  {
    assert forall k :: 0 <= k < |a| ==> a[k] == (a + b)[k] == lo + k;
    assert forall k :: 0 <= k < |b| ==> b[k] == (a + b)[|a| + k] == lo + |a| + k;
    if lo <= n < hi {
      if n - lo < |a| { assert a[n - lo] == n; } else { assert b[n - lo - |a|] == n; }
    }
  }

  /** No gap can block routing: when nothing is in the producer's hand and no
      parse task is outstanding, everything assigned has been handed to routing.
      Meanwhile the configured bounds hold; slots leaked by an earlier session
      reduce the number of parse tasks that can ever be outstanding. */
  lemma NoGapBlocksRouting(limits: Limits, start: nat, leaked: nat, labels: seq<Label>)
    requires Startable(limits, leaked)
    ensures var s := Exec(Initial(limits, start, leaked), labels);
            var i := s.intake;
            && (!s.flags.quit && i.hand.None? && i.queued == i.parsing == multiset{} ==>
                  i.buffer.held == map[] && i.buffer.next == End(i))
            && (limits.reorder != 0 ==> |I.NonBlank(i.buffer.held)| <= limits.reorder)
            && (limits.parse != 0 ==> |i.queued| + |i.parsing| + i.finishing + leaked <= i.slots <= limits.parse)
  {
    EveryRunKeepsInv(limits, start, leaked, labels);
    AbandonedNeverShrinks(Initial(limits, start, leaked), labels);
    var s := Exec(Initial(limits, start, leaked), labels);
    var i := s.intake;
    if !s.flags.quit && i.hand.None? && i.queued == i.parsing == multiset{} {
      NothingHeldBack(i, s.limits);
    }
  }

  lemma NothingHeldBack(i: Intake, lim: Limits)
    requires I.IntakeInv(i, false, lim) && i.hand.None? && i.queued == i.parsing == multiset{}
    ensures i.buffer.held == map[] && i.buffer.next == End(i)
  {
    assert I.Places(i, i.buffer.next) == Bit(Assigned(i, i.buffer.next)) == 0;
    assert forall k :: k in i.buffer.held ==> I.Places(i, k) == 1 && Assigned(i, k);
    assert I.Places(i, End(i)) == 0;
    assert i.buffer.held.Keys == {};
  }

  lemma AbandonedNeverShrinks(s: State, labels: seq<Label>)
    ensures Exec(s, labels).intake.abandoned >= s.intake.abandoned
  {
    AbandonedIsCounted(s, labels);
  }

  // -- Ordering -------------------------------------------------------------------------

  /** Accepted ordered notifications are handled one at a time in increasing order
      (what has returned, what is running and what is queued are consecutive
      pieces of the accepted list), and a request has reached the handler pool
      only if the handler of every older accepted notification has returned. */
  lemma RequestsFollowOlderNotifications(
    limits: Limits, start: nat, leaked: nat, labels: seq<Label>, request: nat, notification: nat)
    requires Startable(limits, leaked)
    ensures var s := Exec(Initial(limits, start, leaked), labels);
            && Increasing(s.accepted)
            && s.handled + G.InHandler(s.d) <= s.accepted
            && (!s.d.stopped ==> s.accepted == s.handled + G.InHandler(s.d) + s.d.queue)
            && (request in s.posted && notification in s.accepted && notification < request ==>
                  notification in s.handled)
  {
    EveryRunKeepsInv(limits, start, leaked, labels);
    var s := Exec(Initial(limits, start, leaked), labels);
    if request in s.posted && notification in s.accepted && notification < request {
      ClearedMeansHandled(s.accepted, s.handled, s.posted, G.Frontier(s), request, notification);
    }
  }

  lemma ClearedMeansHandled(accepted: seq<nat>, handled: seq<nat>, posted: seq<nat>, f: nat, r: nat, n: nat)
    requires G.AllCleared(accepted, handled, posted, f) && handled <= accepted
    requires r in posted && n in accepted && n < r
    ensures n in handled
  {
    var i :| 0 <= i < |posted| && posted[i] == r;
    var k :| 0 <= k < |accepted| && accepted[k] == n;
    assert G.Cleared(accepted, handled, posted[i]);
    assert k < |handled| && handled[k] == accepted[k];
  }

  /** No request is stranded: each parked request waits for a notification that is
      queued or in flight, gates never decrease along the parked list, and with
      nothing queued or in flight nothing is parked. */
  lemma NoRequestIsStranded(limits: Limits, start: nat, leaked: nat, labels: seq<Label>)
    requires Startable(limits, leaked)
    ensures var d := Exec(Initial(limits, start, leaked), labels).d;
            && D.GatesSorted(d.parked)
            && D.GatesIn(d.parked, D.Active(d))
            && (D.Active(d) == [] ==> d.parked == [])
  {
    EveryRunKeepsInv(limits, start, leaked, labels);
    D.NothingStranded(Exec(Initial(limits, start, leaked), labels).d);
  }

  // -- Replies --------------------------------------------------------------------------

  lemma FrontNumbers(items: seq<Item>, lo: nat)
    requires items != [] && I.Numbers(items) == Iota(lo, lo + |items|)
    ensures I.Numbers(items[..|items| - 1]) == Iota(lo, lo + |items| - 1)
    ensures items[|items| - 1].sequence == lo + |items| - 1
  {
    var front := items[..|items| - 1];
    assert forall k :: 0 <= k < |items| ==> I.Numbers(items)[k] == items[k].sequence == lo + k;
    assert forall k :: 0 <= k < |front| ==> I.Numbers(front)[k] == lo + k;
  }

  lemma {:induction false} AskedOncePerNumber(items: seq<Item>, lo: nat, n: nat)
    requires I.Numbers(items) == Iota(lo, lo + |items|)
    ensures multiset(R.Asked(items))[n]
            == Bit(lo <= n < lo + |items| && ExpectsReply(items[n - lo].message))
  {
    if items != [] {
      var front, x := items[..|items| - 1], items[|items| - 1];
      FrontNumbers(items, lo);
      AskedOncePerNumber(front, lo, n);
      AskedSnoc(items, n);
    }
  }

  lemma AskedSnoc(items: seq<Item>, n: nat)
    requires items != []
    ensures var front, x := items[..|items| - 1], items[|items| - 1];
            multiset(R.Asked(items))[n] == multiset(R.Asked(front))[n] + Bit(ExpectsReply(x.message) && x.sequence == n)
  {
    var front, x := items[..|items| - 1], items[|items| - 1];
    assert R.Asked(items) == R.Asked(front) + if ExpectsReply(x.message) then [x.sequence] else [];
  }

  /** Two replies are on the wire for every double answer. */
  lemma {:induction false} DoubledMeansTwo(s: State, labels: seq<Label>, n: nat)
    requires R.Answers(s.h.wire, n) >= 2 * s.h.doubled[n]
    ensures var h := Exec(s, labels).h; R.Answers(h.wire, n) >= 2 * h.doubled[n]
    decreases |labels|
  {
    if labels != [] {
      DoubledMeansTwo(s, labels[..|labels| - 1], n);
      var before, l := Exec(s, labels[..|labels| - 1]), labels[|labels| - 1];
      if Enabled(before, l) {
        StepCountsDoubles(before, l, n);
      }
    }
  }

  lemma SendCountsDoubles(h: Handlers, f: Flags, n: nat, id: Id, bodies: seq<Body>, k: nat)
    requires |bodies| <= 2
    ensures var h' := Send(h, f, n, id, bodies);
            R.Answers(h'.wire, k) + 2 * h.doubled[k] >= R.Answers(h.wire, k) + 2 * h'.doubled[k]
  {
    if Open(f) && bodies != [] {
      var more := Replies(n, id, bodies);
      assert R.AnsweredNumbers(h.wire + more) == R.AnsweredNumbers(h.wire) + R.AnsweredNumbers(more);
      assert R.AnsweredNumbers(more) == if |bodies| == 1 then [n] else [n, n];
    }
  }

  lemma RouteCountsDoubles(s: State, k: nat)
    requires s.intake.routing != []
    ensures var h := RouteStep(s).h;
            R.Answers(h.wire, k) + 2 * s.h.doubled[k] >= R.Answers(s.h.wire, k) + 2 * h.doubled[k]
  {
    var x := s.intake.routing[0];
    if x.message.ErrorReply? {
      SendCountsDoubles(s.h, s.flags, x.sequence, x.message.id, [Rejected(x.message.code)], k);
    }
  }

  lemma StepCountsDoubles(s: State, l: Label, k: nat)
    requires Enabled(s, l)
    ensures var h := Step(s, l).h;
            R.Answers(h.wire, k) + 2 * s.h.doubled[k] >= R.Answers(s.h.wire, k) + 2 * h.doubled[k]
  {
    if l.Route? {
      RouteCountsDoubles(s, k);
    } else if l.FinishRequest? {
      FinishCountsDoubles(s, l.n, l.outcome, k);
    } else if l.CompletionReady? {
      SendCountsDoubles(s.h.(polling := s.h.polling - multiset{l.n}), s.flags, l.n, Frame(s.intake, l.n).id, Emitted(l.result, l.w1, l.w2), k);
    } else {
      OnlySendsDouble(s, l);
    }
  }

  lemma OnlySendsDouble(s: State, l: Label)
    requires Enabled(s, l) && !R.Writes(l)
    ensures Step(s, l).h.wire == s.h.wire && Step(s, l).h.doubled == s.h.doubled
  {
  }

  lemma FinishCountsDoubles(s: State, n: nat, o: Pipeline.Outcome, k: nat)
    requires Assigned(s.intake, n) && ExpectsReply(Frame(s.intake, n))
    ensures var h := FinishStep(s, n, o).h;
            R.Answers(h.wire, k) + 2 * s.h.doubled[k] >= R.Answers(s.h.wire, k) + 2 * h.doubled[k]
  {
    if !o.AsyncStarted? {
      R.BodiesAtMostTwo(o);
      SendCountsDoubles(s.h.(running := s.h.running - multiset{n}), s.flags, n, Frame(s.intake, n).id, Bodies(o), k);
    }
  }

  /** In every reachable state, including while stopping, each incoming request has
      at most one reply on the wire, which carries its id and answers nothing but
      a request; the one exception is exact: an output write that threw after its
      bytes had left and was followed by an error reply makes it two. */
  lemma AtMostOneReply(limits: Limits, start: nat, leaked: nat, labels: seq<Label>, n: nat)
    requires Startable(limits, leaked)
    ensures var s := Exec(Initial(limits, start, leaked), labels);
            && R.IdsMatch(s.intake, s.h.wire)
            && (R.Answers(s.h.wire, n) <= 1 <==> n !in s.h.doubled)
            && R.Answers(s.h.wire, n) <= 2
  {
    var s0 := Initial(limits, start, leaked);
    var s := Exec(s0, labels);
    EveryRunKeepsInv(limits, start, leaked, labels);
    assert R.Conserved(s, n);
    RoutedPrefix(s.intake);
    AskedOncePerNumber(s.intake.routed, s.intake.start, n);
    DoubledMeansTwo(s0, labels, n);
  }

  predicate LateWrite(result: HandlerResult, w1: Write, w2: Write) {
    (result.Value? || result.ErrorValue?) && w1.ThrewLate? && !w2.ThrewEarly?
  }

  /** The step answers request n with a value whose write throws after its bytes have
      left, and the internal error that follows goes out. */
  predicate LateFailure(l: Label, n: nat) {
    match l
    case FinishRequest(k, Sync(result, w1, w2)) => k == n && LateWrite(result, w1, w2)
    case CompletionReady(k, result, w1, w2) => k == n && LateWrite(result, w1, w2)
    case _ => false
  }

  lemma FinishDoubles(s: State, k: nat, o: Pipeline.Outcome, n: nat)
    requires Enabled(s, FinishRequest(k, o))
    ensures n in FinishStep(s, k, o).h.doubled
            <==> n in s.h.doubled || (LateFailure(FinishRequest(k, o), n) && Open(s.flags))
  {
    if o.Sync? {
      TwiceExactlyAfterLateFailure(o.result, o.w1, o.w2);
    }
  }

  lemma CompletionDoubles(s: State, l: Label, n: nat)
    requires Enabled(s, l) && l.CompletionReady?
    ensures n in Step(s, l).h.doubled <==> n in s.h.doubled || (LateFailure(l, n) && Open(s.flags))
  {
    TwiceExactlyAfterLateFailure(l.result, l.w1, l.w2);
  }

  lemma RouteDoublesNothing(s: State)
    requires Enabled(s, Route)
    ensures RouteStep(s).h.doubled == s.h.doubled
  {
  }

  lemma StepDoublesExactlyWhen(s: State, l: Label, n: nat)
    requires Enabled(s, l)
    ensures n in Step(s, l).h.doubled <==> n in s.h.doubled || (LateFailure(l, n) && Open(s.flags))
  {
    if l.FinishRequest? {
      FinishDoubles(s, l.n, l.outcome, n);
    } else if l.CompletionReady? {
      CompletionDoubles(s, l, n);
    } else if l.Route? {
      RouteDoublesNothing(s);
    } else {
      OnlySendsDouble(s, l);
    }
  }

  /** Step i of the run answers request n twice. */
  ghost predicate DoublesAt(s: State, labels: seq<Label>, i: nat, n: nat) {
    && i < |labels|
    && Enabled(Exec(s, labels[..i]), labels[i])
    && LateFailure(labels[i], n) && Open(Exec(s, labels[..i]).flags)
  }

  lemma {:induction false} DoubledExactlyWhen(s: State, labels: seq<Label>, n: nat)
    requires n !in s.h.doubled
    ensures n in Exec(s, labels).h.doubled <==> exists i: nat :: DoublesAt(s, labels, i, n)
    decreases |labels|
  {
    if labels != [] {
      var front, l := labels[..|labels| - 1], labels[|labels| - 1];
      assert labels == front + [l];
      DoubledExactlyWhen(s, front, n);
      LastStepDoubles(s, front, l, n);
      SomeStepDoubles(s, front, l, n);
    }
  }

  lemma SomeStepDoubles(s: State, front: seq<Label>, l: Label, n: nat)
    ensures (exists i: nat :: DoublesAt(s, front + [l], i, n))
            <==> (exists i: nat :: DoublesAt(s, front, i, n)) || DoublesAt(s, front + [l], |front|, n)
  {
    if i: nat :| DoublesAt(s, front, i, n) {
      EarlierStepDoubles(s, front, l, i, n);
    }
    if i: nat :| DoublesAt(s, front + [l], i, n) {
      if i < |front| { EarlierStepDoubles(s, front, l, i, n); }
    }
  }

  lemma EarlierStepDoubles(s: State, front: seq<Label>, l: Label, i: nat, n: nat)
    requires i < |front|
    ensures DoublesAt(s, front, i, n) <==> DoublesAt(s, front + [l], i, n)
  {
    assert front[..i] == (front + [l])[..i];
  }

  lemma LastStepDoubles(s: State, front: seq<Label>, l: Label, n: nat)
    ensures n in Exec(s, front + [l]).h.doubled
            <==> n in Exec(s, front).h.doubled || DoublesAt(s, front + [l], |front|, n)
  {
    ExecSnoc(s, front, l);
    assert (front + [l])[..|front|] == front;
    if Enabled(Exec(s, front), l) {
      StepDoublesExactlyWhen(Exec(s, front), l, n);
    }
  }

  /** In every run: two replies if and only if some step of it sent a handler's value
      with a write that threw late and then the internal error; otherwise at most one. */
  lemma TwoRepliesExactlyWhen(limits: Limits, start: nat, leaked: nat, labels: seq<Label>, n: nat)
    requires Startable(limits, leaked)
    ensures var s0 := Initial(limits, start, leaked);
            R.Answers(Exec(s0, labels).h.wire, n) >= 2 <==> exists i: nat :: DoublesAt(s0, labels, i, n)
  {
    AtMostOneReply(limits, start, leaked, labels, n);
    DoubledExactlyWhen(Initial(limits, start, leaked), labels, n);
  }

  lemma RoutedPrefix(i: Intake)
    requires I.InOrder(i)
    ensures I.Numbers(i.routed) == Iota(i.start, i.start + |i.routed|)
  {
    assert forall k :: 0 <= k < |i.routed| ==> I.Numbers(i.routed)[k] == I.Numbers(i.routed + i.routing)[k];
  }

  /** Message number n has been routed and expects a reply. */
  predicate RoutedRequest(i: Intake, n: nat) {
    i.start <= n < i.start + |i.routed| && ExpectsReply(i.routed[n - i.start].message)
  }

  lemma OnePlaceEach(s: State, n: nat)
    requires I.InOrder(s.intake) && R.Conserved(s, n)
    ensures R.Waiting(s.d, n) + R.InHandlers(s.h, n) == Bit(RoutedRequest(s.intake, n)) + s.h.doubled[n]
  {
    RoutedPrefix(s.intake);
    AskedOncePerNumber(s.intake.routed, s.intake.start, n);
  }

  /** After routing, a request is in exactly one place: parked, being released, in the
      handler pool, running, awaiting its future, dropped by an overload, suppressed,
      or answered (with one more reply for each late write failure). */
  lemma EachRequestIsInOnePlace(limits: Limits, start: nat, leaked: nat, labels: seq<Label>, n: nat)
    requires Startable(limits, leaked)
    ensures var s := Exec(Initial(limits, start, leaked), labels);
            R.Waiting(s.d, n) + R.InHandlers(s.h, n) == Bit(RoutedRequest(s.intake, n)) + s.h.doubled[n]
  {
    EveryRunKeepsInv(limits, start, leaked, labels);
    var s := Exec(Initial(limits, start, leaked), labels);
    assert R.Conserved(s, n);
    OnePlaceEach(s, n);
  }

  // -- Exactly one reply ------------------------------------------------------------------

  predicate Clean(w: Write) {
    w.Written?
  }

  /** The environment never makes an output write throw. */
  predicate CleanLabel(l: Label) {
    match l
    case FinishRequest(_, NoHandler(w)) => Clean(w)
    case FinishRequest(_, Sync(_, w1, _)) => Clean(w1)
    case FinishRequest(_, AsyncRaised(_, w1)) => Clean(w1)
    case CompletionReady(_, _, w1, _) => Clean(w1)
    case _ => true
  }

  /** Nothing is left to do: no frame before routing, no notification, no request. */
  predicate Quiescent(s: State) {
    && s.intake.hand.None? && s.intake.queued == s.intake.parsing == multiset{} && s.intake.routing == []
    && s.d.worker.Idle? && s.d.queue == []
    && s.h.pool == s.h.running == s.h.deferred == s.h.polling == multiset{}
  }

  predicate Healthy(f: Flags) {
    !f.quit && !f.asyncStopped && Open(f)
  }

  lemma HealthNeverReturns(s: State, l: Label)
    requires Enabled(s, l) && Healthy(Step(s, l).flags)
    ensures Healthy(s.flags)
  {
    if l.Route? {
      RouteHeals(s);
    } else {
      OthersHeal(s, l);
    }
  }

  lemma RouteHeals(s: State)
    requires Enabled(s, Route) && Healthy(RouteStep(s).flags)
    ensures Healthy(s.flags)
  {
  }

  lemma OthersHeal(s: State, l: Label)
    requires Enabled(s, l) && !l.Route? && Healthy(Step(s, l).flags)
    ensures Healthy(s.flags)
  {
  }

  lemma CleanFinishLosesNothing(s: State, n: nat, o: Pipeline.Outcome)
    requires Enabled(s, FinishRequest(n, o)) && CleanLabel(FinishRequest(n, o)) && Healthy(s.flags)
    ensures FinishStep(s, n, o).h.lost == s.h.lost && FinishStep(s, n, o).h.doubled == s.h.doubled
  {
    if !o.AsyncStarted? {
      assert |Bodies(o)| == 1;
    }
  }

  lemma CleanRouteLosesNothing(s: State)
    requires Enabled(s, Route) && Healthy(s.flags)
    ensures RouteStep(s).h.lost == s.h.lost && RouteStep(s).h.doubled == s.h.doubled
  {
  }

  lemma CleanCompletionLosesNothing(s: State, l: Label)
    requires Enabled(s, l) && l.CompletionReady? && CleanLabel(l) && Healthy(s.flags)
    ensures Step(s, l).h.lost == s.h.lost && Step(s, l).h.doubled == s.h.doubled
  {
    assert |Emitted(l.result, l.w1, l.w2)| == 1;
  }

  lemma CleanStepLosesNothing(s: State, l: Label)
    requires Enabled(s, l) && CleanLabel(l) && Healthy(Step(s, l).flags)
    ensures Step(s, l).h.lost == s.h.lost && Step(s, l).h.doubled == s.h.doubled
  {
    HealthNeverReturns(s, l);
    if R.LeavesReplies(l) {
      R.QuietStepsConserve(s, l, 0);
    } else if l.CompletionReady? {
      CleanCompletionLosesNothing(s, l);
    } else if l.Route? {
      CleanRouteLosesNothing(s);
    } else if l.FinishRequest? {
      CleanFinishLosesNothing(s, l.n, l.outcome);
    }
  }

  lemma {:induction false} CleanRunLosesNothing(s: State, labels: seq<Label>)
    requires s.h.lost == multiset{} && s.h.doubled == multiset{}
    requires forall i :: 0 <= i < |labels| ==> CleanLabel(labels[i])
    requires Healthy(Exec(s, labels).flags)
    ensures Exec(s, labels).h.lost == multiset{} && Exec(s, labels).h.doubled == multiset{}
    decreases |labels|
  {
    if labels != [] {
      var front := labels[..|labels| - 1];
      var before, l := Exec(s, front), labels[|labels| - 1];
      if Enabled(before, l) {
        assert CleanLabel(l);
        HealthNeverReturns(before, l);
        CleanStepLosesNothing(before, l);
      }
      CleanRunLosesNothing(s, front);
    }
  }

  lemma {:induction false} EveryRunKeepsBlanks(limits: Limits, start: nat, leaked: nat, labels: seq<Label>)
    requires Startable(limits, leaked)
    ensures O.BlanksStay(Exec(Initial(limits, start, leaked), labels).intake)
    decreases |labels|
  {
    if labels != [] {
      var front := labels[..|labels| - 1];
      EveryRunKeepsBlanks(limits, start, leaked, front);
      EveryRunKeepsInv(limits, start, leaked, front);
      var before, l := Exec(Initial(limits, start, leaked), front), labels[|labels| - 1];
      if Enabled(before, l) {
        O.StepKeepsBlanks(before, l);
      }
    }
  }

  /** Message number n has arrived, expects a reply and was not discarded by an
      overload on its way to routing or while parked. */
  predicate MustBeAnswered(s: State, n: nat) {
    Assigned(s.intake, n) && ExpectsReply(Frame(s.intake, n)) && n !in s.intake.blanked && n !in s.h.dropped
  }

  /** Once the session is quiescent, with no stop and an output that works, every
      request that arrived has exactly one reply, whether its method was unknown, its
      parameters did not parse, its handler returned a value or an error, threw, or
      completed asynchronously. The only ones without are exactly those that an
      overload discarded, and nothing but a request has any. */
  lemma ExactlyOneReply(limits: Limits, start: nat, leaked: nat, labels: seq<Label>, n: nat)
    requires Startable(limits, leaked)
    requires forall i :: 0 <= i < |labels| ==> CleanLabel(labels[i])
    ensures var s := Exec(Initial(limits, start, leaked), labels);
            Quiescent(s) && Healthy(s.flags) ==> R.Answers(s.h.wire, n) == Bit(MustBeAnswered(s, n))
  {
    var s := Exec(Initial(limits, start, leaked), labels);
    if Quiescent(s) && Healthy(s.flags) {
      EveryRunKeepsInv(limits, start, leaked, labels);
      EveryRunKeepsBlanks(limits, start, leaked, labels);
      CleanRunLosesNothing(Initial(limits, start, leaked), labels);
      NothingHeldBack(s.intake, s.limits);
      QuietMeansAnswered(s, n);
    }
  }

  lemma QuietMeansAnswered(s: State, n: nat)
    requires Inv(s) && O.BlanksStay(s.intake) && Quiescent(s) && s.intake.buffer.next == End(s.intake)
    requires s.h.lost == s.h.doubled == multiset{}
    ensures R.Answers(s.h.wire, n) == Bit(MustBeAnswered(s, n))
  {
    assert R.Conserved(s, n);
    D.NothingStranded(s.d);
    assert R.Waiting(s.d, n) == 0;
    assert R.Answers(s.h.wire, n) + s.h.dropped[n] == multiset(R.Asked(s.intake.routed))[n];
    AllFramesAsked(s.intake, n);
  }

  lemma AllFramesAsked(i: Intake, n: nat)
    requires I.InOrder(i) && I.Contents(i) && O.BlanksStay(i) && i.routing == [] && i.buffer.next == End(i)
    ensures multiset(R.Asked(i.routed))[n] == Bit(Assigned(i, n) && ExpectsReply(Frame(i, n)) && n !in i.blanked)
  {
    assert i.routed + i.routing == i.routed;
    RoutedPrefix(i);
    AskedOncePerNumber(i.routed, i.start, n);
    if Assigned(i, n) {
      assert i.routed[n - i.start].sequence == I.Numbers(i.routed)[n - i.start] == n;
      assert I.Genuine(i, n, i.routed[n - i.start].message);
      assert O.BlankStays(i, n);
    }
  }

  // -- Parse slots ------------------------------------------------------------------------

  /** How many steps of the run destroy a parse task unrun. */
  function Abandonments(s: State, labels: seq<Label>): nat
    decreases |labels|
  {
    if labels == [] then 0
    else
      var front, l := labels[..|labels| - 1], labels[|labels| - 1];
      Abandonments(s, front) + Bit(l.AbandonParse? && Enabled(Exec(s, front), l))
  }

  lemma StepCountsAbandoned(s: State, l: Label)
    requires Enabled(s, l)
    ensures Step(s, l).intake.abandoned == s.intake.abandoned + Bit(l.AbandonParse?)
  {
    if l.Route? {
      I.RouteStepIntake(s);
    } else if !I.TouchesIntake(l) {
      I.OtherStepsLeaveIntake(s, l);
    } else if l.ParseDone? {
      I.ParseDoneIs(s, l.n);
    } else {
      IntakeStepCountsAbandoned(s, l);
    }
  }

  lemma IntakeStepCountsAbandoned(s: State, l: Label)
    requires Enabled(s, l) && I.TouchesIntake(l) && !l.Route? && !l.ParseDone?
    ensures Step(s, l).intake.abandoned == s.intake.abandoned + Bit(l.AbandonParse?)
  {
  }

  lemma {:induction false} AbandonedIsCounted(s: State, labels: seq<Label>)
    ensures Exec(s, labels).intake.abandoned == s.intake.abandoned + Abandonments(s, labels)
    decreases |labels|
  {
    if labels != [] {
      AbandonedIsCounted(s, labels[..|labels| - 1]);
      var before, l := Exec(s, labels[..|labels| - 1]), labels[|labels| - 1];
      if Enabled(before, l) {
        StepCountsAbandoned(before, l);
      }
    }
  }

  /** Step i of the run destroys a parse task unrun. */
  ghost predicate AbandonsAt(s: State, labels: seq<Label>, i: nat) {
    i < |labels| && labels[i].AbandonParse? && Enabled(Exec(s, labels[..i]), labels[i])
  }

  lemma {:induction false} NoneAbandonedExactlyWhen(s: State, labels: seq<Label>)
    ensures Abandonments(s, labels) == 0 <==> forall i: nat :: !AbandonsAt(s, labels, i)
    decreases |labels|
  {
    if labels != [] {
      var front := labels[..|labels| - 1];
      NoneAbandonedExactlyWhen(s, front);
      forall i: nat | i < |front| ensures AbandonsAt(s, front, i) <==> AbandonsAt(s, labels, i) {
        assert front[..i] == labels[..i];
      }
      assert AbandonsAt(s, labels, |front|) <==> Abandonments(s, labels) != Abandonments(s, front);
    }
  }

  /** After every run the slots in use are those of the outstanding tasks, those leaked
      by earlier sessions and one for each task that was destroyed unrun. */
  lemma SlotsAreAccountedFor(limits: Limits, start: nat, leaked: nat, labels: seq<Label>)
    requires Startable(limits, leaked)
    ensures var s0 := Initial(limits, start, leaked);
            var i := Exec(s0, labels).intake;
            i.slots == |i.queued| + |i.parsing| + i.finishing + leaked + Abandonments(s0, labels)
  {
    EveryRunKeepsInv(limits, start, leaked, labels);
    AbandonedIsCounted(Initial(limits, start, leaked), labels);
  }

  /** Every slot taken in a run comes back if and only if no step of the run destroys a
      parse task unrun. */
  lemma SlotsComeBackExactlyWhen(limits: Limits, start: nat, leaked: nat, labels: seq<Label>)
    requires Startable(limits, leaked)
    ensures var s0 := Initial(limits, start, leaked);
            var i := Exec(s0, labels).intake;
            i.slots == |i.queued| + |i.parsing| + i.finishing + leaked
            <==> forall k: nat :: !AbandonsAt(s0, labels, k)
  {
    SlotsAreAccountedFor(limits, start, leaked, labels);
    NoneAbandonedExactlyWhen(Initial(limits, start, leaked), labels);
  }
}
