// Once a session is quitting nothing new is begun.
module AfterQuit {
  import opened Base
  import opened Classify
  import opened Pipeline
  import D = Dispatch
  import I = IntakeProof
  import G = GateProof
  import R = ReplyProof
  import N = Notifications
  import P = Progress
  import X = Discards

  /** What is with the handlers, and what has been let through to them, does not grow. */
  ghost predicate Winds(s: State, s': State, n: nat) {
    && s'.h.pool[n] <= s.h.pool[n]
    && s'.h.running[n] <= s.h.running[n]
    && s'.h.deferred[n] + s'.h.polling[n] <= s.h.deferred[n] + s.h.polling[n]
    && s'.posted == s.posted && s'.accepted == s.accepted && |s'.d.parked| <= |s.d.parked|
  }

  lemma RouteWinds(s: State, n: nat)
    requires Enabled(s, Route) && s.flags.quit
    ensures Winds(s, RouteStep(s), n)
  {
  }

  lemma HandlerWinds(s: State, l: Label, n: nat)
    requires Enabled(s, l) && s.flags.quit && (l.FinishRequest? || l.CompletionReady?)
    ensures Winds(s, Step(s, l), n)
  {
    if l.FinishRequest? {
      FinishWinds(s, l.n, l.outcome, n);
    } else {
      CompletionWinds(s, l, n);
    }
  }

  lemma FinishWinds(s: State, m: nat, o: Outcome, n: nat)
    requires Enabled(s, FinishRequest(m, o)) && s.flags.quit
    ensures Winds(s, FinishStep(s, m, o), n)
  {
    OneLess(s.h.running, m);
  }

  lemma CompletionWinds(s: State, l: Label, n: nat)
    requires Enabled(s, l) && l.CompletionReady?
    ensures Winds(s, Step(s, l), n)
  {
    OneLess(s.h.polling, l.n);
  }

  lemma PoolWinds(s: State, l: Label, n: nat)
    requires Enabled(s, l) && s.flags.quit && (l.StartRequest? || l.AbandonTask?)
    ensures Winds(s, Step(s, l), n)
  {
    OneLess(s.h.pool, l.n);
  }

  lemma AsyncWinds(s: State, l: Label, n: nat)
    requires Enabled(s, l) && (l.TakeCompletion? || l.CompletionNotReady? || l.StopAsync?)
    ensures Winds(s, Step(s, l), n)
  {
  }

  lemma DispatchWinds(s: State, l: Label, n: nat)
    requires Enabled(s, l) && s.flags.quit && (l.PublishCompletion? || l.PostReleased? || l.StopDispatcher?)
    ensures Winds(s, Step(s, l), n)
  {
    if l.PublishCompletion? {
      StillParkedShrinks(s.d.parked, s.d.worker.sequence);
    }
  }

  lemma {:induction false} StillParkedShrinks(parked: seq<D.Parked>, completed: nat)
    ensures |D.StillParked(parked, completed)| <= |parked|
  {
    if parked != [] {
      StillParkedShrinks(parked[1..], completed);
    }
  }

  lemma QuietWinds(s: State, l: Label, n: nat)
    requires Enabled(s, l) && R.LeavesReplies(l)
    ensures Winds(s, Step(s, l), n)
  {
    R.QuietStepsLeaveHandlers(s, l);
    N.OthersAcceptNothing(s, l);
    QuietPostsNothing(s, l);
  }

  lemma QuietPostsNothing(s: State, l: Label)
    requires Enabled(s, l) && R.LeavesReplies(l)
    ensures Step(s, l).posted == s.posted && Step(s, l).d.parked == s.d.parked
  {
    if !G.TouchesGate(l) {
      G.OtherStepsLeaveDispatch(s, l);
    }
  }

  lemma StepWinds(s: State, l: Label, n: nat)
    requires Enabled(s, l) && s.flags.quit
    ensures Winds(s, Step(s, l), n) && Step(s, l).flags.quit
  {
    X.StepQuitsExactly(s, l);
    if l.Route? {
      RouteWinds(s, n);
    } else if R.LeavesReplies(l) {
      QuietWinds(s, l, n);
    } else if l.FinishRequest? || l.CompletionReady? {
      HandlerWinds(s, l, n);
    } else if l.StartRequest? || l.AbandonTask? {
      PoolWinds(s, l, n);
    } else if l.TakeCompletion? || l.CompletionNotReady? || l.StopAsync? {
      AsyncWinds(s, l, n);
    } else {
      DispatchWinds(s, l, n);
    }
  }

  /** In every continuation of a session that is quitting: no request is posted, parked,
      started or deferred and no notification accepted any more; what is with the handlers
      only becomes less. */
  lemma {:induction false} NothingBeginsOnceQuitting(s: State, labels: seq<Label>, n: nat)
    requires s.flags.quit
    ensures Exec(s, labels).flags.quit && Winds(s, Exec(s, labels), n)
    decreases |labels|
  {
    if labels != [] {
      NothingBeginsOnceQuitting(s, labels[..|labels| - 1], n);
      var before, l := Exec(s, labels[..|labels| - 1]), labels[|labels| - 1];
      if Enabled(before, l) {
        StepWinds(before, l, n);
      }
    }
  }

  // -- The completion queue ------------------------------------------------------------------

  ghost predicate StoppedIsEmpty(s: State) {
    s.flags.asyncStopped ==> s.h.deferred == multiset{}
  }

  predicate Defers(l: Label) {
    l.FinishRequest? || l.TakeCompletion? || l.CompletionNotReady? || l.StopAsync?
  }

  lemma DeferringStaysEmpty(s: State, l: Label)
    requires Enabled(s, l) && Defers(l) && StoppedIsEmpty(s)
    ensures StoppedIsEmpty(Step(s, l))
  {
    if l.FinishRequest? {
      assert StoppedIsEmpty(FinishStep(s, l.n, l.outcome));
    }
  }

  lemma OthersLeaveQueue(s: State, l: Label)
    requires Enabled(s, l) && !Defers(l) && !l.Route?
    ensures Step(s, l).h.deferred == s.h.deferred && Step(s, l).flags.asyncStopped == s.flags.asyncStopped
  {
    if R.LeavesReplies(l) {
      R.QuietStepsLeaveHandlers(s, l);
    }
    FlagStays(s, l);
  }

  lemma FlagStays(s: State, l: Label)
    requires Enabled(s, l) && !Defers(l) && !l.Route?
    ensures Step(s, l).flags.asyncStopped == s.flags.asyncStopped
  {
    if l.ParseDone? {
      ParseLeavesFlag(s, l.n);
    } else if P.SetsFlag(l) {
      OtherFlagSet(s, l);
    } else {
      P.FlagsKept(s, l);
    }
  }

  lemma ParseLeavesFlag(s: State, n: nat)
    requires Enabled(s, ParseDone(n))
    ensures Step(s, ParseDone(n)).flags.asyncStopped == s.flags.asyncStopped
  {
  }

  lemma OtherFlagSet(s: State, l: Label)
    requires Enabled(s, l) && P.SetsFlag(l) && !l.StopAsync?
    ensures Step(s, l).flags.asyncStopped == s.flags.asyncStopped
  {
    if l.PostParse? {
      assert PostParseStep(s, s.intake.hand.value).flags.asyncStopped == s.flags.asyncStopped;
    }
  }

  lemma RouteLeavesQueue(s: State)
    requires Enabled(s, Route)
    ensures RouteStep(s).h.deferred == s.h.deferred && RouteStep(s).flags.asyncStopped == s.flags.asyncStopped
  {
  }

  /** In every run: once the completion loop is stopped its queue is empty, and stays so. */
  lemma {:induction false} StoppedQueueIsEmpty(s0: State, labels: seq<Label>)
    requires StoppedIsEmpty(s0)
    ensures StoppedIsEmpty(Exec(s0, labels))
    decreases |labels|
  {
    if labels != [] {
      StoppedQueueIsEmpty(s0, labels[..|labels| - 1]);
      var before, l := Exec(s0, labels[..|labels| - 1]), labels[|labels| - 1];
      if Enabled(before, l) {
        if l.Route? {
          RouteLeavesQueue(before);
        } else if Defers(l) {
          DeferringStaysEmpty(before, l);
        } else {
          OthersLeaveQueue(before, l);
        }
      }
    }
  }
}
