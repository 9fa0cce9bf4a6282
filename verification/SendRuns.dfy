// Messages, callbacks and the quit flag over whole runs with any number of restarts.
module SendRuns {
  import opened Base
  import opened SendSide
  import S = SendTheorems

  // -- The quit flag -------------------------------------------------------------------------

  /** In every run the endpoint is quitting exactly from the begin of a stop to the next
      start. */
  lemma {:induction false} QuitExactlyWhen(limit: nat, labels: seq<Label>)
    ensures var s := Exec(Initial(limit), labels);
            s.sessions != [] && (s.quit <==> !s.phase.Working? && |s.sessions| > 1)
            && (!s.phase.Stopped? ==> |s.sessions| > 1)
    decreases |labels|
  {
    if labels != [] {
      QuitExactlyWhen(limit, labels[..|labels| - 1]);
      var before, l := Exec(Initial(limit), labels[..|labels| - 1]), labels[|labels| - 1];
      if Enabled(before, l) {
        StepQuitsExactly(before, l);
      }
    }
  }

  lemma StepQuitsExactly(s: State, l: Label)
    requires Enabled(s, l)
    requires (s.quit <==> !s.phase.Working? && |s.sessions| > 1) && (!s.phase.Stopped? ==> |s.sessions| > 1)
    ensures var s' := Step(s, l);
            s'.sessions != [] && (s'.quit <==> !s'.phase.Working? && |s'.sessions| > 1)
            && (!s'.phase.Stopped? ==> |s'.sessions| > 1)
  {
    if S.IsPhaseStep(l) {
      PhaseStepQuitsExactly(s, l);
    } else {
      S.OthersLeavePhase(s, l);
      OthersLeaveSessions(s, l);
    }
  }

  lemma PhaseStepQuitsExactly(s: State, l: Label)
    requires Enabled(s, l) && S.IsPhaseStep(l)
    requires (s.quit <==> !s.phase.Working? && |s.sessions| > 1) && (!s.phase.Stopped? ==> |s.sessions| > 1)
    ensures var s' := Step(s, l);
            s'.sessions != [] && (s'.quit <==> !s'.phase.Working? && |s'.sessions| > 1)
            && (!s'.phase.Stopped? ==> |s'.sessions| > 1)
  {
  }

  // -- Open sessions ---------------------------------------------------------------------------

  predicate BeforeDeactivation(p: Phase) {
    p.Working? || p.Quitting? || p.RoutingCleared?
  }

  ghost predicate ActiveInv(s: State) {
    && s.sessions != [] && (!s.phase.Stopped? ==> |s.sessions| > 1)
    && s.sessions[0].output.None?
    && (forall g :: 0 < g < |s.sessions| ==>
          (s.sessions[g].active <==> g == Current(s) && BeforeDeactivation(s.phase)))
    && (forall g :: 0 < g < |s.sessions| && s.sessions[g].active ==> s.sessions[g].output.Some?)
  }

  lemma PhaseStepKeepsActive(s: State, l: Label)
    requires Enabled(s, l) && S.IsPhaseStep(l) && ActiveInv(s)
    ensures ActiveInv(Step(s, l))
  {
    if l.Starts? {
      assert forall g :: 0 <= g < |s.sessions| ==> Step(s, l).sessions[g] == s.sessions[g];
    }
  }

  lemma StepKeepsActive(s: State, l: Label)
    requires Enabled(s, l) && ActiveInv(s)
    ensures ActiveInv(Step(s, l))
  {
    if S.IsPhaseStep(l) {
      PhaseStepKeepsActive(s, l);
    } else {
      S.OthersLeavePhase(s, l);
      OthersLeaveSessions(s, l);
    }
  }

  lemma {:induction false} EveryRunKeepsActive(limit: nat, labels: seq<Label>)
    ensures ActiveInv(Exec(Initial(limit), labels))
    decreases |labels|
  {
    if labels != [] {
      EveryRunKeepsActive(limit, labels[..|labels| - 1]);
      var before, l := Exec(Initial(limit), labels[..|labels| - 1]), labels[|labels| - 1];
      if Enabled(before, l) {
        StepKeepsActive(before, l);
      }
    }
  }

  /** In every run the state of a session takes messages exactly from its start until a stop
      deactivates it: no earlier session does, and the one before the first start never. */
  lemma OpenExactlyWhen(limit: nat, labels: seq<Label>, g: nat)
    ensures var s := Exec(Initial(limit), labels);
            g < |s.sessions| ==>
              (s.sessions[g].active && s.sessions[g].output.Some?
               <==> 0 < g == |s.sessions| - 1 && BeforeDeactivation(s.phase))
  {
    EveryRunKeepsActive(limit, labels);
  }

  // -- Callbacks that are discarded --------------------------------------------------------------

  /** While the endpoint is not working, a deferred callback is to be posted or is
      destroyed with its pool. */
  predicate Discards(s: State, l: Label, token: nat) {
    !s.phase.Working?
    && ((l.RouterFinishes? && s.router == Some(Deferring(token))) || l == CallbackAbandoned(token))
  }

  function Discarding(token: nat): (State, Label) -> bool {
    (s, l) => Discards(s, l, token)
  }

  lemma StepDropsExactly(s: State, l: Label, token: nat)
    requires Enabled(s, l) && S.PhaseInv(s) && (s.quit ==> !s.phase.Working?)
    ensures token in Step(s, l).dropped <==> token in s.dropped || Discards(s, l, token)
  {
    if l.RouterFinishes? {
      assert Step(s, l) == RouterStep(s);
    } else if !l.CallbackAbandoned? {
      OthersDropNothing(s, l);
    }
  }

  lemma OthersDropNothing(s: State, l: Label)
    requires Enabled(s, l) && !l.RouterFinishes? && !l.CallbackAbandoned?
    ensures Step(s, l).dropped == s.dropped
  {
  }

  /** In every run a callback is discarded if and only if, between the begin of a stop and
      the next start, it was to be posted or was destroyed with its pool. */
  lemma {:induction false} DroppedExactlyWhen(limit: nat, labels: seq<Label>, token: nat)
    ensures token in Exec(Initial(limit), labels).dropped
            <==> Happens(Initial(limit), labels, Discarding(token))
    decreases |labels|
  {
    var s0 := Initial(limit);
    if labels != [] {
      var front, l := labels[..|labels| - 1], labels[|labels| - 1];
      assert labels == front + [l];
      DroppedExactlyWhen(limit, front, token);
      HappensSnoc(s0, front, l, Discarding(token));
      if Enabled(Exec(s0, front), l) {
        QuitExactlyWhen(limit, front);
        S.EveryRunKeepsInv(limit, front);
        StepDropsExactly(Exec(s0, front), l, token);
      }
    }
  }

  // -- Incoming messages ---------------------------------------------------------------------------

  /** How often a handler was started for a message. */
  ghost function StartCount(s0: State, labels: seq<Label>, c: Carried): nat
    decreases |labels|
  {
    if labels == [] then 0
    else
      var front, l := labels[..|labels| - 1], labels[|labels| - 1];
      StartCount(s0, front, c) + Bit(l.HandlerStarts? && l.carried == c && Enabled(Exec(s0, front), l))
  }

  ghost predicate Conserves(w: Work, w': Work, c: Carried, started: bool) {
    w'.parked[c] + w'.pool[c] + Bit(started) + Bit(S.Captured(w, c)) == w.parked[c] + w.pool[c] + Bit(S.Captured(w', c))
  }

  lemma WorkStepConserves(w: Work, l: Label, current: nat, c: Carried)
    requires Handles(l) && WorkEnabled(w, l) && S.WorkInv(w)
    ensures Conserves(w, WorkStep(w, l, current), c, l.HandlerStarts? && l.carried == c)
  {
    if l.MessageRouted? {
      RoutingConserves(w, l.park, current, c);
    }
  }

  lemma RoutingConserves(w: Work, park: bool, current: nat, c: Carried)
    requires S.WorkInv(w)
    ensures Conserves(w, WorkStep(w, MessageRouted(park), current), c, false)
  {
  }

  /** In every run each message, with the output state of the session it was routed in, is
      waiting, in the handler pool, or has been given to a handler, and that once. */
  lemma {:induction false} EveryMessageIsStartedOnce(limit: nat, labels: seq<Label>, c: Carried)
    ensures var w := Exec(Initial(limit), labels).work;
            w.parked[c] + w.pool[c] + StartCount(Initial(limit), labels, c)
            == Bit(c.message < |w.routedIn| && w.routedIn[c.message] == c.state)
    decreases |labels|
  {
    var s0 := Initial(limit);
    if labels != [] {
      var front, l := labels[..|labels| - 1], labels[|labels| - 1];
      EveryMessageIsStartedOnce(limit, front, c);
      var before := Exec(s0, front);
      if Enabled(before, l) {
        if Handles(l) {
          RunKeepsWork(limit, front);
          S.HandlingLeavesRest(before, l);
          WorkStepConserves(before.work, l, Current(before), c);
        } else {
          S.OthersLeaveWork(before, l);
        }
      }
    }
  }

  lemma RunKeepsWork(limit: nat, labels: seq<Label>)
    ensures S.WorkInv(Exec(Initial(limit), labels).work)
  {
    S.InitialSessions(limit);
    S.RunKeepsReplies(Initial(limit), labels);
  }

  predicate Defers(s: State, l: Label, c: Carried) {
    l.HandlerDefers? && l.thread in s.work.threads && s.work.threads[l.thread] == c
  }

  function Deferral(c: Carried): (State, Label) -> bool {
    (s, l) => Defers(s, l, c)
  }

  /** In every run the messages that completions can answer are exactly those whose handler
      has deferred its answer. */
  lemma {:induction false} DeferredExactlyWhen(limit: nat, labels: seq<Label>, c: Carried)
    ensures c in Exec(Initial(limit), labels).work.deferred
            <==> Happens(Initial(limit), labels, Deferral(c))
    decreases |labels|
  {
    var s0 := Initial(limit);
    if labels != [] {
      var front, l := labels[..|labels| - 1], labels[|labels| - 1];
      assert labels == front + [l];
      DeferredExactlyWhen(limit, front, c);
      HappensSnoc(s0, front, l, Deferral(c));
      if Enabled(Exec(s0, front), l) {
        StepDefersExactly(Exec(s0, front), l, c);
      }
    }
  }

  lemma StepDefersExactly(s: State, l: Label, c: Carried)
    requires Enabled(s, l)
    ensures c in Step(s, l).work.deferred <==> c in s.work.deferred || Defers(s, l, c)
  {
    if Handles(l) {
      S.HandlingLeavesRest(s, l);
    } else {
      S.OthersLeaveWork(s, l);
    }
  }

  // -- Threads -----------------------------------------------------------------------------------------

  ghost predicate StartedAt(s0: State, labels: seq<Label>, i: nat, t: nat, c: Carried) {
    i < |labels| && Enabled(Exec(s0, labels[..i]), labels[i]) && labels[i] == HandlerStarts(t, c)
  }

  ghost predicate EndsBehind(s0: State, labels: seq<Label>, i: nat, t: nat) {
    exists j: nat :: i < j < |labels| && labels[j] == HandlerEnds(t) && Enabled(Exec(s0, labels[..j]), labels[j])
  }

  ghost predicate StillRuns(s0: State, labels: seq<Label>, t: nat, c: Carried) {
    exists i: nat :: StartedAt(s0, labels, i, t, c) && !EndsBehind(s0, labels, i, t)
  }

  lemma StartSnoc(s0: State, front: seq<Label>, l: Label, i: nat, t: nat, c: Carried)
    requires i < |front|
    ensures StartedAt(s0, front + [l], i, t, c) <==> StartedAt(s0, front, i, t, c)
  {
    assert (front + [l])[..i] == front[..i];
  }

  lemma EndSnoc(s0: State, front: seq<Label>, l: Label, i: nat, t: nat)
    requires i < |front|
    ensures EndsBehind(s0, front + [l], i, t)
            <==> EndsBehind(s0, front, i, t) || (l == HandlerEnds(t) && Enabled(Exec(s0, front), l))
  {
    var labels := front + [l];
    assert labels[..|front|] == front;
    assert forall j: nat :: j < |front| ==> labels[..j] == front[..j];
    if l == HandlerEnds(t) && Enabled(Exec(s0, front), l) {
      assert labels[|front|] == HandlerEnds(t);
    }
  }

  lemma RunsSnoc(s0: State, front: seq<Label>, l: Label, t: nat, c: Carried)
    ensures StillRuns(s0, front + [l], t, c)
            <==> (Enabled(Exec(s0, front), l) && l == HandlerStarts(t, c))
                 || (StillRuns(s0, front, t, c) && !(l == HandlerEnds(t) && Enabled(Exec(s0, front), l)))
  {
    var labels := front + [l];
    assert labels[..|front|] == front;
    if Enabled(Exec(s0, front), l) && l == HandlerStarts(t, c) {
      assert StartedAt(s0, labels, |front|, t, c);
    }
    if i: nat :| StartedAt(s0, front, i, t, c) && !EndsBehind(s0, front, i, t) {
      StartSnoc(s0, front, l, i, t, c);
      EndSnoc(s0, front, l, i, t);
    }
    if i: nat :| StartedAt(s0, labels, i, t, c) && !EndsBehind(s0, labels, i, t) {
      if i < |front| {
        StartSnoc(s0, front, l, i, t, c);
        EndSnoc(s0, front, l, i, t);
      }
    }
  }

  predicate Runs(w: Work, t: nat, c: Carried) {
    t in w.threads && w.threads[t] == c
  }

  lemma StepRuns(s: State, l: Label, t: nat, c: Carried)
    requires Enabled(s, l)
    ensures Runs(Step(s, l).work, t, c) <==> l == HandlerStarts(t, c) || (Runs(s.work, t, c) && l != HandlerEnds(t))
  {
    if Handles(l) {
      S.HandlingLeavesRest(s, l);
    } else {
      S.OthersLeaveWork(s, l);
    }
  }

  /** In every run a thread is in the handler of a message if and only if it started it and
      has not ended since. */
  lemma {:induction false} RunningExactlyWhen(limit: nat, labels: seq<Label>, t: nat, c: Carried)
    ensures Runs(Exec(Initial(limit), labels).work, t, c) <==> StillRuns(Initial(limit), labels, t, c)
    decreases |labels|
  {
    if labels != [] {
      var front, l := labels[..|labels| - 1], labels[|labels| - 1];
      assert labels == front + [l];
      RunningExactlyWhen(limit, front, t, c);
      RunsSnoc(Initial(limit), front, l, t, c);
      if Enabled(Exec(Initial(limit), front), l) {
        StepRuns(Exec(Initial(limit), front), l, t, c);
      }
    }
  }
}
