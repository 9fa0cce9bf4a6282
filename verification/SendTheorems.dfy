// What holds of sending, outgoing requests and shutdown in every run.
module SendTheorems {
  import opened Base
  import opened Classify
  import opened SendSide
  import T = Outgoing

  // -- Sessions ---------------------------------------------------------------------

  lemma InitialSessions(limit: nat)
    ensures SessionsInv(Initial(limit)) && WritesInv(Initial(limit)) && RepliesInv(Initial(limit))
  {
  }

  /** Across any number of stops and restarts, whatever is sent with the state of
      session g goes to the stream that g was started with. */
  lemma WritesStayInTheirSession(limit: nat, labels: seq<Label>, i: nat)
    ensures var s := Exec(Initial(limit), labels);
            |s.streams| == |s.sessions| &&
            (i < |s.writes| ==>
               s.writes[i].session < |s.streams| && s.writes[i].stream == s.streams[s.writes[i].session])
  {
    InitialSessions(limit);
    RunKeepsSessions(Initial(limit), labels);
  }

  /** The carried state is the state of the session in which the message was routed. */
  predicate Captured(w: Work, c: Carried) {
    c.message < |w.routedIn| && c.state == w.routedIn[c.message]
  }

  ghost predicate AllCaptured(w: Work, cs: multiset<Carried>) {
    forall c :: c in cs ==> Captured(w, c)
  }

  /** Parking, pooling, running and deferring a message all keep what it carries. */
  ghost predicate WorkInv(w: Work) {
    && AllCaptured(w, w.parked) && AllCaptured(w, w.pool) && AllCaptured(w, w.deferred)
    && forall t :: t in w.threads ==> Captured(w, w.threads[t])
  }

  /** What a send in session g answers was routed in g. */
  predicate AnswersInPlace(w: Work, g: nat, message: Option<nat>) {
    message.Some? ==> message.value < |w.routedIn| && g == w.routedIn[message.value]
  }

  ghost predicate RepliesInv(s: State) {
    && WorkInv(s.work)
    && (s.lock.Some? && s.lock.value.Sending? ==> AnswersInPlace(s.work, s.lock.value.session, s.lock.value.message))
    && forall i :: 0 <= i < |s.writes| ==> AnswersInPlace(s.work, s.writes[i].session, s.writes[i].message)
  }

  lemma WorkStepKeepsInv(w: Work, l: Label, current: nat)
    requires WorkInv(w) && Handles(l) && WorkEnabled(w, l)
    ensures WorkInv(WorkStep(w, l, current)) && w.routedIn <= WorkStep(w, l, current).routedIn
  {
    if l.MessageRouted? {
      RoutingKeepsInv(w, l, current);
    } else {
      MovingKeepsInv(w, l, current);
    }
  }

  lemma RoutingKeepsInv(w: Work, l: Label, current: nat)
    requires WorkInv(w) && l.MessageRouted?
    ensures WorkInv(WorkStep(w, l, current)) && w.routedIn <= WorkStep(w, l, current).routedIn
  {
    var w' := w.(routedIn := w.routedIn + [current]);
    assert forall c :: Captured(w, c) ==> Captured(w', c);
    assert WorkInv(w');
    assert Captured(w', Carried(|w.routedIn|, current));
  }

  lemma MovingKeepsInv(w: Work, l: Label, current: nat)
    requires WorkInv(w) && Handles(l) && !l.MessageRouted? && WorkEnabled(w, l)
    ensures WorkInv(WorkStep(w, l, current)) && WorkStep(w, l, current).routedIn == w.routedIn
  {
    assert forall c :: Captured(w, c) <==> Captured(WorkStep(w, l, current), c);
  }

  lemma SenderAnswersInPlace(s: State, sender: Sender)
    requires s.sessions != [] && WorkInv(s.work) && (sender.Completion? ==> sender.carried in s.work.deferred)
    ensures AnswersInPlace(s.work, SessionOf(s, sender), AnswersWhat(s.work, sender))
  {
  }

  lemma OthersLeaveWork(s: State, l: Label)
    requires Enabled(s, l) && !Handles(l)
    ensures Step(s, l).work == s.work
  {
  }

  lemma HandlingLeavesRest(s: State, l: Label)
    requires Enabled(s, l) && Handles(l)
    ensures WorkEnabled(s.work, l) && Step(s, l).work == WorkStep(s.work, l, Current(s))
    ensures Step(s, l).lock == s.lock && Step(s, l).writes == s.writes
  {
  }

  /** Only a send takes the send mutex for a message. */
  lemma LockAnswers(s: State, l: Label)
    requires Enabled(s, l)
    ensures var h := Step(s, l).lock;
            h.None? || h.value.Requesting? || h == s.lock
            || (l.SendBegins? && h == Some(Sending(SessionOf(s, l.sender), AnswersWhat(s.work, l.sender))))
  {
  }

  lemma StepKeepsReplies(s: State, l: Label)
    requires RepliesInv(s) && Enabled(s, l)
    ensures RepliesInv(Step(s, l)) && s.work.routedIn <= Step(s, l).work.routedIn
  {
    if Handles(l) {
      HandlingLeavesRest(s, l);
      WorkStepKeepsInv(s.work, l, Current(s));
    } else {
      OthersLeaveWork(s, l);
      LockStaysInPlace(s, l);
      WritesStayInPlace(s, l);
    }
  }

  lemma LockStaysInPlace(s: State, l: Label)
    requires RepliesInv(s) && Enabled(s, l)
    ensures var h := Step(s, l).lock;
            h.Some? && h.value.Sending? ==> AnswersInPlace(s.work, h.value.session, h.value.message)
  {
    LockAnswers(s, l);
    if l.SendBegins? {
      SenderAnswersInPlace(s, l.sender);
    }
  }

  lemma WritesStayInPlace(s: State, l: Label)
    requires RepliesInv(s) && Enabled(s, l)
    ensures forall i :: 0 <= i < |Step(s, l).writes| ==>
              AnswersInPlace(s.work, Step(s, l).writes[i].session, Step(s, l).writes[i].message)
  {
    WritesOnlyFromHolder(s, l);
  }

  lemma {:induction false} RunKeepsReplies(s: State, labels: seq<Label>)
    requires RepliesInv(s)
    ensures RepliesInv(Exec(s, labels)) && s.work.routedIn <= Exec(s, labels).work.routedIn
    ensures s.streams <= Exec(s, labels).streams
    decreases |labels|
  {
    if labels != [] {
      RunKeepsReplies(s, labels[..|labels| - 1]);
      var before, l := Exec(s, labels[..|labels| - 1]), labels[|labels| - 1];
      if Enabled(before, l) {
        StepKeepsReplies(before, l);
        StreamsOnlyGrow(before, l);
      }
    }
  }

  /** Whatever answers a message goes to the stream of the session in which the message
      was routed: through parking, the handler pool, its handler, an async completion
      and any number of stops and restarts in between. `at` is the state in which
      message k is routed. */
  lemma RepliesStayInTheirSession(limit: nat, before: seq<Label>, park: bool, after: seq<Label>, i: nat)
    requires Enabled(Exec(Initial(limit), before), MessageRouted(park))
    ensures var at := Exec(Initial(limit), before);
            var s := Exec(Initial(limit), before + [MessageRouted(park)] + after);
            i < |s.writes| && s.writes[i].message == Some(|at.work.routedIn|)
            ==> |at.streams| == |at.sessions| && s.writes[i].stream == at.streams[Current(at)]
  {
    var run := before + [MessageRouted(park)];
    var at := Exec(Initial(limit), before);
    InitialSessions(limit);
    RunKeepsReplies(Initial(limit), before);
    ExecSnoc(Initial(limit), before, MessageRouted(park));
    RoutedHere(at, park);
    RunKeepsReplies(Initial(limit), run);
    RunKeepsReplies(Exec(Initial(limit), run), after);
    ExecAppend(Initial(limit), run, after);
    WritesStayInTheirSession(limit, before, 0);
    WritesStayInTheirSession(limit, run + after, i);
  }

  lemma RoutedHere(at: State, park: bool)
    requires Enabled(at, MessageRouted(park))
    ensures var s := Step(at, MessageRouted(park));
            s.streams == at.streams && s.work.routedIn == at.work.routedIn + [Current(at)]
  {
  }

  ghost predicate Reset(s: State, g: nat) {
    g < |s.sessions| && s.sessions[g].output.None?
  }

  ghost predicate OnlyOthersWrote(before: seq<Write>, after: seq<Write>, g: nat) {
    before <= after && forall i :: |before| <= i < |after| ==> after[i].session != g
  }

  lemma ResetIsForever(s: State, l: Label, g: nat)
    requires SessionsInv(s) && Enabled(s, l) && Reset(s, g)
    ensures Reset(Step(s, l), g) && OnlyOthersWrote(s.writes, Step(s, l).writes, g)
  {
    WritesOnlyFromHolder(s, l);
    if ChangesSession(l) {
      ChangeKeepsReset(s, l, g);
    } else {
      OthersLeaveSessions(s, l);
    }
  }

  lemma ChangeKeepsReset(s: State, l: Label, g: nat)
    requires Enabled(s, l) && ChangesSession(l) && Reset(s, g)
    ensures Reset(Step(s, l), g)
  {
  }

  /** Once clear() has reset the output of session g under the send mutex, no later
      step of any run writes to it. */
  lemma {:induction false} NoWriteAfterReset(s: State, labels: seq<Label>, g: nat)
    requires SessionsInv(s) && WritesInv(s) && Reset(s, g)
    ensures Reset(Exec(s, labels), g) && OnlyOthersWrote(s.writes, Exec(s, labels).writes, g)
    decreases |labels|
  {
    if labels != [] {
      var front := labels[..|labels| - 1];
      NoWriteAfterReset(s, front, g);
      RunKeepsSessions(s, front);
      var before, l := Exec(s, front), labels[|labels| - 1];
      if Enabled(before, l) {
        ResetIsForever(before, l, g);
      }
    }
  }

  // -- Outgoing requests --------------------------------------------------------------

  /** Where request `token` is, apart from the table and its own callback. */
  ghost function Elsewhere(s: State, token: nat): nat {
    Bit(s.router.Some? && s.router.value.token == token) + s.tasks[token] + multiset(s.failing)[token]
    + s.withdrawn[token] + s.displaced[token] + s.dropped[token]
  }

  /** Each request is in one place: registered, on its way to its callback, withdrawn,
      displaced, dropped, or its callback has run (once). */
  ghost predicate OnePlace(s: State, token: nat) {
    if token < |s.table.infos| then
      var info := s.table.infos[token];
      && Elsewhere(s, token) + Bit(T.Holds(s.table, info.id, token)) + info.runs == 1
      && info.completed == (info.runs > 0)
      && (!info.deferred ==> s.tasks[token] == s.dropped[token] == 0)
      && (s.router.Some? && s.router.value.token == token ==> s.router.value.Deferring? == info.deferred)
    else
      Elsewhere(s, token) == 0
  }

  ghost predicate TableInv(s: State) {
    && (forall id :: id in s.table.futures ==>
          s.table.futures[id] < |s.table.infos| && s.table.infos[s.table.futures[id]].id == id)
    && (s.lock.Some? && s.lock.value.Requesting? ==>
          s.lock.value.token < |s.table.infos| && s.table.infos[s.lock.value.token].id == s.lock.value.id)
  }

  predicate Late(p: Phase) {
    !p.Working? && !p.Quitting?
  }

  /** The shutdown sequence: after routing is cleared no response is being routed,
      after the output is reset no request is being sent, after the sweep the table
      is empty; all of this lasts until the next start. */
  ghost predicate PhaseInv(s: State) {
    && (!s.phase.Working? && !s.phase.Stopped? ==> s.quit)
    && (Late(s.phase) ==> s.router.None?)
    && (s.phase.Failing? || s.phase.Stopped? ==> s.table.futures == map[])
    && (!s.phase.Failing? ==> s.failing == [])
  }

  ghost predicate Inv(s: State) {
    && SessionsInv(s) && TableInv(s) && PhaseInv(s)
    && (forall token: nat :: OnePlace(s, token))
  }

  /** Entries only leave the table and requests keep their ids. */
  ghost predicate Shrinks(t: T.Table, t': T.Table) {
    && |t'.infos| == |t.infos|
    && (forall k :: 0 <= k < |t.infos| ==> t'.infos[k].id == t.infos[k].id)
    && (forall id :: id in t'.futures ==> id in t.futures && t'.futures[id] == t.futures[id])
  }

  lemma CompletionShrinks(t: T.Table, token: nat)
    requires token < |t.infos|
    ensures Shrinks(t, T.Complete(t, token))
  {
  }

  lemma OnlyRegistrationGrows(s: State, l: Label)
    requires Enabled(s, l) && !l.RequestBegins?
    ensures Shrinks(s.table, Step(s, l).table)
  {
    match l
    case RouterFinishes => CompletionShrinks(s.table, s.router.value.token);
    case CallbackRuns(token) => CompletionShrinks(s.table, token);
    case StopFailsOne => CompletionShrinks(s.table, s.failing[0]);
    case _ => RemovalShrinks(s, l);
  }

  lemma RemovalShrinks(s: State, l: Label)
    requires Enabled(s, l) && !l.RequestBegins? && !l.RouterFinishes? && !l.CallbackRuns? && !l.StopFailsOne?
    ensures Shrinks(s.table, Step(s, l).table)
  {
    if Removes(l) {
      OneRemovalShrinks(s, l);
    } else {
      OthersKeepEntries(s, l);
    }
  }

  predicate Removes(l: Label) {
    l.RequestWrites? || l.TimesOut? || l.ResponseRouted? || l.StopSweeps?
  }

  lemma OneRemovalShrinks(s: State, l: Label)
    requires Enabled(s, l) && Removes(l)
    ensures Shrinks(s.table, Step(s, l).table)
  {
    if l.RequestWrites? {
      assert Shrinks(s.table, RequestWriteStep(s, l.ok).table);
    } else if l.TimesOut? {
      assert Shrinks(s.table, TimeoutStep(s, s.table.infos[l.token].id).table);
    } else if l.ResponseRouted? {
      assert Shrinks(s.table, RouteStep(s, l.id, l.token).table);
    }
  }

  lemma OthersKeepEntries(s: State, l: Label)
    requires Enabled(s, l) && !Removes(l)
    requires !l.RequestBegins? && !l.RouterFinishes? && !l.CallbackRuns? && !l.StopFailsOne?
    ensures Step(s, l).table.futures == s.table.futures && Step(s, l).table.infos == s.table.infos
  {
  }

  lemma LockOnlyForSends(s: State, l: Label)
    requires Enabled(s, l) && !l.RequestBegins?
    ensures Step(s, l).lock == s.lock || Step(s, l).lock.None? || Step(s, l).lock.value.Sending?
  {
  }

  lemma ShrinkKeepsTable(s: State, s': State)
    requires TableInv(s) && Shrinks(s.table, s'.table)
    requires s'.lock == s.lock || s'.lock.None? || s'.lock.value.Sending?
    ensures TableInv(s')
  {
  }

  lemma RegisterKeepsTable(s: State, l: Label)
    requires TableInv(s) && Enabled(s, l) && l.RequestBegins?
    ensures TableInv(Step(s, l))
  {
  }

  lemma StepKeepsTable(s: State, l: Label)
    requires TableInv(s) && Enabled(s, l)
    ensures TableInv(Step(s, l))
  {
    if l.RequestBegins? {
      RegisterKeepsTable(s, l);
    } else {
      OnlyRegistrationGrows(s, l);
      LockOnlyForSends(s, l);
      ShrinkKeepsTable(s, Step(s, l));
    }
  }

  lemma StepKeepsPhase(s: State, l: Label)
    requires SessionsInv(s) && PhaseInv(s) && Enabled(s, l)
    ensures PhaseInv(Step(s, l))
  {
    if IsPhaseStep(l) {
      PhaseStepKeepsPhase(s, l);
    } else {
      OthersLeavePhase(s, l);
      if Late(s.phase) { RoutersNeedRouting(s, l); }
      if s.phase.Failing? || s.phase.Stopped? { TableStaysEmpty(s, l); }
    }
  }

  predicate IsPhaseStep(l: Label) {
    l.StopQuits? || l.StopClearsRouting? || l.StopDeactivates? || l.StopResetsOutput? || l.StopSweeps?
    || l.StopFailsOne? || l.StopEnds? || l.Starts?
  }

  lemma PhaseStepKeepsPhase(s: State, l: Label)
    requires PhaseInv(s) && Enabled(s, l) && IsPhaseStep(l)
    ensures PhaseInv(Step(s, l))
  {
  }

  lemma OthersLeavePhase(s: State, l: Label)
    requires Enabled(s, l) && !IsPhaseStep(l)
    ensures Step(s, l).phase == s.phase && Step(s, l).quit == s.quit && Step(s, l).failing == s.failing
  {
  }

  /** No response is being routed once routing has been cleared. */
  lemma RoutersNeedRouting(s: State, l: Label)
    requires PhaseInv(s) && Enabled(s, l) && !IsPhaseStep(l) && Late(s.phase)
    ensures Step(s, l).router.None?
  {
  }

  /** Nothing registers once the output has been reset. */
  lemma TableStaysEmpty(s: State, l: Label)
    requires SessionsInv(s) && PhaseInv(s) && Enabled(s, l) && !IsPhaseStep(l) && (s.phase.Failing? || s.phase.Stopped?)
    ensures Step(s, l).table.futures == map[]
  {
    if l.RequestBegins? {
      assert !Open(s.sessions[Current(s)]);
    } else {
      OnlyRegistrationGrows(s, l);
    }
  }

  lemma RegisterKeepsOnePlace(s: State, l: Label, token: nat)
    requires l.RequestBegins? && Enabled(s, l) && TableInv(s) && OnePlace(s, token)
    ensures OnePlace(Step(s, l), token)
  {
  }

  lemma SweepKeepsOnePlace(s: State, token: nat)
    requires Enabled(s, StopSweeps) && TableInv(s) && s.failing == [] && OnePlace(s, token)
    ensures OnePlace(Step(s, StopSweeps), token)
  {
    SweptCount(s, token);
    HeldExactlyWhen(s, token);
  }

  lemma SweptCount(s: State, token: nat)
    requires Enabled(s, StopSweeps)
    ensures multiset(Step(s, StopSweeps).failing)[token] == Bit(token in s.table.futures.Values)
  {
    DistinctCount(TokensOf(s.table.futures), token);
  }

  lemma HeldExactlyWhen(s: State, token: nat)
    requires TableInv(s)
    ensures token in s.table.futures.Values
            <==> token < |s.table.infos| && T.Holds(s.table, s.table.infos[token].id, token)
  {
    if token in s.table.futures.Values {
      var id :| id in s.table.futures && s.table.futures[id] == token;
    }
  }

  lemma {:induction false} DistinctCount(list: seq<nat>, k: nat)
    requires forall i, j :: 0 <= i < j < |list| ==> list[i] != list[j]
    ensures multiset(list)[k] == Bit(k in list)
  {
    if list != [] {
      var tail := list[1..];
      assert list == [list[0]] + tail;
      DistinctCount(tail, k);
    }
  }

  lemma FailOneKeepsOnePlace(s: State, token: nat)
    requires Enabled(s, StopFailsOne) && OnePlace(s, token) && OnePlace(s, s.failing[0])
    ensures OnePlace(Step(s, StopFailsOne), token)
  {
    assert s.failing == [s.failing[0]] + s.failing[1..];
  }

  /** Steps that take one request from one place to another. */
  predicate Moves(l: Label) {
    l.RequestWrites? || l.TimesOut? || l.ResponseRouted? || l.RouterFinishes? || l.CallbackRuns? || l.CallbackAbandoned?
  }

  lemma QuietStepsKeepPlaces(s: State, l: Label, token: nat)
    requires Enabled(s, l) && !Moves(l) && !l.RequestBegins? && !l.StopSweeps? && !l.StopFailsOne?
    ensures var s' := Step(s, l);
            && Elsewhere(s', token) == Elsewhere(s, token) && s'.tasks == s.tasks && s'.dropped == s.dropped
            && s'.router == s.router && s'.table.infos == s.table.infos && s'.table.futures == s.table.futures
  {
  }

  lemma TimeoutKeepsOnePlace(s: State, id: Id, token: nat)
    requires TableInv(s) && OnePlace(s, token)
    ensures OnePlace(TimeoutStep(s, id), token)
  {
  }

  lemma WriteKeepsOnePlace(s: State, ok: bool, token: nat)
    requires Enabled(s, RequestWrites(ok)) && TableInv(s) && OnePlace(s, token)
    ensures OnePlace(Step(s, RequestWrites(ok)), token)
  {
  }

  lemma RoutingKeepsOnePlace(s: State, l: Label, token: nat)
    requires Enabled(s, l) && TableInv(s) && OnePlace(s, token) && l.ResponseRouted?
    ensures OnePlace(Step(s, l), token)
  {
    RouteStepKeepsOnePlace(s, l.id, l.token, token);
  }

  lemma RouteStepKeepsOnePlace(s: State, id: Id, routed: nat, token: nat)
    requires Known(s, routed) && s.router.None? && TableInv(s) && OnePlace(s, token)
    ensures OnePlace(RouteStep(s, id, routed), token)
  {
  }

  /** Running a callback that has not completed: its one place becomes its run. */
  lemma CompletionAt(t: T.Table, token: nat, k: nat)
    requires token < |t.infos| && k < |t.infos|
    ensures var t' := T.Complete(t, token);
            && t'.futures == t.futures && |t'.infos| == |t.infos|
            && (k != token ==> t'.infos[k] == t.infos[k])
            && t'.infos[k].id == t.infos[k].id && t'.infos[k].deferred == t.infos[k].deferred
            && (k == token ==> t'.infos[k].completed
                               && t'.infos[k].runs == t.infos[k].runs + Bit(!t.infos[k].completed))
  {
  }

  lemma RouterKeepsOnePlace(s: State, token: nat)
    requires Enabled(s, RouterFinishes) && OnePlace(s, token)
    ensures OnePlace(Step(s, RouterFinishes), token)
  {
    if token < |s.table.infos| {
      CompletionAt(s.table, s.router.value.token, token);
    }
  }

  lemma CallbackKeepsOnePlace(s: State, l: Label, token: nat)
    requires Enabled(s, l) && OnePlace(s, token) && (l.CallbackRuns? || l.CallbackAbandoned?)
    ensures OnePlace(Step(s, l), token)
  {
    if l.CallbackRuns? {
      DeferredKeepsOnePlace(s, l.token, token);
    } else {
      AbandonedKeepsOnePlace(s, l.token, token);
    }
  }

  lemma DeferredKeepsOnePlace(s: State, runs: nat, token: nat)
    requires Enabled(s, CallbackRuns(runs)) && OnePlace(s, token)
    ensures OnePlace(Step(s, CallbackRuns(runs)), token)
  {
    OneLess(s.tasks, runs);
    if token < |s.table.infos| {
      CompletionAt(s.table, runs, token);
    }
  }

  lemma AbandonedKeepsOnePlace(s: State, dropped: nat, token: nat)
    requires Enabled(s, CallbackAbandoned(dropped)) && OnePlace(s, token)
    ensures OnePlace(Step(s, CallbackAbandoned(dropped)), token)
  {
    OneLess(s.tasks, dropped);
    OneMore(s.dropped, dropped);
  }

  lemma OtherStepsKeepOnePlace(s: State, l: Label, token: nat)
    requires Enabled(s, l) && TableInv(s) && OnePlace(s, token)
    requires !l.RequestBegins? && !l.StopSweeps? && !l.StopFailsOne?
    ensures OnePlace(Step(s, l), token)
  {
    if !Moves(l) {
      QuietStepsKeepPlaces(s, l, token);
    } else if l.RequestWrites? {
      WriteKeepsOnePlace(s, l.ok, token);
    } else if l.TimesOut? {
      TimeoutKeepsOnePlace(s, s.table.infos[l.token].id, token);
    } else if l.ResponseRouted? {
      RoutingKeepsOnePlace(s, l, token);
    } else if l.RouterFinishes? {
      RouterKeepsOnePlace(s, token);
    } else {
      CallbackKeepsOnePlace(s, l, token);
    }
  }

  lemma StepKeepsInv(s: State, l: Label)
    requires Inv(s) && Enabled(s, l)
    ensures Inv(Step(s, l))
  {
    StepKeepsSessions(s, l);
    StepKeepsTable(s, l);
    StepKeepsPhase(s, l);
    forall token: nat ensures OnePlace(Step(s, l), token) {
      assert OnePlace(s, token);
      if l.RequestBegins? {
        RegisterKeepsOnePlace(s, l, token);
      } else if l.StopSweeps? {
        SweepKeepsOnePlace(s, token);
      } else if l.StopFailsOne? {
        assert OnePlace(s, s.failing[0]);
        FailOneKeepsOnePlace(s, token);
      } else {
        OtherStepsKeepOnePlace(s, l, token);
      }
    }
  }

  lemma {:induction false} EveryRunKeepsInv(limit: nat, labels: seq<Label>)
    ensures Inv(Exec(Initial(limit), labels))
    decreases |labels|
  {
    if labels != [] {
      EveryRunKeepsInv(limit, labels[..|labels| - 1]);
      var before, l := Exec(Initial(limit), labels[..|labels| - 1]), labels[|labels| - 1];
      if Enabled(before, l) {
        StepKeepsInv(before, l);
      }
    }
  }

  /** An outgoing request's callback runs at most once under any mix of duplicate
      responses, responses matched to an older request with the same id, timeouts,
      failed writes, stops and restarts. */
  lemma CallbackRunsAtMostOnce(limit: nat, labels: seq<Label>, token: nat)
    ensures var t := Exec(Initial(limit), labels).table;
            token < |t.infos| ==> t.infos[token].runs <= 1
  {
    EveryRunKeepsInv(limit, labels);
    assert OnePlace(Exec(Initial(limit), labels), token);
  }

  /** When stop has returned, every request whose callback is not deferred has run
      it exactly once, unless a timeout or a failed write withdrew it or another
      request displaced it: nothing registers after the shutdown sweep. */
  lemma StopCompletesRequests(limit: nat, labels: seq<Label>, token: nat)
    ensures var s := Exec(Initial(limit), labels);
            s.phase.Stopped? && token < |s.table.infos| && !s.table.infos[token].deferred
            ==> (s.table.infos[token].runs == 1 <==> token !in s.withdrawn && token !in s.displaced)
  {
    EveryRunKeepsInv(limit, labels);
    assert OnePlace(Exec(Initial(limit), labels), token);
  }

  // -- Timeouts -------------------------------------------------------------------------

  /** A timeout withdraws its own request if and only if that request still holds its id;
      if another one holds the id, that one is withdrawn instead. */
  lemma TimeoutWithdrawsExactly(s: State, token: nat, other: nat)
    requires Enabled(s, TimesOut(token)) && other != token
    ensures var id, s' := s.table.infos[token].id, Step(s, TimesOut(token));
            && s'.withdrawn[token] == s.withdrawn[token] + Bit(T.Holds(s.table, id, token))
            && s'.withdrawn[other] == s.withdrawn[other] + Bit(T.Holds(s.table, id, other))
            && s'.table.futures == s.table.futures - {id}
  {
    var id := s.table.infos[token].id;
    if id !in s.table.futures {
      assert s.table.futures - {id} == s.table.futures;
    }
  }

  /** Another request is hit exactly when the id is in the table and not the waiter's. */
  lemma TimeoutHitsAnotherExactlyWhen(s: State, token: nat)
    requires Enabled(s, TimesOut(token))
    ensures var id, s' := s.table.infos[token].id, Step(s, TimesOut(token));
            (exists other: nat :: other != token && s'.withdrawn[other] > s.withdrawn[other])
            <==> id in s.table.futures && s.table.futures[id] != token
  {
    var id, s' := s.table.infos[token].id, Step(s, TimesOut(token));
    forall other: nat | other != token
      ensures s'.withdrawn[other] == s.withdrawn[other] + Bit(T.Holds(s.table, id, other))
    {
      TimeoutWithdrawsExactly(s, token, other);
    }
    if id in s.table.futures && s.table.futures[id] != token {
      assert T.Holds(s.table, id, s.table.futures[id]);
      assert s'.withdrawn[s.table.futures[id]] > s.withdrawn[s.table.futures[id]];
    }
  }

  /** An open session in which nobody is sending or routing. */
  predicate Calm(s: State) {
    s.sessions != [] && s.lock.None? && s.router.None? && !s.quit && s.limit == 0 && Open(s.sessions[Current(s)])
  }

  function SendRun(id: Id): seq<Label> {
    [RequestBegins(Some(id), false)] + [RequestWrites(true)]
  }

  function AnswerRun(id: Id, token: nat): seq<Label> {
    [ResponseParsed(id)] + [ResponseRouted(id, token)] + [RouterFinishes]
  }

  lemma RequestRegisters(s: State, id: Id)
    requires Calm(s) && id !in s.table.futures
    ensures var s' := Exec(s, [RequestBegins(Some(id), false)]);
            && s' == s.(table := T.Register(s.table, Some(id), false),
                        lock := Some(Requesting(Current(s), id, |s.table.infos|)))
  {
    ExecSnoc(s, [], RequestBegins(Some(id), false));
    assert [] + [RequestBegins(Some(id), false)] == [RequestBegins(Some(id), false)];
  }

  lemma RequestIsSent(s: State, id: Id)
    requires Calm(s) && id !in s.table.futures
    ensures var s' := Exec(s, SendRun(id));
            && Calm(s') && s'.table == T.Register(s.table, Some(id), false) && s'.withdrawn == s.withdrawn
  {
    RequestRegisters(s, id);
    ExecSnoc(s, [RequestBegins(Some(id), false)], RequestWrites(true));
  }

  lemma ResponseIsParsed(s: State, id: Id)
    requires s.sessions != [] && id in s.table.futures
    ensures Exec(s, [ResponseParsed(id)]) == s.(responses := s.responses + multiset{(id, s.table.futures[id])})
  {
    ParsingRemembers(s, id);
    ExecSnoc(s, [], ResponseParsed(id));
    assert [] + [ResponseParsed(id)] == [ResponseParsed(id)];
  }

  lemma ParsingRemembers(s: State, id: Id)
    requires s.sessions != [] && id in s.table.futures
    ensures Enabled(s, ResponseParsed(id))
    ensures Step(s, ResponseParsed(id)) == s.(responses := s.responses + multiset{(id, s.table.futures[id])})
  {
  }

  lemma ResponseIsRouted(s: State, id: Id, token: nat)
    requires Calm(s) && (id, token) in s.responses && token < |s.table.infos| && !s.table.infos[token].deferred
    requires T.Holds(s.table, id, token)
    ensures Enabled(s, ResponseRouted(id, token))
    ensures Step(s, ResponseRouted(id, token))
            == s.(responses := s.responses - multiset{(id, token)}, table := T.Remove(s.table, id),
                  router := Some(Completing(token)))
  {
  }

  lemma RequestIsAnswered(s: State, id: Id, token: nat)
    requires Calm(s) && token < |s.table.infos| && !s.table.infos[token].deferred && T.Holds(s.table, id, token)
    ensures var s' := Exec(s, AnswerRun(id, token));
            Calm(s') && s'.table == T.Complete(T.Remove(s.table, id), token) && s'.withdrawn == s.withdrawn
  {
    ResponseRemoves(s, id, token);
    ExecSnoc(s, [ResponseParsed(id)] + [ResponseRouted(id, token)], RouterFinishes);
    FinishCompletes(Exec(s, [ResponseParsed(id)] + [ResponseRouted(id, token)]), token);
  }

  lemma ResponseRemoves(s: State, id: Id, token: nat)
    requires Calm(s) && token < |s.table.infos| && !s.table.infos[token].deferred && T.Holds(s.table, id, token)
    ensures var s' := Exec(s, [ResponseParsed(id)] + [ResponseRouted(id, token)]);
            && Calm(s'.(router := None)) && s'.router == Some(Completing(token))
            && s'.table == T.Remove(s.table, id) && s'.withdrawn == s.withdrawn
  {
    ResponseIsParsed(s, id);
    ResponseIsRouted(Exec(s, [ResponseParsed(id)]), id, token);
    ExecSnoc(s, [ResponseParsed(id)], ResponseRouted(id, token));
  }

  lemma FinishCompletes(s: State, token: nat)
    requires s.sessions != [] && s.router == Some(Completing(token)) && token < |s.table.infos|
    ensures Enabled(s, RouterFinishes)
    ensures Step(s, RouterFinishes) == s.(table := T.Complete(s.table, token), router := None)
  {
  }

  /** In any open, idle session: a request is sent and answered, its id is used again,
      and only then does the waiter of the first, whose time was up before the answer
      came, remove the entry. The second request is withdrawn. */
  lemma TimeoutCanWithdrawAnother(s: State, id: Id)
    requires Calm(s) && id !in s.table.futures
    ensures var first := |s.table.infos|;
            var run := SendRun(id) + AnswerRun(id, first) + SendRun(id) + [TimesOut(first)];
            Exec(s, run).withdrawn[first + 1] == s.withdrawn[first + 1] + 1
  {
    var first := |s.table.infos|;
    RequestIsSent(s, id);
    var s1 := Exec(s, SendRun(id));
    RequestIsAnswered(s1, id, first);
    var s2 := Exec(s1, AnswerRun(id, first));
    ExecAppend(s, SendRun(id), AnswerRun(id, first));
    RequestIsSent(s2, id);
    var s3 := Exec(s2, SendRun(id));
    ExecAppend(s, SendRun(id) + AnswerRun(id, first), SendRun(id));
    ExecSnoc(s, SendRun(id) + AnswerRun(id, first) + SendRun(id), TimesOut(first));
    SecondIsHeld(s.table, id);
    TimeoutWithdrawsExactly(s3, first, first + 1);
  }

  lemma SecondIsHeld(t: T.Table, id: Id)
    requires id !in t.futures
    ensures var first := |t.infos|;
            var t3 := T.Register(T.Complete(T.Remove(T.Register(t, Some(id), false), id), first), Some(id), false);
            |t3.infos| == first + 2 && t3.infos[first].id == id && T.Holds(t3, id, first + 1)
  {
  }

  // -- Explicit numbers --------------------------------------------------------------------

  /** Explicit numeric ids come from createRequest. */
  predicate Disciplined(s: State, l: Label) {
    l.RequestBegins? && l.explicit.Some? ==>
      l.explicit.value.StringId? || (l.explicit.value.IntId? && l.explicit.value.number < s.table.nextId)
  }

  ghost predicate NumbersTaken(t: T.Table) {
    forall id :: id in t.futures ==> id != NoId && (id.IntId? ==> id.number < t.nextId)
  }

  lemma DisciplineStep(s: State, l: Label)
    requires Enabled(s, l) && Disciplined(s, l) && NumbersTaken(s.table)
    ensures NumbersTaken(Step(s, l).table) && Step(s, l).displaced == s.displaced
  {
    if !l.RequestBegins? {
      OnlyRegistrationGrows(s, l);
      OthersKeepCounter(s, l);
    }
  }

  lemma OthersKeepCounter(s: State, l: Label)
    requires Enabled(s, l) && !l.RequestBegins?
    ensures Step(s, l).table.nextId >= s.table.nextId && Step(s, l).displaced == s.displaced
  {
  }

  /** If explicit ids are strings or come from createRequest, no request is ever
      displaced, so only its own id's timeout or a failed write can withdraw it. */
  lemma {:induction false} DisciplineDisplacesNothing(limit: nat, labels: seq<Label>)
    requires forall i :: 0 <= i < |labels| ==> Disciplined(Exec(Initial(limit), labels[..i]), labels[i])
    ensures NumbersTaken(Exec(Initial(limit), labels).table)
    ensures Exec(Initial(limit), labels).displaced == multiset{}
    decreases |labels|
  {
    if labels != [] {
      var front, l := labels[..|labels| - 1], labels[|labels| - 1];
      forall i | 0 <= i < |front| ensures Disciplined(Exec(Initial(limit), front[..i]), front[i]) {
        assert front[..i] == labels[..i] && front[i] == labels[i];
      }
      DisciplineDisplacesNothing(limit, front);
      assert labels[..|front|] == front && Disciplined(Exec(Initial(limit), front), l);
      if Enabled(Exec(Initial(limit), front), l) {
        DisciplineStep(Exec(Initial(limit), front), l);
      }
    }
  }

  /** A request is displaced exactly when one without an id draws a number in use. */
  lemma DisplacesExactlyWhen(s: State, l: Label)
    requires Enabled(s, l)
    ensures Step(s, l).displaced != s.displaced
            <==> l.RequestBegins? && l.explicit.None? && Open(s.sessions[Current(s)])
                 && !T.Refused(s.table, None, s.limit) && IntId(s.table.nextId) in s.table.futures
  {
    if l.RequestBegins? && Step(s, l).displaced != s.displaced {
      var key := T.ChosenId(s.table, l.explicit);
      assert Step(s, l).displaced == s.displaced + multiset{s.table.futures[key]};
    }
    if l.RequestBegins? && l.explicit.None? && IntId(s.table.nextId) in s.table.futures {
      var k := s.table.futures[IntId(s.table.nextId)];
      assert (s.displaced + multiset{k})[k] == s.displaced[k] + 1;
    }
  }

  /** The discipline is needed: in any open, idle session, choosing the next number
      explicitly and then sending a request without an id displaces the first. */
  lemma ExplicitNumbersCanBeDisplaced(s: State)
    requires s.sessions != [] && s.lock.None? && s.limit == 0 && Open(s.sessions[Current(s)])
    requires IntId(s.table.nextId) !in s.table.futures
    ensures var first := RequestBegins(Some(IntId(s.table.nextId)), false);
            var s1 := Step(s, first);
            Enabled(s1, RequestWrites(true)) &&
            var s2 := Step(s1, RequestWrites(true));
            Enabled(s2, RequestBegins(None, false)) &&
            |s.table.infos| in Step(s2, RequestBegins(None, false)).displaced
  {
  }

  // -- The sweep of a stop ends -----------------------------------------------------------

  /** The steps of a stop up to the end of failPendingRequests, and the steps that let go
      of the two locks it takes on the way. */
  predicate Stopping(l: Label) {
    LetsGo(l) || AdvancesStop(l)
  }

  predicate LetsGo(l: Label) {
    l.SendWrites? || l.RequestWrites? || l.RouterFinishes?
  }

  predicate AdvancesStop(l: Label) {
    l.StopClearsRouting? || l.StopDeactivates? || l.StopResetsOutput? || l.StopSweeps? || l.StopFailsOne? || l.StopEnds?
  }

  function PhaseWork(p: Phase): nat {
    match p
    case Working => 7
    case Quitting => 6
    case RoutingCleared => 5
    case Inactive => 4
    case OutputReset => 3
    case Failing => 2
    case Stopped => 0
  }

  /** What is left for the sweep to do. */
  ghost function StopWork(s: State): nat {
    PhaseWork(s.phase) + Bit(s.lock.Some?) + Bit(s.router.Some?) + |s.table.futures.Values| + |s.failing|
  }

  lemma {:induction false} ListedLength(tokens: set<nat>)
    ensures |Listed(tokens)| == |tokens|
  {
    if tokens != {} {
      var k :| k in tokens && Listed(tokens) == [k] + Listed(tokens - {k});
      ListedLength(tokens - {k});
    }
  }

  lemma FewerValues(futures: map<Id, nat>, id: Id)
    ensures |(futures - {id}).Values| <= |futures.Values|
  {
    var a, b := (futures - {id}).Values, futures.Values;
    assert a <= b;
    assert b == a + (b - a);
  }

  lemma NoValues(futures: map<Id, nat>)
    requires futures == map[]
    ensures |futures.Values| == 0
  {
    assert futures.Values == {};
  }

  lemma SweptLength(s: State)
    requires Enabled(s, StopSweeps)
    ensures |Step(s, StopSweeps).failing| == |s.table.futures.Values|
  {
    ListedLength(s.table.futures.Values);
  }

  lemma SweepWorks(s: State)
    requires Enabled(s, StopSweeps) && s.failing == []
    ensures StopWork(Step(s, StopSweeps)) < StopWork(s)
  {
    SweptLength(s);
    NoValues(Step(s, StopSweeps).table.futures);
  }

  lemma WriteWorks(s: State, ok: bool)
    requires Enabled(s, RequestWrites(ok))
    ensures StopWork(Step(s, RequestWrites(ok))) < StopWork(s)
  {
    FewerValues(s.table.futures, s.lock.value.id);
  }

  /** Every such step brings the sweep nearer to its end. */
  lemma SweepingWorks(s: State, l: Label)
    requires PhaseInv(s) && Stopping(l) && Enabled(s, l)
    ensures StopWork(Step(s, l)) < StopWork(s)
  {
    if l.StopSweeps? {
      SweepWorks(s);
    } else if l.RequestWrites? {
      WriteWorks(s, l.ok);
    } else if LetsGo(l) {
      LettingGoWorks(s, l);
    } else {
      AdvancingWorks(s, l);
    }
  }

  lemma LettingGoWorks(s: State, l: Label)
    requires Enabled(s, l) && (l.SendWrites? || l.RouterFinishes?)
    ensures StopWork(Step(s, l)) < StopWork(s)
  {
  }

  lemma AdvancingWorks(s: State, l: Label)
    requires Enabled(s, l) && AdvancesStop(l) && !l.StopSweeps?
    ensures StopWork(Step(s, l)) < StopWork(s)
  {
  }

  /** Once a stop has begun, one of them is enabled until its sweep has ended. */
  lemma SweepNeverHangs(s: State) returns (l: Label)
    requires Inv(s) && !s.phase.Working? && !s.phase.Stopped?
    ensures Stopping(l) && Enabled(s, l)
  {
    match s.phase
    case Quitting =>
      if s.router.Some? {
        assert OnePlace(s, s.router.value.token);
        l := RouterFinishes;
      } else {
        l := StopClearsRouting;
      }
    case RoutingCleared => l := StopDeactivates;
    case Inactive =>
      if s.lock.None? {
        l := StopResetsOutput;
      } else {
        l := if s.lock.value.Sending? then SendWrites(true) else RequestWrites(true);
      }
    case OutputReset => l := StopSweeps;
    case Failing =>
      if s.failing == [] {
        l := StopEnds;
      } else {
        assert OnePlace(s, s.failing[0]) && s.failing[0] in multiset(s.failing);
        l := StopFailsOne;
      }
  }

  /** The sweep of a stop that has begun in any reachable state can run to its end: the
      send mutex and route_dispatch_mutex are always let go. */
  lemma {:induction false} SweepCanFinish(limit: nat, labels: seq<Label>) returns (more: seq<Label>)
    requires !Exec(Initial(limit), labels).phase.Working?
    ensures Exec(Initial(limit), labels + more).phase.Stopped?
    ensures forall i :: 0 <= i < |more| ==> Stopping(more[i])
    decreases StopWork(Exec(Initial(limit), labels))
  {
    var s := Exec(Initial(limit), labels);
    if s.phase.Stopped? {
      more := [];
      assert labels + more == labels;
    } else {
      var l := SweepGoesOn(limit, labels);
      var rest := SweepCanFinish(limit, labels + [l]);
      more := [l] + rest;
      Reassociate(labels, [l], rest);
    }
  }

  lemma SweepGoesOn(limit: nat, labels: seq<Label>) returns (l: Label)
    requires var s := Exec(Initial(limit), labels); !s.phase.Working? && !s.phase.Stopped?
    ensures Stopping(l)
    ensures var s, s' := Exec(Initial(limit), labels), Exec(Initial(limit), labels + [l]);
            !s'.phase.Working? && StopWork(s') < StopWork(s)
  {
    var s := Exec(Initial(limit), labels);
    EveryRunKeepsInv(limit, labels);
    l := SweepNeverHangs(s);
    SweepingWorks(s, l);
    ExecSnoc(Initial(limit), labels, l);
    SweepStays(s, l);
  }

  lemma SweepStays(s: State, l: Label)
    requires !s.phase.Working? && Stopping(l) && Enabled(s, l)
    ensures !Step(s, l).phase.Working?
  {
  }

  function OneFailed(s: State): State
    requires s.failing != [] && Known(s, s.failing[0])
  {
    s.(table := T.Complete(s.table, s.failing[0]), failing := s.failing[1..])
  }

  lemma FailingStep(s: State)
    requires Enabled(s, StopFailsOne)
    ensures Step(s, StopFailsOne) == OneFailed(s)
  {
  }

  predicate AllKnown(t: T.Table, tokens: seq<nat>) {
    forall i :: 0 <= i < |tokens| ==> tokens[i] < |t.infos|
  }

  lemma KnownStays(t: T.Table, tokens: seq<nat>)
    requires AllKnown(t, tokens) && tokens != []
    ensures AllKnown(T.Complete(t, tokens[0]), tokens[1..])
    ensures T.CompleteAll(t, tokens) == T.CompleteAll(T.Complete(t, tokens[0]), tokens[1..])
  {
  }

  /** The state after all failing steps. */
  function AllFailed(s: State): State
    requires AllKnown(s.table, s.failing)
    decreases |s.failing|
  {
    if s.failing == [] then s else AllFailed(OneFailed(s))
  }

  /** The failing steps together are failPendingRequests' loop: all listed requests are
      completed, in order. */
  lemma {:induction false} FailingIsCompleteAll(s: State)
    requires AllKnown(s.table, s.failing)
    ensures AllFailed(s) == s.(table := T.CompleteAll(s.table, s.failing), failing := [])
    decreases |s.failing|
  {
    if s.failing != [] {
      KnownStays(s.table, s.failing);
      FailingIsCompleteAll(OneFailed(s));
    }
  }

  /** Nobody takes the send mutex to write once the session is inactive, so only the
      writer that holds it can delay the stop. */
  lemma InactiveMeansNoNewWriter(s: State, l: Label)
    requires SessionsInv(s) && Enabled(s, l) && !s.sessions[Current(s)].active && s.lock.None?
    ensures Step(s, l).lock.None?
  {
  }
}
