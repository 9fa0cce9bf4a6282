// What sends, requests and responses do, exactly.
module SendEffects {
  import opened Base
  import opened Classify
  import opened SendSide
  import T = Outgoing
  import S = SendTheorems
  import R = SendRuns

  // -- Sends ---------------------------------------------------------------------------------

  /** A send on an open session ends up on that session's stream, on behalf of the message
      it answers; on any other session it leaves everything as it was. */
  lemma SendWritesExactly(s: State, sender: Sender)
    requires SessionsInv(s) && Enabled(s, SendBegins(sender))
    ensures var g, s1 := SessionOf(s, sender), Step(s, SendBegins(sender));
            if s.sessions[g].active && s.sessions[g].output.Some? then
              Enabled(s1, SendWrites(true))
              && Step(s1, SendWrites(true)).writes == s.writes + [Write(g, s.streams[g], AnswersWhat(s.work, sender))]
            else s1 == s
  {
    SendTakesLock(s, sender);
    if Open(s.sessions[SessionOf(s, sender)]) {
      HolderWrites(Step(s, SendBegins(sender)));
    }
  }

  lemma SendTakesLock(s: State, sender: Sender)
    requires Enabled(s, SendBegins(sender))
    ensures var g := SessionOf(s, sender);
            Step(s, SendBegins(sender))
            == if Open(s.sessions[g]) then s.(lock := Some(Sending(g, AnswersWhat(s.work, sender)))) else s
  {
  }

  lemma HolderWrites(s: State)
    requires s.sessions != [] && s.lock.Some? && s.lock.value.Sending? && s.lock.value.session < |s.sessions|
    requires s.sessions[s.lock.value.session].output.Some?
    ensures Enabled(s, SendWrites(true))
    ensures var h := s.lock.value;
            Step(s, SendWrites(true)).writes
            == s.writes + [Write(h.session, s.sessions[h.session].output.value, h.message)]
  {
  }

  // -- Requests -------------------------------------------------------------------------------

  /** What an outgoing request needs to be registered. */
  predicate Acceptable(s: State, explicit: Option<Id>)
    requires s.sessions != []
  {
    && s.sessions[Current(s)].active && s.sessions[Current(s)].output.Some?
    && (s.limit == 0 || |s.table.futures| < s.limit)
    && (explicit.Some? ==> explicit.value !in s.table.futures)
  }

  /** A request is registered if and only if the session is open, the table has room and
      an explicit id is unused; it then holds its id, an automatic one being the next
      number, and is about to be written to the current session. */
  lemma RegistersExactlyWhen(s: State, explicit: Option<Id>, deferred: bool)
    requires Enabled(s, RequestBegins(explicit, deferred))
    ensures var s' := Step(s, RequestBegins(explicit, deferred));
            var id := if explicit.Some? then explicit.value else IntId(s.table.nextId);
            if Acceptable(s, explicit) then
              && s'.table.infos == s.table.infos + [T.Info(id, deferred, false, 0)]
              && s'.table.futures == s.table.futures[id := |s.table.infos|]
              && s'.table.nextId == s.table.nextId + Bit(explicit.None?)
              && s'.lock == Some(Requesting(Current(s), id, |s.table.infos|))
            else s' == s
  {
    assert Step(s, RequestBegins(explicit, deferred)) == RequestStep(s, explicit, deferred);
  }

  /** Writing a request puts it on its session's stream and leaves it registered; a write
      that fails takes back the registration, and nothing else. */
  lemma RequestWriteExactly(s: State, ok: bool)
    requires SessionsInv(s) && Enabled(s, RequestWrites(ok))
    ensures var h, s' := s.lock.value, Step(s, RequestWrites(ok));
            if ok then s'.writes == s.writes + [Write(h.session, s.streams[h.session], None)] && s'.table == s.table
            else
              && s'.writes == s.writes && s'.table.infos == s.table.infos
              && (T.Holds(s.table, h.id, h.token) ==> s'.table.futures == s.table.futures - {h.id})
              && (!T.Holds(s.table, h.id, h.token) ==> s'.table.futures == s.table.futures)
  {
    assert Step(s, RequestWrites(ok)) == RequestWriteStep(s, ok);
  }

  lemma SmallerMap(a: map<Id, nat>, b: map<Id, nat>)
    requires forall id :: id in a ==> id in b
    ensures |a| <= |b|
  {
    assert a.Keys <= b.Keys;
    assert b.Keys == a.Keys + (b.Keys - a.Keys);
  }

  lemma StepKeepsBound(s: State, l: Label)
    requires Enabled(s, l) && s.limit != 0 && |s.table.futures| <= s.limit
    ensures |Step(s, l).table.futures| <= s.limit
  {
    if l.RequestBegins? {
      RegistersExactlyWhen(s, l.explicit, l.deferred);
    } else {
      S.OnlyRegistrationGrows(s, l);
      SmallerMap(Step(s, l).table.futures, s.table.futures);
    }
  }

  lemma LimitStays(s: State, l: Label)
    requires Enabled(s, l)
    ensures Step(s, l).limit == s.limit
  {
  }

  /** In every run no more requests are pending than the nonzero limit allows. */
  lemma {:induction false} PendingStaysBounded(limit: nat, labels: seq<Label>)
    ensures Exec(Initial(limit), labels).limit == limit
    ensures limit != 0 ==> |Exec(Initial(limit), labels).table.futures| <= limit
    decreases |labels|
  {
    if labels != [] {
      PendingStaysBounded(limit, labels[..|labels| - 1]);
      var before, l := Exec(Initial(limit), labels[..|labels| - 1]), labels[|labels| - 1];
      if Enabled(before, l) {
        LimitStays(before, l);
        if limit != 0 {
          StepKeepsBound(before, l);
        }
      }
    }
  }

  // -- Callbacks ----------------------------------------------------------------------------------

  /** The routing of a response finds its request still registered. */
  predicate Accepts(s: State, l: Label, token: nat) {
    l.ResponseRouted? && l.token == token && !s.quit && l.id in s.table.futures && s.table.futures[l.id] == token
  }

  function Accepting(token: nat): (State, Label) -> bool {
    (s, l) => Accepts(s, l, token)
  }

  /** The request is answered, or a stop finds it registered. */
  predicate Settles(s: State, l: Label, token: nat) {
    Accepts(s, l, token) || (l.StopSweeps? && token in s.table.futures.Values)
  }

  function Settling(token: nat): (State, Label) -> bool {
    (s, l) => Settles(s, l, token)
  }

  /** The request is on its way to its callback, or the callback has run or been discarded. */
  predicate UnderWay(s: State, token: nat) {
    || (s.router.Some? && s.router.value.token == token)
    || token in s.tasks || token in s.failing || token in s.dropped
    || (token < |s.table.infos| && s.table.infos[token].completed)
  }

  predicate Carries(l: Label) {
    l.ResponseRouted? || l.RouterFinishes? || l.CallbackRuns? || l.CallbackAbandoned? || l.RequestBegins?
    || l.StopSweeps? || l.StopFailsOne?
  }

  lemma RoutedGetsUnderWay(s: State, l: Label, token: nat)
    requires Enabled(s, l) && l.ResponseRouted?
    ensures UnderWay(Step(s, l), token) <==> UnderWay(s, token) || Accepts(s, l, token)
  {
    assert Step(s, l) == RouteStep(s, l.id, l.token);
  }

  lemma FinishStaysUnderWay(s: State, token: nat)
    requires Enabled(s, RouterFinishes)
    ensures UnderWay(Step(s, RouterFinishes), token) <==> UnderWay(s, token)
  {
    S.CompletionShrinks(s.table, s.router.value.token);
    assert Step(s, RouterFinishes) == RouterStep(s);
  }

  lemma CallbackStaysUnderWay(s: State, l: Label, token: nat)
    requires Enabled(s, l) && (l.CallbackRuns? || l.CallbackAbandoned?)
    ensures UnderWay(Step(s, l), token) <==> UnderWay(s, token)
  {
    OneLess(s.tasks, l.token);
    if l.CallbackRuns? {
      S.CompletionShrinks(s.table, l.token);
    }
  }

  lemma NewRequestIsNotUnderWay(s: State, l: Label, token: nat)
    requires Enabled(s, l) && l.RequestBegins?
    ensures UnderWay(Step(s, l), token) <==> UnderWay(s, token)
  {
    RegistersExactlyWhen(s, l.explicit, l.deferred);
    RequestLeavesRest(s, l);
  }

  lemma RequestLeavesRest(s: State, l: Label)
    requires Enabled(s, l) && l.RequestBegins?
    ensures var s' := Step(s, l);
            s'.router == s.router && s'.tasks == s.tasks && s'.dropped == s.dropped && s'.failing == s.failing
  {
  }

  lemma SweptGetsUnderWay(s: State, token: nat)
    requires Enabled(s, StopSweeps) && s.failing == []
    ensures UnderWay(Step(s, StopSweeps), token) <==> UnderWay(s, token) || token in s.table.futures.Values
  {
    assert Step(s, StopSweeps).failing == TokensOf(s.table.futures);
  }

  lemma FailedStaysUnderWay(s: State, token: nat)
    requires Enabled(s, StopFailsOne)
    ensures UnderWay(Step(s, StopFailsOne), token) <==> UnderWay(s, token)
  {
    S.CompletionShrinks(s.table, s.failing[0]);
    assert s.failing == [s.failing[0]] + s.failing[1..];
  }

  lemma OthersMoveNothing(s: State, l: Label)
    requires Enabled(s, l) && !Carries(l)
    ensures var s' := Step(s, l);
            s'.router == s.router && s'.tasks == s.tasks && s'.failing == s.failing && s'.dropped == s.dropped
            && s'.table.infos == s.table.infos
  {
  }

  lemma StepKeepsUnderWay(s: State, l: Label, token: nat)
    requires Enabled(s, l) && S.PhaseInv(s)
    ensures UnderWay(Step(s, l), token) <==> UnderWay(s, token) || Settles(s, l, token)
  {
    if l.ResponseRouted? {
      RoutedGetsUnderWay(s, l, token);
    } else if l.RouterFinishes? {
      FinishStaysUnderWay(s, token);
    } else if l.CallbackRuns? || l.CallbackAbandoned? {
      CallbackStaysUnderWay(s, l, token);
    } else if l.RequestBegins? {
      NewRequestIsNotUnderWay(s, l, token);
    } else if l.StopSweeps? {
      SweptGetsUnderWay(s, token);
    } else if l.StopFailsOne? {
      FailedStaysUnderWay(s, token);
    } else {
      OthersMoveNothing(s, l);
    }
  }

  lemma {:induction false} UnderWayExactlyWhen(limit: nat, labels: seq<Label>, token: nat)
    ensures UnderWay(Exec(Initial(limit), labels), token) <==> Happens(Initial(limit), labels, Settling(token))
    decreases |labels|
  {
    var s0 := Initial(limit);
    if labels != [] {
      var front, l := labels[..|labels| - 1], labels[|labels| - 1];
      assert labels == front + [l];
      UnderWayExactlyWhen(limit, front, token);
      HappensSnoc(s0, front, l, Settling(token));
      if Enabled(Exec(s0, front), l) {
        S.EveryRunKeepsInv(limit, front);
        StepKeepsUnderWay(Exec(s0, front), l, token);
      }
    }
  }

  /** No response is being routed, no callback is queued and no stop is failing requests. */
  predicate Settled(s: State) {
    s.router.None? && s.tasks == multiset{} && s.failing == []
  }

  /** In every run, over any number of restarts: once settled, a callback, deferred or not,
      has run exactly once if a response was routed while its request held its id, or a
      stop found it registered, and no stop discarded it; otherwise it has not run. */
  lemma CallbackRunsExactlyWhen(limit: nat, labels: seq<Label>, token: nat)
    ensures var s := Exec(Initial(limit), labels);
            Settled(s) && token < |s.table.infos| ==>
              s.table.infos[token].runs
              == Bit(Happens(Initial(limit), labels, Settling(token))
                     && !Happens(Initial(limit), labels, R.Discarding(token)))
  {
    UnderWayExactlyWhen(limit, labels, token);
    R.DroppedExactlyWhen(limit, labels, token);
    S.EveryRunKeepsInv(limit, labels);
    assert S.OnePlace(Exec(Initial(limit), labels), token);
  }

  // -- Without a stop ---------------------------------------------------------------------------------

  /** Nobody stops the endpoint. */
  ghost predicate NoStop(labels: seq<Label>) {
    forall i :: 0 <= i < |labels| ==> !labels[i].StopQuits?
  }

  ghost predicate Unstopped(s: State) {
    && !s.quit && s.dropped == multiset{} && s.failing == [] && (s.phase.Working? || s.phase.Stopped?)
  }

  lemma StepStaysUnstopped(s: State, l: Label)
    requires Enabled(s, l) && !l.StopQuits? && Unstopped(s)
    ensures Unstopped(Step(s, l))
  {
    if S.IsPhaseStep(l) {
      StartStaysUnstopped(s, l);
    } else {
      S.OthersLeavePhase(s, l);
      NothingDropped(s, l);
    }
  }

  lemma StartStaysUnstopped(s: State, l: Label)
    requires Enabled(s, l) && S.IsPhaseStep(l) && !l.StopQuits? && Unstopped(s)
    ensures l.Starts? && Unstopped(Step(s, l))
  {
  }

  lemma NothingDropped(s: State, l: Label)
    requires Enabled(s, l) && !s.quit
    ensures Step(s, l).dropped == s.dropped
  {
  }

  lemma {:induction false} RunWithoutStop(limit: nat, labels: seq<Label>)
    requires NoStop(labels)
    ensures Unstopped(Exec(Initial(limit), labels))
    decreases |labels|
  {
    if labels != [] {
      var front, l := labels[..|labels| - 1], labels[|labels| - 1];
      RunWithoutStop(limit, front);
      if Enabled(Exec(Initial(limit), front), l) {
        StepStaysUnstopped(Exec(Initial(limit), front), l);
      }
    }
  }

  lemma UnstoppedSweepsNothing(s: State, l: Label, token: nat)
    requires Unstopped(s) && Enabled(s, l)
    ensures Settles(s, l, token) <==> Accepts(s, l, token)
  {
  }

  lemma OnlyAnswersSettle(limit: nat, labels: seq<Label>, token: nat)
    requires NoStop(labels)
    ensures Happens(Initial(limit), labels, Settling(token)) <==> Happens(Initial(limit), labels, Accepting(token))
  {
    var s0 := Initial(limit);
    if i: nat :| HappensAt(s0, labels, i, Accepting(token)) {
      assert HappensAt(s0, labels, i, Settling(token));
    }
    if i: nat :| HappensAt(s0, labels, i, Settling(token)) {
      RunWithoutStop(limit, labels[..i]);
      UnstoppedSweepsNothing(Exec(s0, labels[..i]), labels[i], token);
      assert HappensAt(s0, labels, i, Accepting(token));
    }
  }

  /** As long as nobody stops the endpoint no callback is discarded, and once no response
      is being routed and no callback is queued, each request's callback, deferred or not,
      has run exactly once if a response was routed while the request held its id, and has
      not run otherwise. */
  lemma AnsweredRunsItsCallback(limit: nat, labels: seq<Label>, token: nat)
    requires NoStop(labels)
    ensures var s := Exec(Initial(limit), labels);
            && s.dropped == multiset{}
            && (s.router.None? && s.tasks == multiset{} && token < |s.table.infos|
                ==> s.table.infos[token].runs == Bit(Happens(Initial(limit), labels, Accepting(token))))
  {
    RunWithoutStop(limit, labels);
    OnlyAnswersSettle(limit, labels, token);
    CallbackRunsExactlyWhen(limit, labels, token);
    R.DroppedExactlyWhen(limit, labels, token);
  }
}
