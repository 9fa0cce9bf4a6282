// Where a stop can hang. stop() holds lifecycle_mutex while it takes
// route_dispatch_mutex, runs the callbacks of pending requests and joins the threads of
// the session; code on those threads may itself ask for lifecycle_mutex.
module Shutdown {
  import opened Base

  /** The notification thread, the completion thread, the producer, and any other:
      workers of the two pools and threads of the application. */
  datatype Agent = Notifier | Completer | Producer | Other(number: nat)

  /** What is called with lifecycle_mutex: isWorking, cancelRequest and the like, which
      give it back at once, or stop. */
  datatype Call = Query | Stop

  datatype Phase =
    | NoStop
    | ClearingRouting   // clearMessageRouting
    | Sweeping          // failPendingRequests, between two callbacks
    | InCallback        // inside a callback, on the stopping thread
    | JoiningNotifier | JoiningCompleter | JoiningProducer

  datatype State = State(
    working: bool,
    lifecycle: Option<Agent>,    // holder of lifecycle_mutex, inside stop
    phase: Phase,
    waiting: map<Agent, Call>,   // threads inside lifecycle_mutex.lock()
    router: Option<Agent>,       // holder of route_dispatch_mutex
    running: set<Agent>,         // threads of the session that have not ended
    busy: set<Agent>,            // those inside a handler, a completion or a frame
    notificationStop: bool,
    asyncStop: bool)

  datatype Label =
    | ItemBegins(agent: Agent) | ItemEnds(agent: Agent) | ThreadEnds(agent: Agent)
    | RouteBegins(agent: Agent) | RouteEnds(agent: Agent)
    | Calls(agent: Agent, call: Call)
    | Acquires(agent: Agent)
    | StopClearsRouting | CallbackBegins | CallbackEnds | SweepEnds
    | NotifierJoined | CompleterJoined | ProducerJoined

  /** Neither blocked nor busy with a stop. */
  predicate Free(s: State, a: Agent) {
    a !in s.waiting && s.lifecycle != Some(a)
  }

  /** Who can ask for lifecycle_mutex: application threads, notification handlers,
      callbacks run by a stop; code that is routing, and the producer, only to stop
      after an overload. Completions never do. */
  predicate MayCall(s: State, a: Agent, call: Call) {
    && a !in s.waiting && !a.Completer? && (a.Other? || a in s.busy)
    && (s.router == Some(a) || a.Producer? ==> call.Stop?)
    && (s.lifecycle == Some(a) ==> s.phase.InCallback?)
  }

  predicate Enabled(s: State, l: Label) {
    match l
    case ItemBegins(a) =>
      a in s.running && a !in s.busy && !a.Other?
      && (a.Notifier? ==> !s.notificationStop) && (a.Completer? ==> !s.asyncStop)
    case ItemEnds(a) => a in s.busy && Free(s, a) && s.router != Some(a)
    case ThreadEnds(a) =>
      a in s.running && a !in s.busy && (a.Notifier? ==> s.notificationStop) && (a.Completer? ==> s.asyncStop)
    case RouteBegins(a) => s.router.None? && Free(s, a) && (a.Other? || (a.Producer? && a in s.busy))
    case RouteEnds(a) => s.router == Some(a) && Free(s, a)
    case Calls(a, call) => MayCall(s, a, call)
    case Acquires(a) => a in s.waiting && s.lifecycle.None?
    case StopClearsRouting => s.phase.ClearingRouting? && s.router.None?
    case CallbackBegins => s.phase.Sweeping?
    case CallbackEnds => s.phase.InCallback? && s.lifecycle.Some? && s.lifecycle.value !in s.waiting
    case SweepEnds => s.phase.Sweeping?
    case NotifierJoined => s.phase.JoiningNotifier? && (s.lifecycle == Some(Notifier) || Notifier !in s.running)
    case CompleterJoined => s.phase.JoiningCompleter? && Completer !in s.running
    case ProducerJoined => s.phase.JoiningProducer? && (s.lifecycle == Some(Producer) || Producer !in s.running)
  }

  /** A stop that gets the mutex goes on if the session has not been stopped before. */
  predicate BeginsStop(s: State, l: Label) {
    l.Acquires? && l.agent in s.waiting && s.waiting[l.agent].Stop? && s.working
  }

  function Step(s: State, l: Label): State
    requires Enabled(s, l)
  {
    match l
    case ItemBegins(a) => s.(busy := s.busy + {a})
    case ItemEnds(a) => s.(busy := s.busy - {a})
    case ThreadEnds(a) => s.(running := s.running - {a})
    case RouteBegins(a) => s.(router := Some(a))
    case RouteEnds(a) => s.(router := None)
    case Calls(a, call) => s.(waiting := s.waiting[a := call])
    case Acquires(a) =>
      if BeginsStop(s, l) then s.(waiting := s.waiting - {a}, lifecycle := Some(a), phase := ClearingRouting)
      else s.(waiting := s.waiting - {a})
    case StopClearsRouting => s.(phase := Sweeping)
    case CallbackBegins => s.(phase := InCallback)
    case CallbackEnds => s.(phase := Sweeping)
    case SweepEnds => s.(phase := JoiningNotifier, notificationStop := true)
    case NotifierJoined => s.(phase := JoiningCompleter, asyncStop := true)
    case CompleterJoined => s.(phase := JoiningProducer)
    case ProducerJoined => s.(phase := NoStop, lifecycle := None, working := false)
  }

  /** A session that has just been started. */
  const Started := State(true, None, NoStop, map[], None, {Notifier, Completer, Producer}, {}, false, false)

  function Exec(s: State, labels: seq<Label>): State
    decreases |labels|
  {
    if labels == [] then s
    else
      var before := Exec(s, labels[..|labels| - 1]);
      var l := labels[|labels| - 1];
      if Enabled(before, l) then Step(before, l) else before
  }

  // -- What every run keeps ------------------------------------------------------------

  /** Who holds what. */
  ghost predicate LocksInv(s: State) {
    && (s.lifecycle.Some? <==> !s.phase.NoStop?)
    && s.lifecycle != Some(Completer)
    && (s.router.Some? ==> s.router.value.Other? || (s.router.value.Producer? && Producer in s.busy))
    && (s.lifecycle.Some? ==> s.lifecycle.value.Other? || s.lifecycle.value in s.busy)
    && (s.lifecycle.Some? && s.router == s.lifecycle ==> s.phase.ClearingRouting?)
  }

  /** Who waits, and which threads can. */
  ghost predicate WaitersInv(s: State) {
    && Completer !in s.waiting
    && (forall a :: a in s.busy ==> !a.Other? && a in s.running)
    && (forall a :: a in s.waiting ==> a.Other? || a in s.busy)
    && (s.lifecycle.Some? && s.lifecycle.value in s.waiting ==> s.phase.InCallback?)
  }

  ghost predicate FlagsInv(s: State) {
    && (s.phase.JoiningNotifier? || s.phase.JoiningCompleter? || s.phase.JoiningProducer? ==> s.notificationStop)
    && (s.phase.JoiningCompleter? || s.phase.JoiningProducer? ==> s.asyncStop)
  }

  ghost predicate Inv(s: State) {
    LocksInv(s) && WaitersInv(s) && FlagsInv(s)
  }

  lemma StepKeepsLocks(s: State, l: Label)
    requires LocksInv(s) && WaitersInv(s) && Enabled(s, l)
    ensures LocksInv(Step(s, l))
  {
  }

  lemma StepKeepsWaiters(s: State, l: Label)
    requires LocksInv(s) && WaitersInv(s) && Enabled(s, l)
    ensures WaitersInv(Step(s, l))
  {
    if l.ItemBegins? || l.ItemEnds? || l.ThreadEnds? {
      ThreadKeepsWaiters(s, l);
    } else if l.Calls? || l.Acquires? {
      CallKeepsWaiters(s, l);
    } else {
      OthersKeepWaiters(s, l);
    }
  }

  lemma ThreadKeepsWaiters(s: State, l: Label)
    requires WaitersInv(s) && Enabled(s, l) && (l.ItemBegins? || l.ItemEnds? || l.ThreadEnds?)
    ensures WaitersInv(Step(s, l))
  {
    var s' := Step(s, l);
    assert s'.waiting == s.waiting && s'.lifecycle == s.lifecycle && s'.phase == s.phase;
    forall a | a in s'.waiting ensures a.Other? || a in s'.busy {
      assert a in s.waiting;
    }
  }

  lemma CallKeepsWaiters(s: State, l: Label)
    requires LocksInv(s) && WaitersInv(s) && Enabled(s, l) && (l.Calls? || l.Acquires?)
    ensures WaitersInv(Step(s, l))
  {
    var s' := Step(s, l);
    assert s'.busy == s.busy && s'.running == s.running;
    forall a | a in s'.waiting ensures a.Other? || a in s'.busy {
      assert a in s.waiting || a == l.agent;
    }
  }

  lemma OthersKeepWaiters(s: State, l: Label)
    requires LocksInv(s) && WaitersInv(s) && Enabled(s, l)
    requires !l.ItemBegins? && !l.ItemEnds? && !l.ThreadEnds? && !l.Calls? && !l.Acquires?
    ensures WaitersInv(Step(s, l))
  {
    var s' := Step(s, l);
    assert s'.busy == s.busy && s'.running == s.running && s'.waiting == s.waiting;
  }

  lemma StepKeepsFlags(s: State, l: Label)
    requires FlagsInv(s) && Enabled(s, l)
    ensures FlagsInv(Step(s, l))
  {
  }

  lemma StepKeepsInv(s: State, l: Label)
    requires Inv(s) && Enabled(s, l)
    ensures Inv(Step(s, l))
  {
    StepKeepsLocks(s, l);
    StepKeepsWaiters(s, l);
    StepKeepsFlags(s, l);
  }

  lemma {:induction false} EveryRunKeepsInv(labels: seq<Label>)
    ensures Inv(Exec(Started, labels))
    decreases |labels|
  {
    if labels != [] {
      EveryRunKeepsInv(labels[..|labels| - 1]);
      var before, l := Exec(Started, labels[..|labels| - 1]), labels[|labels| - 1];
      if Enabled(before, l) {
        StepKeepsInv(before, l);
      }
    }
  }

  // -- When a stop hangs -------------------------------------------------------------------

  predicate NotifierAhead(p: Phase) {
    p.ClearingRouting? || p.Sweeping? || p.InCallback? || p.JoiningNotifier?
  }

  /** The stop under way waits for this thread, now or later. */
  predicate Awaited(s: State, a: Agent) {
    s.lifecycle.Some? &&
    (|| a == s.lifecycle.value
     || (s.phase.ClearingRouting? && s.router == Some(a))
     || (a.Notifier? && NotifierAhead(s.phase))
     || a.Producer?)
  }

  /** Some thread that the stop waits for waits for the mutex that the stop holds, or the
      stop itself waits for a mutex that its own thread holds. */
  ghost predicate Hung(s: State) {
    (exists a :: a in s.waiting && Awaited(s, a)) || (s.phase.ClearingRouting? && s.router.Some? && s.router == s.lifecycle)
  }

  lemma HungStays(s: State, l: Label)
    requires Inv(s) && Hung(s) && Enabled(s, l)
    ensures Hung(Step(s, l))
  {
    var s' := Step(s, l);
    if a :| a in s.waiting && Awaited(s, a) {
      assert a in s'.waiting && Awaited(s', a);
    }
  }

  lemma {:induction false} HungForever(s: State, labels: seq<Label>)
    requires Inv(s) && Hung(s)
    ensures Inv(Exec(s, labels)) && Hung(Exec(s, labels)) && !Exec(s, labels).phase.NoStop?
    decreases |labels|
  {
    if labels != [] {
      var front, l := labels[..|labels| - 1], labels[|labels| - 1];
      HungForever(s, front);
      if Enabled(Exec(s, front), l) {
        StepKeepsInv(Exec(s, front), l);
        HungStays(Exec(s, front), l);
      }
    }
  }

  function Rank(p: Phase): nat {
    match p
    case NoStop => 0
    case JoiningProducer => 1
    case JoiningCompleter => 2
    case JoiningNotifier => 3
    case Sweeping => 4
    case InCallback => 5
    case ClearingRouting => 6
  }

  function StopWork(s: State): nat {
    Rank(s.phase) + Bit(s.router.Some?) + |s.running| + |s.busy|
  }

  /** The step that brings an unhung stop nearer to its end: the stop's own, or one of
      the thread it is waiting for. */
  function NextStep(s: State): Label {
    match s.phase
    case NoStop => SweepEnds
    case ClearingRouting => if s.router.Some? then RouteEnds(s.router.value) else StopClearsRouting
    case InCallback => CallbackEnds
    case Sweeping => SweepEnds
    case JoiningNotifier => if s.lifecycle == Some(Notifier) then NotifierJoined else EndOf(s, Notifier, NotifierJoined)
    case JoiningCompleter => EndOf(s, Completer, CompleterJoined)
    case JoiningProducer => if s.lifecycle == Some(Producer) then ProducerJoined else EndOf(s, Producer, ProducerJoined)
  }

  function EndOf(s: State, a: Agent, joined: Label): Label {
    if a !in s.running then joined
    else if s.router == Some(a) then RouteEnds(a)
    else if a in s.busy then ItemEnds(a)
    else ThreadEnds(a)
  }

  lemma NextStepIsEnabled(s: State)
    requires Inv(s) && !s.phase.NoStop? && !Hung(s)
    ensures Enabled(s, NextStep(s))
  {
    var h := s.lifecycle.value;
    assert Awaited(s, h) && (Awaited(s, h) ==> h !in s.waiting);
    assert Awaited(s, Producer) ==> Producer !in s.waiting;
    assert Awaited(s, Notifier) ==> Notifier !in s.waiting;
    if s.phase.ClearingRouting? && s.router.Some? {
      assert Awaited(s, s.router.value) ==> s.router.value !in s.waiting;
    }
  }

  lemma NextStepWorks(s: State)
    requires Inv(s) && !s.phase.NoStop? && Enabled(s, NextStep(s))
    ensures StopWork(Step(s, NextStep(s))) < StopWork(s)
  {
    if Ends(NextStep(s)) {
      EndingWorks(s, NextStep(s));
    } else {
      AdvancingWorks(s, NextStep(s));
    }
  }

  predicate Ends(l: Label) {
    l.RouteEnds? || l.ItemEnds? || l.ThreadEnds?
  }

  predicate Advances(l: Label) {
    l.StopClearsRouting? || l.CallbackEnds? || l.SweepEnds? || l.NotifierJoined? || l.CompleterJoined? || l.ProducerJoined?
  }

  lemma EndingWorks(s: State, l: Label)
    requires Enabled(s, l) && Ends(l)
    ensures StopWork(Step(s, l)) < StopWork(s)
  {
    if l.ItemEnds? {
      assert s.busy == (s.busy - {l.agent}) + {l.agent};
    } else if l.ThreadEnds? {
      assert s.running == (s.running - {l.agent}) + {l.agent};
    }
  }

  lemma AdvancingWorks(s: State, l: Label)
    requires Enabled(s, l) && Advances(l)
    ensures StopWork(Step(s, l)) < StopWork(s)
  {
  }

  lemma NextStepKeepsUnhung(s: State)
    requires Inv(s) && !s.phase.NoStop? && !Hung(s) && Enabled(s, NextStep(s))
    ensures !Hung(Step(s, NextStep(s)))
  {
    var s' := Step(s, NextStep(s));
    forall a | a in s'.waiting ensures !Awaited(s', a) {
      assert a in s.waiting && !Awaited(s, a);
    }
  }

  lemma {:induction false} UnhungCanFinish(s: State) returns (labels: seq<Label>)
    requires Inv(s) && !Hung(s)
    ensures Exec(s, labels).phase.NoStop?
    decreases StopWork(s)
  {
    if s.phase.NoStop? {
      labels := [];
    } else {
      NextStepIsEnabled(s);
      NextStepWorks(s);
      NextStepKeepsUnhung(s);
      StepKeepsInv(s, NextStep(s));
      var rest := UnhungCanFinish(Step(s, NextStep(s)));
      labels := [NextStep(s)] + rest;
      ExecCons(s, NextStep(s), rest);
    }
  }

  lemma {:induction false} ExecCons(s: State, l: Label, labels: seq<Label>)
    requires Enabled(s, l)
    ensures Exec(s, [l] + labels) == Exec(Step(s, l), labels)
    decreases |labels|
  {
    if labels == [] {
      assert [l] + labels == [l] && [l][..0] == [];
    } else {
      var front, last := labels[..|labels| - 1], labels[|labels| - 1];
      ExecCons(s, l, front);
      assert ([l] + labels)[..|labels|] == [l] + front;
    }
  }

  /** In every reachable state with a stop under way: the stop can still return if and
      only if no thread it waits for is waiting for lifecycle_mutex, and it does not wait
      for a mutex its own thread holds. If it cannot return now, it never can. */
  lemma StopReturnsExactlyWhen(labels: seq<Label>)
    ensures var s := Exec(Started, labels);
            !s.phase.NoStop? ==> ((exists more: seq<Label> :: Exec(s, more).phase.NoStop?) <==> !Hung(s))
  {
    var s := Exec(Started, labels);
    EveryRunKeepsInv(labels);
    if Hung(s) {
      forall more: seq<Label> ensures !Exec(s, more).phase.NoStop? {
        HungForever(s, more);
      }
    } else {
      var more := UnhungCanFinish(s);
    }
  }

  /** What hangs a stop, exactly: a thread it waits for asks for lifecycle_mutex; or the
      stop begins on a thread that is routing, or while a thread it will wait for is
      already asking. */
  predicate HangingStart(s: State, a: Agent) {
    || s.router == Some(a)
    || (s.router.Some? && s.router.value in s.waiting)
    || (Notifier in s.waiting && a != Notifier)
    || (Producer in s.waiting && a != Producer)
  }

  lemma StartHangsExactlyWhen(s: State, a: Agent)
    requires Inv(s) && Enabled(s, Acquires(a)) && BeginsStop(s, Acquires(a))
    ensures Hung(Step(s, Acquires(a))) <==> HangingStart(s, a)
  {
    var s' := Step(s, Acquires(a));
    if HangingStart(s, a) && s.router != Some(a) {
      var b := if s.router.Some? && s.router.value in s.waiting then s.router.value
               else if Notifier in s.waiting && a != Notifier then Notifier else Producer;
      assert b in s'.waiting && Awaited(s', b);
    }
  }

  lemma CallHangsExactlyWhen(s: State, a: Agent, call: Call)
    requires Inv(s) && !Hung(s) && Enabled(s, Calls(a, call))
    ensures Hung(Step(s, Calls(a, call))) <==> Awaited(s, a)
  {
    var s' := Step(s, Calls(a, call));
    if Awaited(s, a) {
      assert a in s'.waiting && Awaited(s', a);
    } else {
      forall b | b in s'.waiting ensures !Awaited(s', b) {
        assert Awaited(s', b) <==> Awaited(s, b);
      }
    }
  }

  lemma NothingElseHangs(s: State, l: Label)
    requires Inv(s) && !Hung(s) && Enabled(s, l) && !l.Calls? && !BeginsStop(s, l)
    ensures !Hung(Step(s, l))
  {
    var s' := Step(s, l);
    forall b | b in s'.waiting ensures !Awaited(s', b) {
      assert b in s.waiting && !Awaited(s, b);
    }
  }

  /** One step hangs a stop that was not hung if and only if it is such a call or such a
      start. */
  lemma HangsExactlyWhen(s: State, l: Label)
    requires Inv(s) && !Hung(s) && Enabled(s, l)
    ensures Hung(Step(s, l))
            <==> (l.Calls? && Awaited(s, l.agent)) || (BeginsStop(s, l) && HangingStart(s, l.agent))
  {
    if l.Calls? {
      CallHangsExactlyWhen(s, l.agent, l.call);
    } else if BeginsStop(s, l) {
      StartHangsExactlyWhen(s, l.agent);
    } else {
      NothingElseHangs(s, l);
    }
  }

  // -- Runs that hang ------------------------------------------------------------------------

  const App := Other(0)

  lemma ExecSnoc(s: State, labels: seq<Label>, l: Label)
    ensures Exec(s, labels + [l])
            == var before := Exec(s, labels); if Enabled(before, l) then Step(before, l) else before
  {
    assert (labels + [l])[..|labels|] == labels;
  }

  /** The application stops while a notification handler is running, and the handler asks
      whether the endpoint is working, or cancels a request. */
  const AskingHandler: seq<Label> :=
    [] + [ItemBegins(Notifier)] + [Calls(App, Stop)] + [Acquires(App)] + [Calls(Notifier, Query)]

  lemma AskingHandlerHangs()
    ensures Hung(Exec(Started, AskingHandler))
  {
    var r0: seq<Label> := [];
    var r1 := r0 + [ItemBegins(Notifier)];
    var r2 := r1 + [Calls(App, Stop)];
    var r3 := r2 + [Acquires(App)];
    ExecSnoc(Started, r0, ItemBegins(Notifier));
    ExecSnoc(Started, r1, Calls(App, Stop));
    ExecSnoc(Started, r2, Acquires(App));
    ExecSnoc(Started, r3, Calls(Notifier, Query));
    var s := Exec(Started, AskingHandler);
    assert Notifier in s.waiting && Awaited(s, Notifier);
  }

  /** Under StopProcessing an overload found while routing stops the endpoint from inside
      route_dispatch_mutex, which the stop then takes again. */
  const RoutingOverload: seq<Label> := [] + [RouteBegins(App)] + [Calls(App, Stop)] + [Acquires(App)]

  lemma RoutingOverloadHangs()
    ensures Hung(Exec(Started, RoutingOverload))
  {
    var r0: seq<Label> := [];
    var r1 := r0 + [RouteBegins(App)];
    var r2 := r1 + [Calls(App, Stop)];
    ExecSnoc(Started, r0, RouteBegins(App));
    ExecSnoc(Started, r1, Calls(App, Stop));
    ExecSnoc(Started, r2, Acquires(App));
  }
}
