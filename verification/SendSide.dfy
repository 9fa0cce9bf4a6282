// Sending and stopping, over any number of sessions: per-session output state and
// the messages that carry it, the send mutex, outgoing requests and the part of
// clear() up to the end of failPendingRequests. Every step is one critical section or
// one atomic access.
module SendSide {
  import opened Base
  import opened Classify
  import T = Outgoing

  /** SessionOutputState: `output` is the stream the session was started with,
      until clear() resets it. */
  datatype Session = Session(active: bool, output: Option<nat>)

  /** An incoming message on its way, with the output state that was captured for it. */
  datatype Carried = Carried(message: nat, state: nat)

  /** Incoming messages between routing and reply. */
  datatype Work = Work(
    routedIn: seq<nat>,              // history: the session that was current when each was routed
    parked: multiset<Carried>,       // parked_requests and notification_queue
    pool: multiset<Carried>,         // handler pool
    threads: map<nat, Carried>,      // threads inside mainLoop, with the state in their context
    deferred: multiset<Carried>)     // async_completions, with the state they captured

  /** Who sends: handler code on some thread, an async completion, or any other code. */
  datatype Sender = Handler(thread: nat) | Completion(carried: Carried) | Outside

  /** The holder of the send mutex, past its checks and about to write. */
  datatype Holder =
    | Sending(session: nat, message: Option<nat>)
    | Requesting(session: nat, id: Id, token: nat)

  /** The holder of route_dispatch_mutex inside completePendingResponse, after the
      entry has been removed. */
  datatype Router = Completing(token: nat) | Deferring(token: nat)

  datatype Phase = Working | Quitting | RoutingCleared | Inactive | OutputReset | Failing | Stopped

  /** `message` is the incoming message that the write answers, if any. */
  datatype Write = Write(session: nat, stream: nat, message: Option<nat>)

  datatype State = State(
    limit: nat,
    sessions: seq<Session>,          // the last one is current
    streams: seq<nat>,               // history: the stream each session was started with
    work: Work,
    lock: Option<Holder>,
    router: Option<Router>,
    quit: bool,
    phase: Phase,
    table: T.Table,
    responses: multiset<(Id, nat)>,  // parsed responses with the request they were matched to
    tasks: multiset<nat>,            // deferred callbacks in the handler pool
    failing: seq<nat>,               // failPendingRequests' local list
    withdrawn: multiset<nat>,        // removed by a timeout or a failed write
    displaced: multiset<nat>,        // overwritten by a request that took the same number
    dropped: multiset<nat>,          // deferred callbacks discarded by a stop
    writes: seq<Write>)              // history

  datatype Label =
    | MessageRouted(park: bool)      // routeParsedIncoming captures session_output_state
    | MessageReleased(carried: Carried)
    | HandlerStarts(thread: nat, carried: Carried)
    | HandlerDefers(thread: nat)     // completeAsyncHandler
    | HandlerEnds(thread: nat)
    | SendBegins(sender: Sender)
    | SendWrites(bytes: bool)
    | RequestBegins(explicit: Option<Id>, deferred: bool)
    | RequestWrites(ok: bool)
    | TakeId                         // createRequest
    | TimesOut(token: nat)           // the waiter of this request gives up
    | ResponseParsed(id: Id)
    | ResponseRouted(id: Id, token: nat)
    | RouterFinishes
    | CallbackRuns(token: nat)
    | CallbackAbandoned(token: nat)
    | StopQuits | StopClearsRouting | StopDeactivates | StopResetsOutput | StopSweeps | StopFailsOne | StopEnds
    | Starts(stream: nat)

  function Current(s: State): nat
    requires s.sessions != []
  {
    |s.sessions| - 1
  }

  /** A send finds the session open only while it is active and has its output. */
  predicate Open(x: Session) {
    x.active && x.output.Some?
  }

  predicate Known(s: State, token: nat) {
    token < |s.table.infos|
  }

  /** getSessionOutputState: the state in the thread's context, or else the current one;
      a completion uses the state it has captured. */
  function SessionOf(s: State, sender: Sender): nat
    requires s.sessions != []
  {
    match sender
    case Handler(t) => if t in s.work.threads then s.work.threads[t].state else Current(s)
    case Completion(c) => c.state
    case Outside => Current(s)
  }

  function AnswersWhat(w: Work, sender: Sender): Option<nat> {
    match sender
    case Handler(t) => if t in w.threads then Some(w.threads[t].message) else None
    case Completion(c) => Some(c.message)
    case Outside => None
  }

  predicate Handles(l: Label) {
    l.MessageRouted? || l.MessageReleased? || l.HandlerStarts? || l.HandlerDefers? || l.HandlerEnds?
  }

  predicate WorkEnabled(w: Work, l: Label)
    requires Handles(l)
  {
    match l
    case MessageRouted(_) => true
    case MessageReleased(c) => c in w.parked
    case HandlerStarts(t, c) => c in w.pool && t !in w.threads
    case HandlerDefers(t) => t in w.threads
    case HandlerEnds(t) => t in w.threads
  }

  /** What happens to incoming messages; `current` is the session they are routed in. */
  function WorkStep(w: Work, l: Label, current: nat): Work
    requires Handles(l) && WorkEnabled(w, l)
  {
    match l
    case MessageRouted(park) =>
      var c := Carried(|w.routedIn|, current);
      var w' := w.(routedIn := w.routedIn + [current]);
      if park then w'.(parked := w.parked + multiset{c}) else w'.(pool := w.pool + multiset{c})
    case MessageReleased(c) => w.(parked := w.parked - multiset{c}, pool := w.pool + multiset{c})
    case HandlerStarts(t, c) => w.(pool := w.pool - multiset{c}, threads := w.threads[t := c])
    case HandlerDefers(t) => w.(deferred := w.deferred + multiset{w.threads[t]})
    case HandlerEnds(t) => w.(threads := w.threads - {t})
  }

  predicate Enabled(s: State, l: Label) {
    s.sessions != [] &&
    match l
    case SendBegins(sender) =>
      s.lock.None? && SessionOf(s, sender) < |s.sessions| && (sender.Completion? ==> sender.carried in s.work.deferred)
    case SendWrites(_) => s.lock.Some? && s.lock.value.Sending? && s.lock.value.session < |s.sessions|
    case RequestBegins(_, _) => s.lock.None?
    case RequestWrites(_) => s.lock.Some? && s.lock.value.Requesting? && s.lock.value.session < |s.sessions|
    case TakeId => true
    case TimesOut(token) => Known(s, token)
    case ResponseParsed(id) => id in s.table.futures
    case ResponseRouted(id, token) => s.router.None? && (id, token) in s.responses && Known(s, token)
    case RouterFinishes => s.router.Some? && Known(s, s.router.value.token)
    case CallbackRuns(token) => token in s.tasks && Known(s, token)
    case CallbackAbandoned(token) => s.quit && token in s.tasks
    case StopQuits => s.phase.Working?
    case StopClearsRouting => s.phase.Quitting? && s.router.None?
    case StopDeactivates => s.phase.RoutingCleared?
    case StopResetsOutput => s.phase.Inactive? && s.lock.None?
    case StopSweeps => s.phase.OutputReset?
    case StopFailsOne => s.phase.Failing? && s.failing != [] && Known(s, s.failing[0])
    case StopEnds => s.phase.Failing? && s.failing == []
    case Starts(_) => s.phase.Stopped?
    case _ => WorkEnabled(s.work, l)
  }

  function Wrote(s: State, g: nat, message: Option<nat>): seq<Write>
    requires g < |s.sessions|
  {
    if s.sessions[g].output.Some? then [Write(g, s.sessions[g].output.value, message)] else []
  }

  function SendStep(s: State, sender: Sender): State
    requires s.sessions != [] && SessionOf(s, sender) < |s.sessions|
  {
    var g := SessionOf(s, sender);
    if Open(s.sessions[g]) then s.(lock := Some(Sending(g, AnswersWhat(s.work, sender)))) else s
  }

  /** internalWaitResponse gives up: removeRequestInfo removes whatever holds the id. */
  function TimeoutStep(s: State, id: Id): State {
    if id in s.table.futures
    then s.(withdrawn := s.withdrawn + multiset{s.table.futures[id]}, table := T.Remove(s.table, id))
    else s
  }

  function RequestStep(s: State, id: Option<Id>, deferred: bool): State
    requires s.sessions != []
  {
    var g := Current(s);
    if !Open(s.sessions[g]) || T.Refused(s.table, id, s.limit) then s
    else
      var key := T.ChosenId(s.table, id);
      s.(table := T.Register(s.table, id, deferred),
         displaced := if key in s.table.futures then s.displaced + multiset{s.table.futures[key]} else s.displaced,
         lock := Some(Requesting(g, key, |s.table.infos|)))
  }

  function RequestWriteStep(s: State, ok: bool): State
    requires s.lock.Some? && s.lock.value.Requesting? && s.lock.value.session < |s.sessions|
  {
    var h := s.lock.value;
    if ok then s.(writes := s.writes + Wrote(s, h.session, None), lock := None)
    else s.(table := T.RemoveExpected(s.table, h.id, h.token),
            withdrawn := if T.Holds(s.table, h.id, h.token) then s.withdrawn + multiset{h.token} else s.withdrawn,
            lock := None)
  }

  function RouteStep(s: State, id: Id, token: nat): State
    requires Known(s, token)
  {
    var s' := s.(responses := s.responses - multiset{(id, token)});
    if s.quit || !T.Holds(s.table, id, token) then s'
    else s'.(table := T.Remove(s.table, id),
             router := Some(if s.table.infos[token].deferred then Deferring(token) else Completing(token)))
  }

  function RouterStep(s: State): State
    requires s.router.Some? && Known(s, s.router.value.token)
  {
    var token := s.router.value.token;
    if s.router.value.Completing? then s.(table := T.Complete(s.table, token), router := None)
    else if s.quit then s.(dropped := s.dropped + multiset{token}, router := None)
    else s.(tasks := s.tasks + multiset{token}, router := None)
  }

  /** The requests in the table, in some order. */
  ghost function TokensOf(futures: map<Id, nat>): seq<nat>
    ensures forall k :: k in TokensOf(futures) <==> k in futures.Values
    ensures forall i, j :: 0 <= i < j < |TokensOf(futures)| ==> TokensOf(futures)[i] != TokensOf(futures)[j]
  {
    Listed(futures.Values)
  }

  ghost function Listed(tokens: set<nat>): seq<nat>
    ensures forall k :: k in Listed(tokens) <==> k in tokens
    ensures forall i, j :: 0 <= i < j < |Listed(tokens)| ==> Listed(tokens)[i] != Listed(tokens)[j]
  {
    if tokens == {} then []
    else
      var k :| k in tokens;
      [k] + Listed(tokens - {k})
  }

  ghost function Step(s: State, l: Label): State
    requires Enabled(s, l)
  {
    match l
    case SendBegins(sender) => SendStep(s, sender)
    case SendWrites(bytes) =>
      var h := s.lock.value;
      s.(lock := None, writes := if bytes then s.writes + Wrote(s, h.session, h.message) else s.writes)
    case RequestBegins(id, deferred) => RequestStep(s, id, deferred)
    case RequestWrites(ok) => RequestWriteStep(s, ok)
    case TakeId => s.(table := s.table.(nextId := s.table.nextId + 1))
    case TimesOut(token) => TimeoutStep(s, s.table.infos[token].id)
    case ResponseParsed(id) => s.(responses := s.responses + multiset{(id, s.table.futures[id])})
    case ResponseRouted(id, token) => RouteStep(s, id, token)
    case RouterFinishes => RouterStep(s)
    case CallbackRuns(token) => s.(tasks := s.tasks - multiset{token}, table := T.Complete(s.table, token))
    case CallbackAbandoned(token) => s.(tasks := s.tasks - multiset{token}, dropped := s.dropped + multiset{token})
    case StopQuits => s.(quit := true, phase := Quitting)
    case StopClearsRouting => s.(phase := RoutingCleared)
    case StopDeactivates =>
      s.(sessions := s.sessions[Current(s) := s.sessions[Current(s)].(active := false)], phase := Inactive)
    case StopResetsOutput =>
      s.(sessions := s.sessions[Current(s) := s.sessions[Current(s)].(output := None)], phase := OutputReset)
    case StopSweeps =>
      s.(failing := TokensOf(s.table.futures), table := s.table.(futures := map[]), phase := Failing)
    case StopFailsOne => s.(table := T.Complete(s.table, s.failing[0]), failing := s.failing[1..])
    case StopEnds => s.(phase := Stopped)
    case Starts(stream) =>
      s.(sessions := s.sessions + [Session(true, Some(stream))], streams := s.streams + [stream],
         quit := false, phase := Working)
    case _ => s.(work := WorkStep(s.work, l, Current(s)))
  }

  /** Before the first start the endpoint has an output state without an output. */
  const NoStream := 0

  function Initial(limit: nat): State {
    State(limit, [Session(true, None)], [NoStream], Work([], multiset{}, multiset{}, map[], multiset{}), None, None, false, Stopped, T.Empty,
          multiset{}, multiset{}, [], multiset{}, multiset{}, multiset{}, [])
  }

  ghost function Exec(s: State, labels: seq<Label>): State
    decreases |labels|
  {
    if labels == [] then s
    else
      var before := Exec(s, labels[..|labels| - 1]);
      var l := labels[|labels| - 1];
      if Enabled(before, l) then Step(before, l) else before
  }

  lemma ExecSnoc(s: State, labels: seq<Label>, l: Label)
    ensures Exec(s, labels + [l])
            == var before := Exec(s, labels); if Enabled(before, l) then Step(before, l) else before
  {
    assert (labels + [l])[..|labels|] == labels;
  }

  lemma {:induction false} ExecAppend(s: State, a: seq<Label>, b: seq<Label>)
    ensures Exec(s, a + b) == Exec(Exec(s, a), b)
    decreases |b|
  {
    if b == [] {
      assert a + b == a;
    } else {
      var front, l := b[..|b| - 1], b[|b| - 1];
      assert b == front + [l];
      ExecAppend(s, a, front);
      Reassociate(a, front, [l]);
      ExecSnoc(s, a + front, l);
      ExecSnoc(Exec(s, a), front, l);
    }
  }

  /** Step i of the run is enabled and is such a step. */
  ghost predicate HappensAt(s: State, labels: seq<Label>, i: nat, cause: (State, Label) -> bool) {
    i < |labels| && Enabled(Exec(s, labels[..i]), labels[i]) && cause(Exec(s, labels[..i]), labels[i])
  }

  ghost predicate Happens(s: State, labels: seq<Label>, cause: (State, Label) -> bool) {
    exists i: nat :: HappensAt(s, labels, i, cause)
  }

  lemma EarlierHappens(s: State, front: seq<Label>, l: Label, i: nat, cause: (State, Label) -> bool)
    requires i < |front|
    ensures HappensAt(s, front, i, cause) <==> HappensAt(s, front + [l], i, cause)
  {
    assert front[..i] == (front + [l])[..i];
  }

  lemma HappensSnoc(s: State, front: seq<Label>, l: Label, cause: (State, Label) -> bool)
    ensures Happens(s, front + [l], cause)
            <==> Happens(s, front, cause) || (Enabled(Exec(s, front), l) && cause(Exec(s, front), l))
  {
    var labels := front + [l];
    assert labels[..|front|] == front;
    if i: nat :| HappensAt(s, front, i, cause) { EarlierHappens(s, front, l, i, cause); }
    if i: nat :| HappensAt(s, labels, i, cause) {
      if i < |front| { EarlierHappens(s, front, l, i, cause); }
    }
    if Enabled(Exec(s, front), l) && cause(Exec(s, front), l) { assert HappensAt(s, labels, |front|, cause); }
  }

  // -- Invariants ------------------------------------------------------------------

  /** Old sessions have lost their output; the current one keeps its own until the
      shutdown resets it, and then nobody is about to write. */
  ghost predicate SessionsInv(s: State) {
    && s.sessions != [] && |s.streams| == |s.sessions|
    && (forall g :: 0 <= g < |s.sessions| && s.sessions[g].output.Some? ==>
          g == Current(s) && s.sessions[g].output.value == s.streams[g])
    && (s.lock.Some? ==> s.lock.value.session == Current(s) && s.sessions[Current(s)].output.Some?)
    && (s.phase.OutputReset? || s.phase.Failing? || s.phase.Stopped? ==> s.sessions[Current(s)].output.None?)
  }

  ghost predicate WritesInv(s: State) {
    forall i :: 0 <= i < |s.writes| ==>
      s.writes[i].session < |s.streams| && s.writes[i].stream == s.streams[s.writes[i].session]
  }

  /** Steps that open or close a session. */
  predicate ChangesSession(l: Label) {
    l.StopDeactivates? || l.StopResetsOutput? || l.Starts?
  }

  lemma ChangeKeepsSessions(s: State, l: Label)
    requires SessionsInv(s) && Enabled(s, l) && ChangesSession(l)
    ensures SessionsInv(Step(s, l))
  {
  }

  lemma OthersLeaveSessions(s: State, l: Label)
    requires Enabled(s, l) && !ChangesSession(l)
    ensures Step(s, l).sessions == s.sessions && Step(s, l).streams == s.streams
  {
  }

  lemma OthersKeepLock(s: State, l: Label)
    requires SessionsInv(s) && Enabled(s, l) && !ChangesSession(l)
    ensures var h := Step(s, l).lock;
            h.Some? ==> h.value.session == Current(s) && s.sessions[Current(s)].output.Some?
  {
  }

  lemma OthersKeepPhase(s: State, l: Label)
    requires SessionsInv(s) && Enabled(s, l) && !ChangesSession(l)
    ensures var p := Step(s, l).phase;
            p.OutputReset? || p.Failing? || p.Stopped? ==> s.sessions[Current(s)].output.None?
  {
  }

  lemma StepKeepsSessions(s: State, l: Label)
    requires SessionsInv(s) && Enabled(s, l)
    ensures SessionsInv(Step(s, l))
  {
    if ChangesSession(l) {
      ChangeKeepsSessions(s, l);
    } else {
      OthersLeaveSessions(s, l);
      OthersKeepLock(s, l);
      OthersKeepPhase(s, l);
    }
  }

  lemma StepKeepsWrites(s: State, l: Label)
    requires SessionsInv(s) && WritesInv(s) && Enabled(s, l)
    ensures WritesInv(Step(s, l))
  {
    StreamsOnlyGrow(s, l);
    WritesOnlyFromHolder(s, l);
  }

  lemma StreamsOnlyGrow(s: State, l: Label)
    requires Enabled(s, l)
    ensures s.streams <= Step(s, l).streams
  {
  }

  function HolderAnswers(h: Holder): Option<nat> {
    if h.Sending? then h.message else None
  }

  lemma WritesOnlyFromHolder(s: State, l: Label)
    requires Enabled(s, l)
    ensures Step(s, l).writes == s.writes
            || (s.lock.Some? && s.lock.value.session < |s.sessions|
                && Step(s, l).writes == s.writes + Wrote(s, s.lock.value.session, HolderAnswers(s.lock.value)))
  {
  }

  lemma {:induction false} RunKeepsSessions(s: State, labels: seq<Label>)
    requires SessionsInv(s) && WritesInv(s)
    ensures SessionsInv(Exec(s, labels)) && WritesInv(Exec(s, labels))
    decreases |labels|
  {
    if labels != [] {
      RunKeepsSessions(s, labels[..|labels| - 1]);
      var before, l := Exec(s, labels[..|labels| - 1]), labels[|labels| - 1];
      if Enabled(before, l) {
        StepKeepsSessions(before, l);
        StepKeepsWrites(before, l);
      }
    }
  }
}
