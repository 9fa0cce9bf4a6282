// Which requests are registered, and which cancels reach them, in every run.
module CancelReach {
  import opened Base
  import opened Classify
  import opened CancelRegistry
  import H = Recency

  // -- Causes in a run ------------------------------------------------------------------

  /** Step i of the run is enabled and is such a step. */
  ghost predicate HappensAt(labels: seq<Label>, lim: Limits, i: nat, cause: (World, Label) -> bool) {
    && i < |labels|
    && Enabled(Exec(labels[..i], lim), labels[i]) && cause(Exec(labels[..i], lim), labels[i])
  }

  ghost predicate Happens(labels: seq<Label>, lim: Limits, cause: (World, Label) -> bool) {
    exists i: nat :: HappensAt(labels, lim, i, cause)
  }

  lemma HappensSnoc(front: seq<Label>, l: Label, lim: Limits, cause: (World, Label) -> bool)
    ensures Happens(front + [l], lim, cause)
            <==> Happens(front, lim, cause) || (Enabled(Exec(front, lim), l) && cause(Exec(front, lim), l))
  {
    var labels := front + [l];
    assert labels[..|front|] == front;
    forall i: nat | i < |front| ensures HappensAt(labels, lim, i, cause) <==> HappensAt(front, lim, i, cause) {
      assert labels[..i] == front[..i];
    }
    if i: nat :| HappensAt(front, lim, i, cause) { assert HappensAt(labels, lim, i, cause); }
    if i: nat :| HappensAt(labels, lim, i, cause) { assert i == |front| || HappensAt(front, lim, i, cause); }
    if Enabled(Exec(front, lim), l) && cause(Exec(front, lim), l) { assert HappensAt(labels, lim, |front|, cause); }
  }

  // -- Cancels reach what is registered ---------------------------------------------------

  /** The step sets the flag of the instance with this cookie: a cancel meets it
      registered, the endpoint stops while it is registered, or it starts and a
      remembered cancel applies. */
  predicate Cancels(w: World, l: Label, cookie: nat) {
    || (l.CancelArrives? && l.id in w.r.cancelers && w.r.cancelers[l.id] == cookie)
    || (l.EndpointStops? && cookie in w.r.cancelers.Values)
    || (l.RequestBegins? && cookie == w.r.nextCookie && l.id in w.r.pending.table
        && (l.id !in w.r.seen.table || w.r.pending.table[l.id] > l.sequence))
  }

  lemma StepCancelsExactlyWhen(w: World, l: Label, lim: Limits, cookie: nat)
    requires Enabled(w, l)
    ensures cookie in Step(w, l, lim).r.cancelled <==> cookie in w.r.cancelled || Cancels(w, l, cookie)
  {
  }

  function Cancelling(cookie: nat): (World, Label) -> bool {
    (w: World, l: Label) => Cancels(w, l, cookie)
  }

  /** In every run: an instance is cancelled if and only if a cancel of its id came while
      it was registered, the endpoint stopped while it was registered, or a remembered
      cancel applied at its start. */
  lemma {:induction false} CancelledExactlyWhen(labels: seq<Label>, lim: Limits, cookie: nat)
    ensures cookie in Exec(labels, lim).r.cancelled <==> Happens(labels, lim, Cancelling(cookie))
    decreases |labels|
  {
    if labels != [] {
      var front, l := labels[..|labels| - 1], labels[|labels| - 1];
      assert labels == front + [l];
      CancelledExactlyWhen(front, lim, cookie);
      ExecSnoc(front, l, lim);
      HappensSnoc(front, l, lim, Cancelling(cookie));
      if Enabled(Exec(front, lim), l) {
        StepCancelsExactlyWhen(Exec(front, lim), l, lim, cookie);
      }
    }
  }

  // -- What is registered --------------------------------------------------------------------

  /** The instances started since the last stop. */
  function Instances(labels: seq<Label>, lim: Limits): set<Key>
    decreases |labels|
  {
    if labels == [] then {}
    else
      var front, l := labels[..|labels| - 1], labels[|labels| - 1];
      match l
      case RequestBegins(id, _) => Instances(front, lim) + {(id, Exec(front, lim).r.nextCookie)}
      case EndpointStops => {}
      case _ => Instances(front, lim)
  }

  /** The last instance of an id started since the last stop. */
  function Newest(labels: seq<Label>, lim: Limits, id: Id): Option<nat>
    decreases |labels|
  {
    if labels == [] then None
    else
      var front, l := labels[..|labels| - 1], labels[|labels| - 1];
      match l
      case RequestBegins(x, _) => if x == id then Some(Exec(front, lim).r.nextCookie) else Newest(front, lim, id)
      case EndpointStops => None
      case _ => Newest(front, lim, id)
  }

  /** The last handle of an instance is released. */
  predicate LetsGo(w: World, l: Label, key: Key) {
    l.HandleReleased? && l.key == key && w.handles[key] == 1
  }

  function LettingGo(key: Key): (World, Label) -> bool {
    (w: World, l: Label) => LetsGo(w, l, key)
  }

  predicate IsRegistered(r: Registry, key: Key) {
    key.0 in r.cancelers && r.cancelers[key.0] == key.1
  }

  function Count(r: Registry, key: Key): nat {
    if key in r.retained then r.retained[key] else 0
  }

  /** What a run keeps about one instance. */
  ghost predicate Tracked(w: World, key: Key, known: bool, newest: Option<nat>, letGo: bool) {
    && (known ==> key.1 < w.r.nextCookie)
    && (key.1 >= w.r.nextCookie ==> key !in w.contexts && key !in w.handles && !letGo && newest != Some(key.1))
    && (known ==> Count(w.r, key) == w.handles[key])
    && (!known ==> key !in w.r.retained && !IsRegistered(w.r, key))
    && (newest == Some(key.1) ==> known)
    && (known && letGo ==> w.handles[key] == 0)
    && (key in w.r.retained ==> w.r.retained[key] > 0)
    && (known ==> (IsRegistered(w.r, key)
                   <==> newest == Some(key.1) && !letGo && (key in w.contexts || key in w.handles)))
  }

  function KnownAfter(w: World, l: Label, key: Key, known: bool): bool {
    match l
    case RequestBegins(id, _) => known || key == (id, w.r.nextCookie)
    case EndpointStops => false
    case _ => known
  }

  function NewestAfter(w: World, l: Label, id: Id, newest: Option<nat>): Option<nat> {
    match l
    case RequestBegins(x, _) => if x == id then Some(w.r.nextCookie) else newest
    case EndpointStops => None
    case _ => newest
  }

  lemma BeginTracks(w: World, l: Label, lim: Limits, key: Key, known: bool, newest: Option<nat>, letGo: bool)
    requires Tracked(w, key, known, newest, letGo) && l.RequestBegins?
    ensures Tracked(Step(w, l, lim), key, KnownAfter(w, l, key, known), NewestAfter(w, l, key.0, newest), letGo)
  {
  }

  lemma RetainTracks(w: World, l: Label, lim: Limits, key: Key, known: bool, newest: Option<nat>, letGo: bool)
    requires Tracked(w, key, known, newest, letGo) && l.HandlerRetains?
    ensures Tracked(Step(w, l, lim), key, known, newest, letGo)
  {
  }

  lemma EndTracks(w: World, l: Label, lim: Limits, key: Key, known: bool, newest: Option<nat>, letGo: bool)
    requires Tracked(w, key, known, newest, letGo) && l.ContextEnds? && Enabled(w, l)
    ensures Tracked(Step(w, l, lim), key, known, newest, letGo)
  {
    OthersKeepRegistration(w.r, l.key, key);
  }

  lemma OthersKeepRegistration(r: Registry, gone: Key, key: Key)
    ensures IsRegistered(Unregister(r, gone), key) <==> IsRegistered(r, key) && gone != key
  {
  }

  lemma ReleaseTracks(w: World, l: Label, lim: Limits, key: Key, known: bool, newest: Option<nat>, letGo: bool)
    requires Tracked(w, key, known, newest, letGo) && l.HandleReleased? && Enabled(w, l)
    ensures Tracked(Step(w, l, lim), key, known, newest, letGo || LetsGo(w, l, key))
  {
    OthersKeepRegistration(w.r.(retained := w.r.retained - {l.key}), l.key, key);
  }

  lemma StepTracks(w: World, l: Label, lim: Limits, key: Key, known: bool, newest: Option<nat>, letGo: bool)
    requires Tracked(w, key, known, newest, letGo) && Enabled(w, l)
    ensures Tracked(Step(w, l, lim), key, KnownAfter(w, l, key, known), NewestAfter(w, l, key.0, newest),
                    letGo || LetsGo(w, l, key))
  {
    if l.RequestBegins? {
      BeginTracks(w, l, lim, key, known, newest, letGo);
    } else if l.HandlerRetains? {
      RetainTracks(w, l, lim, key, known, newest, letGo);
    } else if l.ContextEnds? {
      EndTracks(w, l, lim, key, known, newest, letGo);
    } else if l.HandleReleased? {
      ReleaseTracks(w, l, lim, key, known, newest, letGo);
    }
  }

  lemma {:induction false} RunTracks(labels: seq<Label>, lim: Limits, key: Key)
    ensures Tracked(Exec(labels, lim), key, key in Instances(labels, lim), Newest(labels, lim, key.0),
                    Happens(labels, lim, LettingGo(key)))
    decreases |labels|
  {
    if labels != [] {
      var front, l := labels[..|labels| - 1], labels[|labels| - 1];
      assert labels == front + [l];
      RunTracks(front, lim, key);
      ExecSnoc(front, l, lim);
      HappensSnoc(front, l, lim, LettingGo(key));
      if Enabled(Exec(front, lim), l) {
        StepTracks(Exec(front, lim), l, lim, key, key in Instances(front, lim), Newest(front, lim, key.0),
                   Happens(front, lim, LettingGo(key)));
      }
    }
  }

  /** In every run: an instance is registered if and only if it is the newest of its id
      started since the last stop, its context is live or a handle is outstanding, and no
      release of a last handle has taken the entry away already. */
  lemma RegisteredExactlyWhen(labels: seq<Label>, lim: Limits, key: Key)
    ensures var w := Exec(labels, lim);
            IsRegistered(w.r, key)
            <==> Newest(labels, lim, key.0) == Some(key.1) && !Happens(labels, lim, LettingGo(key))
                 && (key in w.contexts || key in w.handles)
  {
    RunTracks(labels, lim, key);
  }

  /** The retain count of every instance started since the last stop is the number of its
      outstanding handles; earlier instances have none. */
  lemma RetainCountsHandles(labels: seq<Label>, lim: Limits, key: Key)
    ensures var w := Exec(labels, lim);
            Count(w.r, key) == if key in Instances(labels, lim) then w.handles[key] else 0
  {
    RunTracks(labels, lim, key);
  }

  const Id1 := IntId(1)

  /** The last handle can be released before the handler's context has ended, and takes
      the entry with it: a cancel that comes then does not reach the running handler. */
  lemma EarlyReleaseLosesTheEntry()
    ensures var run := [] + [RequestBegins(Id1, 0)] + [HandlerRetains(Id1)] + [HandleReleased((Id1, 0))] + [CancelArrives(Id1, 1)];
            var w := Exec(run, Limits(0, 0));
            (Id1, 0) in w.contexts && 0 !in w.r.cancelled
  {
    var r0: seq<Label> := [];
    var lim := Limits(0, 0);
    var r1 := r0 + [RequestBegins(Id1, 0)];
    var r2 := r1 + [HandlerRetains(Id1)];
    var r3 := r2 + [HandleReleased((Id1, 0))];
    ExecSnoc(r0, RequestBegins(Id1, 0), lim);
    ExecSnoc(r1, HandlerRetains(Id1), lim);
    ExecSnoc(r2, HandleReleased((Id1, 0)), lim);
    ExecSnoc(r3, CancelArrives(Id1, 1), lim);
  }
}
