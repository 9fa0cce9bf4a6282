// RequestCancellationRegistry and the operations of RemoteEndPoint::Data that use
// it. Every operation is one critical section under the registry mutex. A request
// instance is known by its id and its cookie; `cancelled` are the cookies whose
// cancellation flag has been set.
module CancelRegistry {
  import opened Base
  import opened Classify
  import H = Recency

  type Key = (Id, nat)

  datatype Registry = Registry(
    cancelers: map<Id, nat>,
    pending: H.History,
    seen: H.History,
    retained: map<Key, nat>,
    nextCookie: nat,
    cancelled: set<nat>)

  datatype Limits = Limits(pending: nat, seen: nat)

  const Fresh := Registry(map[], H.Empty, H.Empty, map[], 0, {})

  /** A cancel reaches the registered instance, or is remembered if it is newer
      than what is already remembered for the id. */
  function OnCancel(r: Registry, id: Id, sequence: nat, lim: Limits): (r': Registry) {
    if id in r.cancelers then
      r.(cancelled := r.cancelled + {r.cancelers[id]})
    else if id !in r.pending.table || r.pending.table[id] < sequence then
      r.(pending := H.Record(r.pending, id, sequence, lim.pending))
    else
      r
  }

  /** Whether a request that begins now starts cancelled. */
  predicate ShouldCancel(r: Registry, id: Id, sequence: nat) {
    id in r.pending.table && (id !in r.seen.table || r.pending.table[id] > sequence)
  }

  /** cancelableRequestContext: the new instance takes over the id. */
  function Begin(r: Registry, id: Id, sequence: nat, lim: Limits): (r': Registry) {
    r.(cancelers := r.cancelers[id := r.nextCookie],
       nextCookie := r.nextCookie + 1,
       pending := H.Consume(r.pending, id),
       seen := H.Record(r.seen, id, sequence, lim.seen),
       cancelled := if ShouldCancel(r, id, sequence) then r.cancelled + {r.nextCookie} else r.cancelled)
  }

  function Registered(r: Registry, id: Id): (r': Registry) {
    r.(cancelers := r.cancelers[id := r.nextCookie], nextCookie := r.nextCookie + 1)
  }

  lemma BeginInSteps(r: Registry, id: Id, sequence: nat, lim: Limits)
    ensures var r1 := Registered(r, id);
            var r2 := r1.(pending := H.Consume(r1.pending, id));
            var r3 := r2.(seen := H.Record(r2.seen, id, sequence, lim.seen));
            && ShouldCancel(r1, id, sequence) == ShouldCancel(r, id, sequence)
            && Begin(r, id, sequence, lim)
               == if ShouldCancel(r, id, sequence) then r3.(cancelled := r3.cancelled + {r.nextCookie}) else r3
  {
  }

  function Unregister(r: Registry, key: Key): (r': Registry) {
    if key.0 in r.cancelers && r.cancelers[key.0] == key.1 then r.(cancelers := r.cancelers - {key.0}) else r
  }

  /** The scope exit of a request context. */
  function EndContext(r: Registry, key: Key): (r': Registry) {
    if key in r.retained then r else Unregister(r, key)
  }

  function RetainedKey(r: Registry, id: Id): Option<Key> {
    if id in r.cancelers then Some((id, r.cancelers[id])) else None
  }

  function Retain(r: Registry, key: Key): (r': Registry) {
    r.(retained := r.retained[key := 1 + if key in r.retained then r.retained[key] else 0])
  }

  /** The deleter of a retention handle. */
  function Release(r: Registry, key: Key): (r': Registry) {
    if key in r.retained && r.retained[key] > 1 then
      r.(retained := r.retained[key := r.retained[key] - 1])
    else
      Unregister(r.(retained := r.retained - {key}), key)
  }

  /** The part of clear() that cancels everything and forgets all history. */
  function Clear(r: Registry): (r': Registry) {
    r.(cancelled := r.cancelled + r.cancelers.Values,
       cancelers := map[], retained := map[], pending := H.Empty, seen := H.Empty)
  }

  // -- The mutable object --------------------------------------------------------

  class RequestCancellationRegistry {
    var requestCancelers: map<Id, nat>
    var pendingCancelRequests: map<Id, nat>
    var pendingCancelOrder: seq<H.Entry>
    var seenRequestIds: map<Id, nat>
    var seenRequestOrder: seq<H.Entry>
    var retainedRequestCancelers: map<Key, nat>
    var nextRequestCookie: nat
    var cancelledCookies: set<nat>

    function Model(): Registry
      reads this
    {
      Registry(requestCancelers, H.History(pendingCancelRequests, pendingCancelOrder),
               H.History(seenRequestIds, seenRequestOrder), retainedRequestCancelers,
               nextRequestCookie, cancelledCookies)
    }

    constructor ()
      ensures Model() == Fresh
    {
      requestCancelers, pendingCancelRequests, pendingCancelOrder := map[], map[], [];
      seenRequestIds, seenRequestOrder, retainedRequestCancelers := map[], [], map[];
      nextRequestCookie, cancelledCookies := 0, {};
    }

    method PrunePendingCancels(limit: nat)
      modifies this`pendingCancelRequests, this`pendingCancelOrder
      ensures H.History(pendingCancelRequests, pendingCancelOrder)
              == old(H.Prune(H.History(pendingCancelRequests, pendingCancelOrder), limit))
    {
      if limit == 0 {
        return;
      }
      while |pendingCancelRequests| > limit && pendingCancelOrder != []
        invariant H.Prune(H.History(pendingCancelRequests, pendingCancelOrder), limit)
                  == old(H.Prune(H.History(pendingCancelRequests, pendingCancelOrder), limit))
        decreases |pendingCancelOrder|
      {
        var oldest := pendingCancelOrder[0];
        pendingCancelOrder := pendingCancelOrder[1..];
        if oldest.0 in pendingCancelRequests && pendingCancelRequests[oldest.0] == oldest.1 {
          pendingCancelRequests := pendingCancelRequests - {oldest.0};
        }
      }
    }

    method PruneSeenRequests(limit: nat)
      modifies this`seenRequestIds, this`seenRequestOrder
      ensures H.History(seenRequestIds, seenRequestOrder)
              == old(H.Prune(H.History(seenRequestIds, seenRequestOrder), limit))
    {
      if limit == 0 {
        return;
      }
      while |seenRequestIds| > limit && seenRequestOrder != []
        invariant H.Prune(H.History(seenRequestIds, seenRequestOrder), limit)
                  == old(H.Prune(H.History(seenRequestIds, seenRequestOrder), limit))
        decreases |seenRequestOrder|
      {
        var oldest := seenRequestOrder[0];
        seenRequestOrder := seenRequestOrder[1..];
        if oldest.0 in seenRequestIds && seenRequestIds[oldest.0] == oldest.1 {
          seenRequestIds := seenRequestIds - {oldest.0};
        }
      }
    }

    method RecordPendingCancel(id: Id, sequence: nat, limit: nat)
      modifies this
      ensures Model() == old(Model().(pending := H.Record(Model().pending, id, sequence, limit)))
    {
      pendingCancelRequests := pendingCancelRequests[id := sequence];
      pendingCancelOrder := pendingCancelOrder + [(id, sequence)];
      PrunePendingCancels(limit);
    }

    method RecordSeenRequest(id: Id, sequence: nat, limit: nat)
      modifies this
      ensures Model() == old(Model().(seen := H.Record(Model().seen, id, sequence, limit)))
    {
      seenRequestIds := seenRequestIds[id := sequence];
      seenRequestOrder := seenRequestOrder + [(id, sequence)];
      PruneSeenRequests(limit);
    }

    method CancelArrives(id: Id, sequence: nat, lim: Limits)
      modifies this
      ensures Model() == old(OnCancel(Model(), id, sequence, lim))
    {
      if id in requestCancelers {
        cancelledCookies := cancelledCookies + {requestCancelers[id]};
        return;
      }
      if id !in pendingCancelRequests || pendingCancelRequests[id] < sequence {
        RecordPendingCancel(id, sequence, lim.pending);
      }
    }

    /** Uses up a remembered cancel and says whether it applies. */
    method TakePendingCancel(id: Id, sequence: nat) returns (shouldCancel: bool)
      modifies this
      ensures shouldCancel == old(ShouldCancel(Model(), id, sequence))
      ensures Model() == old(Model().(pending := H.Consume(Model().pending, id)))
    {
      shouldCancel := false;
      if id in pendingCancelRequests {
        shouldCancel := id !in seenRequestIds || pendingCancelRequests[id] > sequence;
        pendingCancelRequests := pendingCancelRequests - {id};
      }
    }

    /** The new instance takes over the id under a fresh cookie. */
    method Register(id: Id) returns (cookie: nat)
      modifies this
      ensures cookie == old(nextRequestCookie)
      ensures Model() == old(Registered(Model(), id))
    {
      cookie := nextRequestCookie;
      nextRequestCookie := nextRequestCookie + 1;
      requestCancelers := requestCancelers[id := cookie];
    }

    method InvokeCanceler(cookie: nat)
      modifies this
      ensures Model() == old(Model().(cancelled := Model().cancelled + {cookie}))
    {
      cancelledCookies := cancelledCookies + {cookie};
    }

    method BeginRequest(id: Id, sequence: nat, lim: Limits) returns (cookie: nat)
      modifies this
      ensures Model() == old(Begin(Model(), id, sequence, lim))
      ensures cookie == old(nextRequestCookie)
    {
      cookie := Register(id);
      var shouldCancel := TakePendingCancel(id, sequence);
      RecordSeenRequest(id, sequence, lim.seen);
      if shouldCancel {
        InvokeCanceler(cookie);
      }
      BeginInSteps(old(Model()), id, sequence, lim);
    }

    method ContextEnds(id: Id, cookie: nat)
      modifies this
      ensures Model() == old(EndContext(Model(), (id, cookie)))
    {
      if (id, cookie) in retainedRequestCancelers {
        return;
      }
      if id in requestCancelers && requestCancelers[id] == cookie {
        requestCancelers := requestCancelers - {id};
      }
    }

    method RetainCancellation(id: Id) returns (key: Option<Key>)
      modifies this
      ensures key == old(RetainedKey(Model(), id))
      ensures Model() == old(if id in requestCancelers then Retain(Model(), (id, requestCancelers[id])) else Model())
    {
      if id !in requestCancelers {
        return None;
      }
      var k := (id, requestCancelers[id]);
      var count := if k in retainedRequestCancelers then retainedRequestCancelers[k] else 0;
      retainedRequestCancelers := retainedRequestCancelers[k := count + 1];
      return Some(k);
    }

    method HandleReleased(key: Key)
      requires key in retainedRequestCancelers ==> retainedRequestCancelers[key] > 0
      modifies this
      ensures Model() == old(Release(Model(), key))
    {
      if key in retainedRequestCancelers {
        var count := retainedRequestCancelers[key] - 1;
        if count != 0 {
          retainedRequestCancelers := retainedRequestCancelers[key := count];
          return;
        }
      }
      retainedRequestCancelers := retainedRequestCancelers - {key};
      if key.0 in requestCancelers && requestCancelers[key.0] == key.1 {
        requestCancelers := requestCancelers - {key.0};
      }
    }

    method CancelAll()
      modifies this
      ensures Model() == old(Clear(Model()))
    {
      cancelledCookies := cancelledCookies + requestCancelers.Values;
      requestCancelers, retainedRequestCancelers := map[], map[];
      pendingCancelRequests, pendingCancelOrder := map[], [];
      seenRequestIds, seenRequestOrder := map[], [];
    }
  }

  // -- Runs ----------------------------------------------------------------------

  /** The registry with its environment: request contexts that have not ended and
      retention handles that have not been released. */
  datatype World = World(r: Registry, contexts: set<Key>, handles: multiset<Key>)

  datatype Label =
    | CancelArrives(id: Id, sequence: nat)
    | RequestBegins(id: Id, sequence: nat)
    | ContextEnds(key: Key)
    | HandlerRetains(id: Id)
    | HandleReleased(key: Key)
    | EndpointStops

  predicate Enabled(w: World, l: Label) {
    match l
    case ContextEnds(key) => key in w.contexts
    case HandleReleased(key) => key in w.handles
    case _ => true
  }

  function Step(w: World, l: Label, lim: Limits): World
    requires Enabled(w, l)
  {
    match l
    case CancelArrives(id, sequence) => w.(r := OnCancel(w.r, id, sequence, lim))
    case RequestBegins(id, sequence) =>
      w.(r := Begin(w.r, id, sequence, lim), contexts := w.contexts + {(id, w.r.nextCookie)})
    case ContextEnds(key) => w.(r := EndContext(w.r, key), contexts := w.contexts - {key})
    case HandlerRetains(id) =>
      if id in w.r.cancelers then
        var key := (id, w.r.cancelers[id]);
        w.(r := Retain(w.r, key), handles := w.handles + multiset{key})
      else w
    case HandleReleased(key) => w.(r := Release(w.r, key), handles := w.handles - multiset{key})
    case EndpointStops => w.(r := Clear(w.r))
  }

  const Start := World(Fresh, {}, multiset{})

  function Exec(labels: seq<Label>, lim: Limits): World
    decreases |labels|
  {
    if labels == [] then Start
    else
      var before := Exec(labels[..|labels| - 1], lim);
      var l := labels[|labels| - 1];
      if Enabled(before, l) then Step(before, l, lim) else before
  }

  lemma ExecSnoc(labels: seq<Label>, l: Label, lim: Limits)
    ensures Exec(labels + [l], lim)
            == var before := Exec(labels, lim); if Enabled(before, l) then Step(before, l, lim) else before
  {
    assert (labels + [l])[..|labels|] == labels;
  }

  // -- Retention -----------------------------------------------------------------

  ghost predicate Owned(w: World) {
    && (forall id :: id in w.r.cancelers ==>
          (id, w.r.cancelers[id]) in w.contexts || (id, w.r.cancelers[id]) in w.r.retained)
    && (forall key :: key in w.r.retained ==> 0 < w.r.retained[key] <= w.handles[key])
  }

  lemma ReleaseKeepsOwned(w: World, key: Key)
    requires Owned(w) && key in w.handles
    ensures Owned(w.(r := Release(w.r, key), handles := w.handles - multiset{key}))
  {
    var r := Release(w.r, key);
    forall id | id in r.cancelers ensures (id, r.cancelers[id]) in w.contexts || (id, r.cancelers[id]) in r.retained {
      assert id in w.r.cancelers && r.cancelers[id] == w.r.cancelers[id];
    }
  }

  lemma RetainKeepsOwned(w: World, key: Key)
    requires Owned(w)
    ensures Owned(w.(r := Retain(w.r, key), handles := w.handles + multiset{key}))
  {
  }

  lemma BeginKeepsOwned(w: World, id: Id, sequence: nat, lim: Limits)
    requires Owned(w)
    ensures Owned(w.(r := Begin(w.r, id, sequence, lim), contexts := w.contexts + {(id, w.r.nextCookie)}))
  {
  }

  lemma EndKeepsOwned(w: World, key: Key)
    requires Owned(w)
    ensures Owned(w.(r := EndContext(w.r, key), contexts := w.contexts - {key}))
  {
  }

  lemma StepKeepsOwned(w: World, l: Label, lim: Limits)
    requires Owned(w) && Enabled(w, l)
    ensures Owned(Step(w, l, lim))
  {
    match l
    case HandleReleased(key) => ReleaseKeepsOwned(w, key);
    case HandlerRetains(id) => if id in w.r.cancelers { RetainKeepsOwned(w, (id, w.r.cancelers[id])); }
    case RequestBegins(id, n) => BeginKeepsOwned(w, id, n, lim);
    case ContextEnds(key) => EndKeepsOwned(w, key);
    case _ =>
  }

  /** In every run, including id reuse, retention by async handlers and stop, a
      registered canceler belongs to an instance whose context is live or whose
      retain count is positive (and then as many handles are outstanding); so when
      all contexts have ended and all handles are released nothing is registered. */
  lemma {:induction false} CancelersAreOwned(labels: seq<Label>, lim: Limits)
    ensures Owned(Exec(labels, lim))
    ensures var w := Exec(labels, lim);
            w.contexts == {} && w.handles == multiset{} ==> w.r.cancelers == map[]
    decreases |labels|
  {
    if labels != [] {
      CancelersAreOwned(labels[..|labels| - 1], lim);
      var before, l := Exec(labels[..|labels| - 1], lim), labels[|labels| - 1];
      if Enabled(before, l) {
        StepKeepsOwned(before, l, lim);
      }
    }
    var w := Exec(labels, lim);
    if w.contexts == {} && w.handles == multiset{} {
      assert w.r.cancelers.Keys == {};
    }
  }

  /** Cleaning up one instance, by its context or by its last handle, leaves every
      entry of another instance, in particular of a newer one with the same id. */
  lemma CleanupSparesOtherInstances(r: Registry, key: Key, id: Id)
    requires id in r.cancelers && (id, r.cancelers[id]) != key
    ensures id in EndContext(r, key).cancelers && EndContext(r, key).cancelers[id] == r.cancelers[id]
    ensures id in Release(r, key).cancelers && Release(r, key).cancelers[id] == r.cancelers[id]
  {
  }
}
