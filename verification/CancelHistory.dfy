// Whole-run properties of cancellation: when a request starts cancelled, and what
// the bounded history tables remember.
module CancelHistory {
  import opened Base
  import opened Classify
  import opened CancelRegistry
  import H = Recency

  // -- Starting cancelled ----------------------------------------------------------

  /** Events after which a remembered cancel of id is gone. */
  predicate Forgets(l: Label, id: Id) {
    l.EndpointStops? || (l.RequestBegins? && l.id == id)
  }

  /** labels[i] is a cancel of id that found no registered instance and has not been
      used up by a later start of id, nor dropped by a stop. */
  ghost predicate StillPending(labels: seq<Label>, i: nat, id: Id, lim: Limits) {
    && i < |labels|
    && labels[i].CancelArrives? && labels[i].id == id
    && id !in Exec(labels[..i], lim).r.cancelers
    && (forall j :: i < j < |labels| ==> !Forgets(labels[j], id))
  }

  /** labels[i] started an instance of id and the endpoint has not stopped since. */
  ghost predicate Started(labels: seq<Label>, i: nat, id: Id) {
    && i < |labels|
    && labels[i].RequestBegins? && labels[i].id == id
    && (forall j :: i < j < |labels| ==> !labels[j].EndpointStops?)
  }

  const Unlimited := Limits(0, 0)

  lemma PendingExtends(labels: seq<Label>, l: Label, i: nat, id: Id)
    requires i < |labels|
    ensures StillPending(labels + [l], i, id, Unlimited)
            <==> StillPending(labels, i, id, Unlimited) && !Forgets(l, id)
    ensures Started(labels + [l], i, id) <==> Started(labels, i, id) && !l.EndpointStops?
  {
    var all := labels + [l];
    assert all[..i] == labels[..i];
    assert all[|labels|] == l;
    assert forall j :: 0 <= j < |labels| ==> all[j] == labels[j];
  }

  /** With unlimited history the table remembers, per id, the newest pending cancel. */
  ghost predicate RemembersCancels(labels: seq<Label>, id: Id) {
    var table := Exec(labels, Unlimited).r.pending.table;
    && (forall i: nat :: StillPending(labels, i, id, Unlimited) ==> id in table && labels[i].sequence <= table[id])
    && (id in table ==> exists i: nat :: StillPending(labels, i, id, Unlimited) && labels[i].sequence == table[id])
  }

  ghost predicate RemembersStarts(labels: seq<Label>, id: Id) {
    id in Exec(labels, Unlimited).r.seen.table <==> exists i: nat :: Started(labels, i, id)
  }

  lemma {:induction false} UnlimitedHistoryIsComplete(labels: seq<Label>, id: Id)
    ensures RemembersCancels(labels, id) && RemembersStarts(labels, id)
    decreases |labels|
  {
    if labels != [] {
      var front, l := labels[..|labels| - 1], labels[|labels| - 1];
      assert labels == front + [l];
      UnlimitedHistoryIsComplete(front, id);
      ExecSnoc(front, l, Unlimited);
      CancelsStep(front, l, id);
      StartsStep(front, l, id);
    }
  }

  lemma CancelsStep(front: seq<Label>, l: Label, id: Id)
    requires RemembersCancels(front, id)
    ensures RemembersCancels(front + [l], id)
  {
    var labels := front + [l];
    forall i: nat | StillPending(labels, i, id, Unlimited)
      ensures var table := Exec(labels, Unlimited).r.pending.table; id in table && labels[i].sequence <= table[id]
    {
      PendingIsRemembered(front, l, id, i);
    }
    if id in Exec(labels, Unlimited).r.pending.table {
      var i := RememberedIsPending(front, l, id);
    }
  }

  /** What is remembered for an id after one step. */
  function PendingAfter(w: World, l: Label, id: Id): Option<nat> {
    var known := if id in w.r.pending.table then Some(w.r.pending.table[id]) else None;
    if Forgets(l, id) then None
    else if l.CancelArrives? && l.id == id && id !in w.r.cancelers
            && (known.None? || known.value < l.sequence) then Some(l.sequence)
    else known
  }

  lemma PendingStep(w: World, l: Label, id: Id)
    requires Enabled(w, l)
    ensures var table := Step(w, l, Unlimited).r.pending.table;
            PendingAfter(w, l, id) == if id in table then Some(table[id]) else None
  {
  }

  lemma PendingRunStep(front: seq<Label>, l: Label, id: Id)
    ensures var table := Exec(front + [l], Unlimited).r.pending.table;
            PendingAfter(Exec(front, Unlimited), l, id) == if id in table then Some(table[id]) else None
  {
    ExecSnoc(front, l, Unlimited);
    if Enabled(Exec(front, Unlimited), l) {
      PendingStep(Exec(front, Unlimited), l, id);
    }
  }

  lemma PendingIsRemembered(front: seq<Label>, l: Label, id: Id, i: nat)
    requires RemembersCancels(front, id) && StillPending(front + [l], i, id, Unlimited)
    ensures var table := Exec(front + [l], Unlimited).r.pending.table;
            id in table && (front + [l])[i].sequence <= table[id]
  {
    PendingRunStep(front, l, id);
    assert (front + [l])[..|front|] == front;
    if i < |front| {
      PendingExtends(front, l, i, id);
      assert (front + [l])[i] == front[i];
    }
  }

  lemma RememberedIsPending(front: seq<Label>, l: Label, id: Id) returns (i: nat)
    requires RemembersCancels(front, id) && id in Exec(front + [l], Unlimited).r.pending.table
    ensures StillPending(front + [l], i, id, Unlimited)
    ensures (front + [l])[i].sequence == Exec(front + [l], Unlimited).r.pending.table[id]
  {
    var labels := front + [l];
    PendingRunStep(front, l, id);
    assert labels[..|front|] == front;
    var before, after := Exec(front, Unlimited), Exec(labels, Unlimited);
    if l.CancelArrives? && l.id == id && id !in before.r.cancelers && after.r.pending.table[id] == l.sequence {
      i := |front|;
    } else {
      i :| StillPending(front, i, id, Unlimited) && front[i].sequence == before.r.pending.table[id];
      PendingExtends(front, l, i, id);
      assert labels[i] == front[i];
    }
  }

  lemma StartsStep(front: seq<Label>, l: Label, id: Id)
    requires RemembersStarts(front, id)
    ensures RemembersStarts(front + [l], id)
  {
    var labels := front + [l];
    ExecSnoc(front, l, Unlimited);
    var after := Exec(labels, Unlimited);
    if id in after.r.seen.table {
      if l.RequestBegins? && l.id == id {
        assert Started(labels, |front|, id);
      } else {
        var i: nat :| Started(front, i, id);
        PendingExtends(front, l, i, id);
      }
    }
    if i: nat :| Started(labels, i, id) {
      if i < |front| { PendingExtends(front, l, i, id); }
    }
  }

  ghost predicate CookiesBelow(r: Registry) {
    && (forall c :: c in r.cancelled ==> c < r.nextCookie)
    && (forall id :: id in r.cancelers ==> r.cancelers[id] < r.nextCookie)
  }

  lemma {:induction false} CookiesAreFresh(labels: seq<Label>, lim: Limits)
    ensures CookiesBelow(Exec(labels, lim).r)
    decreases |labels|
  {
    if labels != [] {
      CookiesAreFresh(labels[..|labels| - 1], lim);
      var before, l := Exec(labels[..|labels| - 1], lim), labels[|labels| - 1];
      if Enabled(before, l) {
        StepKeepsCookies(before, l, lim);
      }
    }
  }

  lemma StepKeepsCookies(w: World, l: Label, lim: Limits)
    requires CookiesBelow(w.r) && Enabled(w, l)
    ensures CookiesBelow(Step(w, l, lim).r)
  {
    match l
    case ContextEnds(key) => UnregisterKeepsCookies(w.r, key);
    case HandleReleased(key) => UnregisterKeepsCookies(w.r.(retained := w.r.retained - {key}), key);
    case _ =>
  }

  lemma UnregisterKeepsCookies(r: Registry, key: Key)
    requires CookiesBelow(r)
    ensures CookiesBelow(Unregister(r, key))
  {
  }

  /** With unlimited history, after any run a request starts cancelled exactly when
      some cancel of its id is still pending and either comes later than the request
      or the id has not been started before. */
  lemma StartsCancelledExactlyWhen(labels: seq<Label>, id: Id, sequence: nat)
    ensures var before := Exec(labels, Unlimited);
            var after := Exec(labels + [RequestBegins(id, sequence)], Unlimited);
            before.r.nextCookie in after.r.cancelled
            <==> exists i: nat :: StillPending(labels, i, id, Unlimited)
                   && (labels[i].sequence > sequence || !exists j: nat :: Started(labels, j, id))
  {
    ExecSnoc(labels, RequestBegins(id, sequence), Unlimited);
    UnlimitedHistoryIsComplete(labels, id);
    CookiesAreFresh(labels, Unlimited);
  }

  /** A later cancel that found no instance cancels the request at its start. */
  lemma LaterCancelTakesEffect(labels: seq<Label>, i: nat, id: Id, sequence: nat)
    requires StillPending(labels, i, id, Unlimited) && labels[i].sequence > sequence
    ensures var before := Exec(labels, Unlimited);
            before.r.nextCookie in Exec(labels + [RequestBegins(id, sequence)], Unlimited).r.cancelled
  {
    StartsCancelledExactlyWhen(labels, id, sequence);
  }

  /** Cancels no later than a reused id never cancel the reuse at its start. */
  lemma OlderCancelSparesReuse(labels: seq<Label>, j: nat, id: Id, sequence: nat)
    requires Started(labels, j, id)
    requires forall i: nat :: StillPending(labels, i, id, Unlimited) ==> labels[i].sequence <= sequence
    ensures var before := Exec(labels, Unlimited);
            before.r.nextCookie !in Exec(labels + [RequestBegins(id, sequence)], Unlimited).r.cancelled
  {
    StartsCancelledExactlyWhen(labels, id, sequence);
  }

  // -- Bounded history ---------------------------------------------------------------

  function NumberOf(list: seq<H.Entry>, id: Id): Option<nat> {
    if list == [] then None
    else if list[0].0 == id then Some(list[0].1)
    else NumberOf(list[1..], id)
  }

  function Remember(list: seq<H.Entry>, id: Id, sequence: nat, limit: nat): seq<H.Entry> {
    H.Newest(H.Without(list, id) + [(id, sequence)], limit)
  }

  /** Recency lists: what the two histories are meant to hold. `registered` are the
      ids that had a canceler when the event arrived. */
  function ListStep(lists: (seq<H.Entry>, seq<H.Entry>), registered: set<Id>, l: Label, lim: Limits)
    : (seq<H.Entry>, seq<H.Entry>)
  {
    match l
    case CancelArrives(id, n) =>
      var known := NumberOf(lists.0, id);
      if id in registered || (known.Some? && known.value >= n) then lists
      else (Remember(lists.0, id, n, lim.pending), lists.1)
    case RequestBegins(id, n) => (H.Without(lists.0, id), Remember(lists.1, id, n, lim.seen))
    case EndpointStops => ([], [])
    case _ => lists
  }

  function Lists(labels: seq<Label>, lim: Limits): (seq<H.Entry>, seq<H.Entry>)
    decreases |labels|
  {
    if labels == [] then ([], [])
    else
      var front := labels[..|labels| - 1];
      ListStep(Lists(front, lim), Exec(front, lim).r.cancelers.Keys, labels[|labels| - 1], lim)
  }

  predicate Numbered(l: Label) {
    l.CancelArrives? || l.RequestBegins?
  }

  /** Frames carry distinct sequence numbers. */
  ghost predicate DistinctNumbers(labels: seq<Label>) {
    forall i, j :: 0 <= i < j < |labels| && Numbered(labels[i]) && Numbered(labels[j])
      ==> labels[i].sequence != labels[j].sequence
  }

  ghost predicate Uses(labels: seq<Label>, n: nat) {
    exists i :: 0 <= i < |labels| && Numbered(labels[i]) && labels[i].sequence == n
  }

  ghost predicate FromRun(h: H.History, labels: seq<Label>) {
    forall e :: e in h.order ==> Uses(labels, e.1)
  }

  ghost predicate Mirrors(h: H.History, list: seq<H.Entry>, limit: nat) {
    && H.Inv(h)
    && H.Live(h.table, h.order) == list
    && (limit != 0 ==> |h.table| <= limit)
  }

  lemma {:induction false} LookupAgrees(list: seq<H.Entry>, table: map<Id, nat>, id: Id)
    requires H.DistinctIds(list) && (forall i :: 0 <= i < |list| ==> H.IsLive(table, list[i]))
    ensures id in H.Ids(list) ==> id in table && NumberOf(list, id) == Some(table[id])
    ensures id !in H.Ids(list) ==> NumberOf(list, id) == None
  {
    if list != [] {
      LookupAgrees(list[1..], table, id);
      H.IdsCons(list[0], list[1..]);
      assert list == [list[0]] + list[1..];
    }
  }

  lemma RecordMirrors(h: H.History, list: seq<H.Entry>, labels: seq<Label>, l: Label, id: Id, n: nat, limit: nat)
    requires Mirrors(h, list, limit) && FromRun(h, labels) && !Uses(labels, n)
    requires Numbered(l) && l.sequence == n
    ensures Mirrors(H.Record(h, id, n, limit), Remember(list, id, n, limit), limit)
    ensures FromRun(H.Record(h, id, n, limit), labels + [l])
  {
    assert forall i :: 0 <= i < |h.order| ==> h.order[i] in h.order;
    H.RecordRefinesRecencyList(h, id, n, limit);
    UsesExtends(labels, l);
    assert (labels + [l])[|labels|] == l;
    assert Uses(labels + [l], n);
  }

  lemma UsesExtends(labels: seq<Label>, l: Label)
    ensures forall n :: Uses(labels, n) ==> Uses(labels + [l], n)
  {
    assert forall i :: 0 <= i < |labels| ==> (labels + [l])[i] == labels[i];
  }

  lemma RemovalMirrors(h: H.History, list: seq<H.Entry>, id: Id, limit: nat)
    requires Mirrors(h, list, limit)
    ensures Mirrors(H.Consume(h, id), H.Without(list, id), limit)
  {
    H.ConsumeRefinesRemoval(h, id);
    assert |h.table - {id}| <= |h.table| by {
      assert (h.table - {id}).Keys == h.table.Keys - {id};
    }
  }

  ghost predicate BothMirror(r: Registry, lists: (seq<H.Entry>, seq<H.Entry>), labels: seq<Label>, lim: Limits) {
    && Mirrors(r.pending, lists.0, lim.pending) && FromRun(r.pending, labels)
    && Mirrors(r.seen, lists.1, lim.seen) && FromRun(r.seen, labels)
  }

  ghost predicate RunMirrors(labels: seq<Label>, lim: Limits) {
    BothMirror(Exec(labels, lim).r, Lists(labels, lim), labels, lim)
  }

  /** In every run the two history tables hold exactly the newest remembered ids,
      never more than their limit, although overwritten and consumed records stay
      in the prune queues. */
  lemma {:induction false} HistoriesAreRecencyLists(labels: seq<Label>, lim: Limits)
    requires DistinctNumbers(labels)
    ensures RunMirrors(labels, lim)
    ensures var r, lists := Exec(labels, lim).r, Lists(labels, lim);
            && r.pending.table.Keys == H.Ids(lists.0) && (lim.pending != 0 ==> |r.pending.table| <= lim.pending)
            && r.seen.table.Keys == H.Ids(lists.1) && (lim.seen != 0 ==> |r.seen.table| <= lim.seen)
    decreases |labels|
  {
    if labels != [] {
      var front, l := labels[..|labels| - 1], labels[|labels| - 1];
      assert labels == front + [l];
      HistoriesAreRecencyLists(front, lim);
      StepMirrors(front, l, lim);
    }
  }

  lemma StepMirrors(front: seq<Label>, l: Label, lim: Limits)
    requires RunMirrors(front, lim)
    requires Numbered(l) ==> !Uses(front, l.sequence)
    ensures RunMirrors(front + [l], lim)
  {
    ExecSnoc(front, l, lim);
    ListsSnoc(front, l, lim);
    var before, lists := Exec(front, lim), Lists(front, lim);
    if Numbered(l) {
      NumberedMirrors(before, lists, front, l, lim);
    } else {
      QuietMirrors(before, lists, front, l, lim);
    }
  }

  lemma ListsSnoc(front: seq<Label>, l: Label, lim: Limits)
    ensures Lists(front + [l], lim) == ListStep(Lists(front, lim), Exec(front, lim).r.cancelers.Keys, l, lim)
  {
    assert (front + [l])[..|front|] == front;
  }

  lemma NumberedMirrors(w: World, lists: (seq<H.Entry>, seq<H.Entry>), front: seq<Label>, l: Label, lim: Limits)
    requires BothMirror(w.r, lists, front, lim) && Numbered(l) && !Uses(front, l.sequence)
    ensures BothMirror(Step(w, l, lim).r, ListStep(lists, w.r.cancelers.Keys, l, lim), front + [l], lim)
  {
    UsesExtends(front, l);
    if l.CancelArrives? {
      CancelMirrors(w.r, lists, front, l, lim);
    } else {
      BeginMirrors(w.r, lists, front, l, lim);
    }
  }

  lemma BeginMirrors(r: Registry, lists: (seq<H.Entry>, seq<H.Entry>), front: seq<Label>, l: Label, lim: Limits)
    requires BothMirror(r, lists, front, lim) && l.RequestBegins? && !Uses(front, l.sequence)
    ensures BothMirror(Begin(r, l.id, l.sequence, lim), ListStep(lists, r.cancelers.Keys, l, lim), front + [l], lim)
  {
    UsesExtends(front, l);
    RemovalMirrors(r.pending, lists.0, l.id, lim.pending);
    RecordMirrors(r.seen, lists.1, front, l, l.id, l.sequence, lim.seen);
  }

  lemma QuietMirrors(w: World, lists: (seq<H.Entry>, seq<H.Entry>), front: seq<Label>, l: Label, lim: Limits)
    requires BothMirror(w.r, lists, front, lim) && !Numbered(l)
    ensures BothMirror((if Enabled(w, l) then Step(w, l, lim) else w).r,
                       ListStep(lists, w.r.cancelers.Keys, l, lim), front + [l], lim)
  {
    UsesExtends(front, l);
    if Enabled(w, l) && !l.EndpointStops? {
      OthersLeaveHistory(w, l, lim);
    }
  }

  lemma OthersLeaveHistory(w: World, l: Label, lim: Limits)
    requires !Numbered(l) && !l.EndpointStops? && Enabled(w, l)
    ensures Step(w, l, lim).r.pending == w.r.pending && Step(w, l, lim).r.seen == w.r.seen
  {
  }

  lemma CancelMirrors(r: Registry, lists: (seq<H.Entry>, seq<H.Entry>), front: seq<Label>, l: Label, lim: Limits)
    requires l.CancelArrives? && !Uses(front, l.sequence)
    requires Mirrors(r.pending, lists.0, lim.pending) && FromRun(r.pending, front)
    ensures var r', lists' := OnCancel(r, l.id, l.sequence, lim), ListStep(lists, r.cancelers.Keys, l, lim);
            && Mirrors(r'.pending, lists'.0, lim.pending) && FromRun(r'.pending, front + [l])
            && r'.seen == r.seen && lists'.1 == lists.1
  {
    UsesExtends(front, l);
    H.LiveEntriesAreLive(r.pending.table, r.pending.order);
    LookupAgrees(lists.0, r.pending.table, l.id);
    RecordMirrors(r.pending, lists.0, front, l, l.id, l.sequence, lim.pending);
  }
}
