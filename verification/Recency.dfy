// The pruned history tables of RequestCancellationRegistry: a map from id to
// sequence number together with a queue of (id, sequence) records. Overwriting
// or consuming an entry leaves its old record in the queue; pruning skips it.
module Recency {
  import opened Classify

  type Entry = (Id, nat)

  datatype History = History(table: map<Id, nat>, order: seq<Entry>)

  const Empty := History(map[], [])

  predicate IsLive(table: map<Id, nat>, e: Entry) {
    e.0 in table && table[e.0] == e.1
  }

  /** Drop the oldest record, and its entry if the record is still live. */
  function Pop(h: History): (r: History)
    requires h.order != []
  {
    History(if IsLive(h.table, h.order[0]) then h.table - {h.order[0].0} else h.table, h.order[1..])
  }

  predicate Fits(h: History, limit: nat) {
    limit == 0 || |h.table| <= limit || h.order == []
  }

  /** The pruning loop: drop the oldest records, live or stale, until the table fits. */
  function Prune(h: History, limit: nat): (r: History)
    decreases |h.order|
  {
    if Fits(h, limit) then h else Prune(Pop(h), limit)
  }

  function Record(h: History, id: Id, sequence: nat, limit: nat): (r: History) {
    Prune(History(h.table[id := sequence], h.order + [(id, sequence)]), limit)
  }

  function Consume(h: History, id: Id): (r: History) {
    h.(table := h.table - {id})
  }

  // -- The list the table stands for ------------------------------------------------

  /** Live records, oldest first. */
  function Live(table: map<Id, nat>, order: seq<Entry>): (r: seq<Entry>) {
    if order == [] then []
    else if IsLive(table, order[0]) then [order[0]] + Live(table, order[1..])
    else Live(table, order[1..])
  }

  function Without(list: seq<Entry>, id: Id): (r: seq<Entry>) {
    if list == [] then []
    else if list[0].0 == id then Without(list[1..], id)
    else [list[0]] + Without(list[1..], id)
  }

  /** The newest `limit` entries; all of them when the limit is zero. */
  function Newest(list: seq<Entry>, limit: nat): (r: seq<Entry>) {
    if limit == 0 || |list| <= limit then list else list[|list| - limit..]
  }

  function Ids(list: seq<Entry>): (r: set<Id>) {
    set i | 0 <= i < |list| :: list[i].0
  }

  ghost predicate DistinctIds(list: seq<Entry>) {
    forall i, j :: 0 <= i < j < |list| ==> list[i].0 != list[j].0
  }

  /** Every table entry has exactly one record in the queue. */
  ghost predicate Inv(h: History) {
    DistinctIds(Live(h.table, h.order)) && Ids(Live(h.table, h.order)) == h.table.Keys
  }

  /** The number has not been used for a record that is still queued. */
  ghost predicate FreshNumber(h: History, sequence: nat) {
    forall i :: 0 <= i < |h.order| ==> h.order[i].1 != sequence
  }

  lemma {:induction false} LiveAppend(table: map<Id, nat>, a: seq<Entry>, b: seq<Entry>)
    ensures Live(table, a + b) == Live(table, a) + Live(table, b)
  {
    if a == [] {
      assert a + b == b;
    } else {
      LiveAppend(table, a[1..], b);
      assert (a + b)[1..] == a[1..] + b;
    }
  }

  lemma {:induction false} LiveEntriesAreLive(table: map<Id, nat>, order: seq<Entry>)
    ensures forall i :: 0 <= i < |Live(table, order)| ==> IsLive(table, Live(table, order)[i])
  {
    if order != [] {
      LiveEntriesAreLive(table, order[1..]);
    }
  }

  /** Overwriting id under a fresh number removes exactly id's old record from view. */
  lemma {:induction false} OverwriteHides(table: map<Id, nat>, order: seq<Entry>, id: Id, sequence: nat)
    requires forall i :: 0 <= i < |order| ==> order[i].1 != sequence
    ensures Live(table[id := sequence], order) == Without(Live(table, order), id)
  {
    if order != [] {
      OverwriteHides(table, order[1..], id, sequence);
    }
  }

  lemma {:induction false} ConsumeHides(table: map<Id, nat>, order: seq<Entry>, id: Id)
    ensures Live(table - {id}, order) == Without(Live(table, order), id)
  {
    if order != [] {
      ConsumeHides(table, order[1..], id);
    }
  }

  lemma {:induction false} WithoutAbsent(list: seq<Entry>, id: Id)
    requires forall i :: 0 <= i < |list| ==> list[i].0 != id
    ensures Without(list, id) == list
  {
    if list != [] {
      WithoutAbsent(list[1..], id);
    }
  }

  lemma {:induction false} WithoutKeepsDistinct(list: seq<Entry>, id: Id)
    requires DistinctIds(list)
    ensures DistinctIds(Without(list, id))
    ensures Ids(Without(list, id)) == Ids(list) - {id}
  {
    if list != [] {
      var tail := list[1..];
      WithoutKeepsDistinct(tail, id);
      assert list == [list[0]] + tail;
      IdsCons(list[0], tail);
      if list[0].0 != id {
        IdsCons(list[0], Without(tail, id));
        assert list[0].0 !in Ids(tail);
        DistinctCons(list[0], Without(tail, id));
      }
    }
  }

  lemma IdsCons(e: Entry, list: seq<Entry>)
    ensures Ids([e] + list) == {e.0} + Ids(list)
  {
    var all := [e] + list;
    assert all[0] == e;
    assert forall i :: 0 <= i < |list| ==> list[i] == all[i + 1];
    assert forall i :: 0 < i < |all| ==> all[i] == list[i - 1];
  }

  lemma DistinctCons(e: Entry, list: seq<Entry>)
    requires DistinctIds(list) && e.0 !in Ids(list)
    ensures DistinctIds([e] + list)
  {
    var all := [e] + list;
    forall i, j | 0 <= i < j < |all| ensures all[i].0 != all[j].0 {
      assert all[j] == list[j - 1] && all[j].0 in Ids(list);
      if i > 0 { assert all[i] == list[i - 1]; }
    }
  }

  lemma {:induction false} CountIds(list: seq<Entry>)
    requires DistinctIds(list)
    ensures |Ids(list)| == |list|
  {
    if list != [] {
      CountIds(list[1..]);
      IdsCons(list[0], list[1..]);
      assert list == [list[0]] + list[1..];
      assert list[0].0 !in Ids(list[1..]);
    }
  }

  /** Dropping a live record removes the oldest entry; dropping a stale one nothing. */
  lemma PopRemovesOldest(h: History)
    requires Inv(h) && h.order != []
    ensures Inv(Pop(h))
    ensures Live(h.table, h.order)
            == (if IsLive(h.table, h.order[0]) then [h.order[0]] else []) + Live(Pop(h).table, Pop(h).order)
  {
    var e, rest := h.order[0], h.order[1..];
    if IsLive(h.table, e) {
      var live, tail := Live(h.table, h.order), Live(h.table, rest);
      assert live == [e] + tail;
      assert forall i :: 0 <= i < |tail| ==> tail[i] == live[i + 1] && tail[i].0 != live[0].0;
      IdsCons(e, tail);
      ConsumeHides(h.table, rest, e.0);
      WithoutAbsent(tail, e.0);
      assert e.0 !in Ids(tail);
    }
  }

  /** Pruning keeps exactly the newest live records. */
  lemma {:induction false} PruneKeepsNewest(h: History, limit: nat)
    requires Inv(h)
    ensures var p := Prune(h, limit);
            && Inv(p)
            && Live(p.table, p.order) == Newest(Live(h.table, h.order), limit)
            && (limit != 0 ==> |p.table| <= limit)
    decreases |h.order|
  {
    var live := Live(h.table, h.order);
    CountIds(live);
    if Fits(h, limit) {
      assert h.order == [] ==> live == [];
    } else {
      PopRemovesOldest(h);
      PruneKeepsNewest(Pop(h), limit);
      var tail := Live(Pop(h).table, Pop(h).order);
      if IsLive(h.table, h.order[0]) {
        NewestSkipsFirst(h.order[0], tail, limit);
      }
    }
  }

  lemma {:induction false} PruneAddsNothing(h: History, limit: nat)
    ensures forall e :: e in Prune(h, limit).order ==> e in h.order
    decreases |h.order|
  {
    if !Fits(h, limit) {
      PruneAddsNothing(Pop(h), limit);
    }
  }

  lemma NewestSkipsFirst(e: Entry, tail: seq<Entry>, limit: nat)
    requires limit != 0 && |tail| >= limit
    ensures Newest([e] + tail, limit) == Newest(tail, limit)
  {
    assert ([e] + tail)[|tail| + 1 - limit..] == tail[|tail| - limit..];
  }

  /** Recording refines "move id to the newest end, keep the newest `limit`": the
      table holds at most `limit` ids and they are the most recently recorded live
      ones, whatever stale records the queue holds. */
  lemma RecordRefinesRecencyList(h: History, id: Id, sequence: nat, limit: nat)
    requires Inv(h) && FreshNumber(h, sequence)
    ensures var r := Record(h, id, sequence, limit);
            && Inv(r)
            && Live(r.table, r.order) == Newest(Without(Live(h.table, h.order), id) + [(id, sequence)], limit)
            && r.table.Keys == Ids(Newest(Without(Live(h.table, h.order), id) + [(id, sequence)], limit))
            && (limit != 0 ==> |r.table| <= limit)
            && (forall e :: e in r.order ==> e in h.order || e == (id, sequence))
  {
    var table, order := h.table[id := sequence], h.order + [(id, sequence)];
    LiveAppend(table, h.order, [(id, sequence)]);
    OverwriteHides(h.table, h.order, id, sequence);
    var older := Without(Live(h.table, h.order), id);
    assert Live(table, [(id, sequence)]) == [(id, sequence)];
    assert Live(table, order) == older + [(id, sequence)];
    WithoutKeepsDistinct(Live(h.table, h.order), id);
    SnocIds(older, (id, sequence));
    PruneKeepsNewest(History(table, order), limit);
    PruneAddsNothing(History(table, order), limit);
  }

  lemma SnocIds(list: seq<Entry>, e: Entry)
    requires DistinctIds(list) && e.0 !in Ids(list)
    ensures DistinctIds(list + [e]) && Ids(list + [e]) == Ids(list) + {e.0}
  {
    var all := list + [e];
    assert forall i :: 0 <= i < |list| ==> all[i] == list[i] && list[i].0 in Ids(list);
    assert all[|list|] == e;
  }

  /** Consuming an id refines its removal from the list. */
  lemma ConsumeRefinesRemoval(h: History, id: Id)
    requires Inv(h)
    ensures var r := Consume(h, id);
            Inv(r) && Live(r.table, r.order) == Without(Live(h.table, h.order), id)
  {
    ConsumeHides(h.table, h.order, id);
    WithoutKeepsDistinct(Live(h.table, h.order), id);
  }
}
