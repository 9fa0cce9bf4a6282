// The table of outgoing requests (_client_request_futures). A PendingRequestInfo
// object is identified by its position in `infos`, in order of creation.
module Outgoing {
  import opened Base
  import opened Classify

  /** One PendingRequestInfo: `runs` counts invocations of its callback. */
  datatype Info = Info(id: Id, deferred: bool, completed: bool, runs: nat)

  datatype Table = Table(futures: map<Id, nat>, infos: seq<Info>, nextId: nat)

  const Empty := Table(map[], [], 0)

  /** PendingRequestInfo::complete runs the callback for the first caller only. */
  function Complete(t: Table, token: nat): (r: Table)
    requires token < |t.infos|
  {
    var info := t.infos[token];
    if info.completed then t
    else t.(infos := t.infos[token := info.(completed := true, runs := info.runs + 1)])
  }

  predicate Refused(t: Table, id: Option<Id>, limit: nat) {
    (limit != 0 && |t.futures| >= limit) || (id.Some? && id.value in t.futures)
  }

  function ChosenId(t: Table, id: Option<Id>): (r: Id) {
    if id.Some? then id.value else IntId(t.nextId)
  }

  /** pendingRequest: a request without an id takes the next number, without
      looking whether that number is in use. */
  function Register(t: Table, id: Option<Id>, deferred: bool): (r: Table) {
    Table(t.futures[ChosenId(t, id) := |t.infos|],
          t.infos + [Info(ChosenId(t, id), deferred, false, 0)],
          if id.Some? then t.nextId else t.nextId + 1)
  }

  function Remove(t: Table, id: Id): (r: Table) {
    t.(futures := t.futures - {id})
  }

  predicate Holds(t: Table, id: Id, token: nat) {
    id in t.futures && t.futures[id] == token
  }

  /** removeRequestInfo(id, expected): only the very same request is removed. */
  function RemoveExpected(t: Table, id: Id, token: nat): (r: Table) {
    if Holds(t, id, token) then Remove(t, id) else t
  }

  /** Completing a list of requests, as failPendingRequests does. */
  function CompleteAll(t: Table, tokens: seq<nat>): (r: Table)
    requires forall i :: 0 <= i < |tokens| ==> tokens[i] < |t.infos|
    ensures |r.infos| == |t.infos|
    decreases |tokens|
  {
    if tokens == [] then t else CompleteAll(Complete(t, tokens[0]), tokens[1..])
  }

  /** Completing distinct requests runs each of their callbacks that has not run
      yet exactly once, and no other callback. */
  lemma {:induction false} CompleteAllRunsEachOnce(t: Table, tokens: seq<nat>, k: nat)
    requires forall i :: 0 <= i < |tokens| ==> tokens[i] < |t.infos|
    requires k < |t.infos|
    decreases |tokens|
    ensures var info := t.infos[k];
            CompleteAll(t, tokens).infos[k]
            == if k in tokens && !info.completed then info.(completed := true, runs := info.runs + 1) else info
  {
    if tokens != [] {
      CompleteAllRunsEachOnce(Complete(t, tokens[0]), tokens[1..], k);
      assert k in tokens <==> k == tokens[0] || k in tokens[1..];
    }
  }

  class PendingRequests {
    var futures: map<Id, nat>
    var infos: seq<Info>
    var nextId: nat

    ghost predicate Valid()
      reads this
    {
      forall id :: id in futures ==> futures[id] < |infos|
    }

    function Model(): Table
      reads this
    {
      Table(futures, infos, nextId)
    }

    constructor ()
      ensures Model() == Empty && Valid()
    {
      futures, infos, nextId := map[], [], 0;
    }

    method PendingRequest(id: Option<Id>, deferred: bool, limit: nat) returns (token: Option<nat>)
      requires Valid()
      modifies this
      ensures Valid()
      ensures old(Refused(Model(), id, limit)) ==> token == None && Model() == old(Model())
      ensures !old(Refused(Model(), id, limit)) ==>
                token == Some(old(|infos|)) && Model() == old(Register(Model(), id, deferred))
    {
      if limit != 0 && |futures| >= limit {
        return None;
      }
      var key;
      if id.None? {
        key := IntId(nextId);
        nextId := nextId + 1;
      } else {
        key := id.value;
        if key in futures {
          return None;
        }
      }
      token := Some(|infos|);
      futures := futures[key := |infos|];
      infos := infos + [Info(key, deferred, false, 0)];
    }

    method RemoveMatching(id: Id, token: nat) returns (removed: bool)
      requires Valid()
      modifies this`futures
      ensures Valid()
      ensures removed == old(Holds(Model(), id, token))
      ensures Model() == old(RemoveExpected(Model(), id, token))
    {
      if id !in futures || futures[id] != token {
        return false;
      }
      futures := futures - {id};
      return true;
    }

    method Finish(token: nat)
      requires Valid() && token < |infos|
      modifies this`infos
      ensures Valid() && Model() == old(Complete(Model(), token))
    {
      var info := infos[token];
      if info.completed {
        return;
      }
      infos := infos[token := info.(completed := true, runs := info.runs + 1)];
    }

    /** failPendingRequests: empty the table, then complete what it held. */
    method FailAll() returns (failed: seq<nat>)
      requires Valid()
      modifies this
      ensures Valid() && futures == map[] && nextId == old(nextId)
      ensures (forall k :: k in failed <==> k in old(futures).Values)
      ensures forall i :: 0 <= i < |failed| ==> failed[i] < old(|infos|)
      ensures infos == CompleteAll(Table(map[], old(infos), nextId), failed).infos
    {
      failed := [];
      var rest := futures.Values;
      while rest != {}
        invariant rest <= futures.Values
        invariant forall k :: k in failed <==> k in futures.Values - rest
        invariant unchanged(this)
        decreases rest
      {
        var k :| k in rest;
        failed := failed + [k];
        rest := rest - {k};
      }
      forall i | 0 <= i < |failed| ensures failed[i] < |infos| {
        assert failed[i] in failed;
        var id :| id in futures && futures[id] == failed[i];
      }
      futures := map[];
      var i := 0;
      assert failed[0..] == failed;
      while i < |failed|
        invariant 0 <= i <= |failed|
        invariant futures == map[] && nextId == old(nextId) && |infos| == old(|infos|)
        invariant CompleteAll(Table(map[], infos, nextId), failed[i..]).infos
                  == CompleteAll(Table(map[], old(infos), nextId), failed).infos
      {
        assert failed[i..][1..] == failed[i + 1..];
        Finish(failed[i]);
        i := i + 1;
      }
    }
  }
}
