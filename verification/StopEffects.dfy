// What a stop that returns has done.
module StopEffects {
  import opened Base
  import opened Shutdown

  predicate NotifierBehind(p: Phase) {
    p.JoiningCompleter? || p.JoiningProducer?
  }

  /** Threads are joined one after the other, except the one that runs the stop. */
  ghost predicate JoinsInv(s: State) {
    && (forall a :: a in s.running ==> !a.Other?)
    && (NotifierBehind(s.phase) && Notifier in s.running ==> s.lifecycle == Some(Notifier))
    && (s.phase.JoiningProducer? ==> Completer !in s.running)
    && (!s.working ==> s.phase.NoStop?)
  }

  lemma StepKeepsJoins(s: State, l: Label)
    requires Inv(s) && JoinsInv(s) && Enabled(s, l)
    ensures JoinsInv(Step(s, l))
  {
  }

  lemma {:induction false} EveryRunKeepsJoins(labels: seq<Label>)
    ensures Inv(Exec(Started, labels)) && JoinsInv(Exec(Started, labels))
    decreases |labels|
  {
    EveryRunKeepsInv(labels);
    if labels != [] {
      EveryRunKeepsJoins(labels[..|labels| - 1]);
      var before, l := Exec(Started, labels[..|labels| - 1]), labels[|labels| - 1];
      if Enabled(before, l) {
        StepKeepsJoins(before, l);
      }
    }
  }

  /** In every run, when a stop returns, every thread of the session has ended but the one
      that the stop runs on, and nobody is inside a handler, a completion or a frame on
      any other. */
  lemma StopJoinsEveryThread(labels: seq<Label>)
    ensures var s := Exec(Started, labels);
            Enabled(s, ProducerJoined) ==>
              s.lifecycle.Some? && s.running <= {s.lifecycle.value} && s.busy <= {s.lifecycle.value}
              && !Step(s, ProducerJoined).working
  {
    EveryRunKeepsJoins(labels);
    var s := Exec(Started, labels);
    if Enabled(s, ProducerJoined) {
      forall a | a in s.running ensures a == s.lifecycle.value {
        assert !a.Other?;
      }
    }
  }

  /** The session works until a stop returns. In every continuation after that no other
      stop begins: later calls find it stopped and give the mutex back. */
  lemma {:induction false} StopsOnce(labels: seq<Label>, more: seq<Label>)
    requires !Exec(Started, labels).working
    ensures var s := Exec(Exec(Started, labels), more); !s.working && s.phase.NoStop? && s.lifecycle.None?
    decreases |more|
  {
    EveryRunKeepsJoins(labels);
    if more != [] {
      StopsOnce(labels, more[..|more| - 1]);
    }
  }

  ghost predicate ReturnsAt(labels: seq<Label>, i: nat) {
    i < |labels| && labels[i].ProducerJoined? && Enabled(Exec(Started, labels[..i]), labels[i])
  }

  lemma EarlierReturn(front: seq<Label>, l: Label, i: nat)
    requires i < |front|
    ensures ReturnsAt(front + [l], i) <==> ReturnsAt(front, i)
  {
    assert (front + [l])[..i] == front[..i];
  }

  lemma OnlyReturningStops(s: State, l: Label)
    requires Enabled(s, l)
    ensures Step(s, l).working <==> s.working && !l.ProducerJoined?
  {
  }

  /** In every run the session is stopped exactly when a stop has returned. */
  lemma {:induction false} StoppedExactlyWhen(labels: seq<Label>)
    ensures !Exec(Started, labels).working <==> exists i: nat :: ReturnsAt(labels, i)
    decreases |labels|
  {
    if labels != [] {
      var front, l := labels[..|labels| - 1], labels[|labels| - 1];
      assert labels == front + [l];
      StoppedExactlyWhen(front);
      if i: nat :| ReturnsAt(front, i) { EarlierReturn(front, l, i); }
      if i: nat :| ReturnsAt(labels, i) {
        if i < |front| { EarlierReturn(front, l, i); }
      }
      if Enabled(Exec(Started, front), l) {
        OnlyReturningStops(Exec(Started, front), l);
        assert l.ProducerJoined? ==> ReturnsAt(labels, |front|);
      }
    }
  }
}
