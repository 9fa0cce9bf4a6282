// What an overload does, exactly: which messages it discards, and when it ends the
// session.
module Discards {
  import opened Base
  import opened Classify
  import opened Reorder
  import opened Pipeline
  import D = Dispatch
  import I = IntakeProof
  import E = EndpointTheorems
  import P = Progress

  predicate Reached(size: nat, limit: nat) {
    limit != 0 && size >= limit
  }

  /** The producer finds no parse slot for its number. */
  predicate NoSlotFor(s: State, l: Label, n: nat) {
    l.PostParse? && s.intake.hand == Some(n) && !s.flags.quit && Reached(s.intake.slots, s.limits.parse)
  }

  /** A parsed message that is not the next one finds the reorder buffer full. */
  predicate NoRoomFor(s: State, l: Label, n: nat) {
    l.ParseDone? && l.n == n && !s.flags.quit && n != s.intake.buffer.next
    && Reached(|s.intake.buffer.held|, s.limits.reorder)
  }

  /** A routed request that has to wait finds the parking list full. */
  predicate NoPlaceFor(s: State, l: Label, n: nat) {
    && l.Route? && s.intake.routing != [] && s.intake.routing[0].message.Request? && s.intake.routing[0].sequence == n
    && !s.flags.quit && !s.d.stopped && s.d.last.Some?
    && (s.d.completed.None? || s.d.completed.value < s.d.last.value)
    && Reached(|s.d.parked|, s.limits.parked)
  }

  /** A routed ordered notification finds the queue full. */
  predicate NoQueueFor(s: State, l: Label) {
    && l.Route? && s.intake.routing != [] && s.intake.routing[0].message.Ordered?
    && !s.flags.quit && !s.d.stopped && Reached(|s.d.queue|, s.limits.notifications)
  }

  function Blanking(n: nat): (State, Label) -> bool {
    (s: State, l: Label) => s.limits.dropNewest && (NoSlotFor(s, l, n) || NoRoomFor(s, l, n))
  }

  function Dropping(n: nat): (State, Label) -> bool {
    (s: State, l: Label) => NoPlaceFor(s, l, n)
  }

  /** The session is told to quit, or an overload ends it under StopProcessing. */
  predicate Quits(s: State, l: Label) {
    || l.Quit?
    || (!s.limits.dropNewest
        && (|| (l.PostParse? && s.intake.hand.Some? && NoSlotFor(s, l, s.intake.hand.value))
            || (l.ParseDone? && NoRoomFor(s, l, l.n))
            || NoQueueFor(s, l)
            || (l.Route? && s.intake.routing != [] && NoPlaceFor(s, l, s.intake.routing[0].sequence))))
  }

  function Quitting(): (State, Label) -> bool {
    (s: State, l: Label) => Quits(s, l)
  }

  function Closing(): (State, Label) -> bool {
    (s: State, l: Label) => l.Deactivate? || l.ResetOutput? || l.OutputFails?
  }

  // -- Blanked ------------------------------------------------------------------------------

  predicate IsBlanked(s: State, n: nat) {
    n in s.intake.blanked
  }

  lemma ParseBlanks(s: State, m: nat, n: nat)
    requires Enabled(s, ParseDone(m))
    ensures IsBlanked(Step(s, ParseDone(m)), n) <==> IsBlanked(s, n) || Blanking(n)(s, ParseDone(m))
  {
    I.ParseDoneIs(s, m);
  }

  lemma PostBlanks(s: State, n: nat)
    requires Enabled(s, PostParse)
    ensures IsBlanked(Step(s, PostParse), n) <==> IsBlanked(s, n) || Blanking(n)(s, PostParse)
  {
  }

  lemma OthersBlankNothing(s: State, l: Label)
    requires Enabled(s, l) && !l.PostParse? && !l.ParseDone?
    ensures Step(s, l).intake.blanked == s.intake.blanked
  {
    if l.Route? {
      I.RouteStepIntake(s);
    } else if !I.TouchesIntake(l) {
      I.OtherStepsLeaveIntake(s, l);
    }
  }

  lemma StepBlanksExactly(s: State, l: Label, n: nat)
    requires Enabled(s, l)
    ensures IsBlanked(Step(s, l), n) <==> IsBlanked(s, n) || Blanking(n)(s, l)
  {
    if l.PostParse? {
      PostBlanks(s, n);
    } else if l.ParseDone? {
      ParseBlanks(s, l.n, n);
    } else {
      OthersBlankNothing(s, l);
    }
  }

  /** In every run: a message is replaced by a placeholder if and only if, under
      DropNewest, it found all parse slots taken or the reorder buffer full. */
  lemma {:induction false} BlankedExactlyWhen(s0: State, labels: seq<Label>, n: nat)
    requires s0.intake.blanked == multiset{}
    ensures IsBlanked(Exec(s0, labels), n) <==> Happens(s0, labels, Blanking(n))
    decreases |labels|
  {
    if labels != [] {
      var front, l := labels[..|labels| - 1], labels[|labels| - 1];
      assert labels == front + [l];
      BlankedExactlyWhen(s0, front, n);
      HappensSnoc(s0, front, l, Blanking(n));
      if Enabled(Exec(s0, front), l) {
        StepBlanksExactly(Exec(s0, front), l, n);
      }
    }
  }

  // -- Dropped ------------------------------------------------------------------------------

  predicate IsDropped(s: State, n: nat) {
    n in s.h.dropped
  }

  lemma RouteDrops(s: State, n: nat)
    requires Enabled(s, Route)
    ensures IsDropped(RouteStep(s), n) <==> IsDropped(s, n) || Dropping(n)(s, Route)
  {
  }

  lemma StepDropsExactly(s: State, l: Label, n: nat)
    requires Enabled(s, l)
    ensures IsDropped(Step(s, l), n) <==> IsDropped(s, n) || Dropping(n)(s, l)
  {
    if l.Route? {
      RouteDrops(s, n);
    } else {
      P.StepDropsNothing(s, l);
    }
  }

  /** In every run: a request is dropped if and only if it had to wait for a notification
      and found the parking list at its nonzero limit. */
  lemma {:induction false} DroppedExactlyWhen(s0: State, labels: seq<Label>, n: nat)
    requires s0.h.dropped == multiset{}
    ensures IsDropped(Exec(s0, labels), n) <==> Happens(s0, labels, Dropping(n))
    decreases |labels|
  {
    if labels != [] {
      var front, l := labels[..|labels| - 1], labels[|labels| - 1];
      assert labels == front + [l];
      DroppedExactlyWhen(s0, front, n);
      HappensSnoc(s0, front, l, Dropping(n));
      if Enabled(Exec(s0, front), l) {
        StepDropsExactly(Exec(s0, front), l, n);
      }
    }
  }

  // -- Quitting and closing -------------------------------------------------------------------

  lemma RouteQuits(s: State)
    requires Enabled(s, Route)
    ensures RouteStep(s).flags.quit <==> s.flags.quit || Quits(s, Route)
  {
    var x := s.intake.routing[0];
    if x.message.Request? {
      RequestQuits(Handed(s), x.sequence);
    } else if x.message.Ordered? {
      NotificationQuits(Handed(s), x.sequence);
    }
  }

  lemma RequestQuits(s: State, n: nat)
    ensures RouteRequest(s, n).flags.quit
            <==> s.flags.quit
                 || (&& !s.limits.dropNewest && !s.d.stopped && s.d.last.Some?
                     && (s.d.completed.None? || s.d.completed.value < s.d.last.value)
                     && Reached(|s.d.parked|, s.limits.parked))
  {
  }

  lemma NotificationQuits(s: State, n: nat)
    ensures RouteNotification(s, n).flags.quit
            <==> s.flags.quit
                 || (!s.limits.dropNewest && !s.d.stopped && Reached(|s.d.queue|, s.limits.notifications))
  {
  }

  lemma ParseQuits(s: State, n: nat)
    requires Enabled(s, ParseDone(n))
    ensures Step(s, ParseDone(n)).flags.quit <==> s.flags.quit || Quits(s, ParseDone(n))
  {
    I.ParseDoneIs(s, n);
  }

  lemma PostQuits(s: State)
    requires Enabled(s, PostParse)
    ensures Step(s, PostParse).flags.quit <==> s.flags.quit || Quits(s, PostParse)
  {
  }

  lemma OthersQuit(s: State, l: Label)
    requires Enabled(s, l) && !l.Route? && !l.ParseDone? && !l.PostParse?
    ensures Step(s, l).flags.quit <==> s.flags.quit || l.Quit?
  {
    if !P.SetsFlag(l) {
      P.FlagsKept(s, l);
    }
  }

  lemma StepQuitsExactly(s: State, l: Label)
    requires Enabled(s, l)
    ensures Step(s, l).flags.quit <==> s.flags.quit || Quits(s, l)
  {
    if l.Route? {
      RouteQuits(s);
    } else if l.ParseDone? {
      ParseQuits(s, l.n);
    } else if l.PostParse? {
      PostQuits(s);
    } else {
      OthersQuit(s, l);
    }
  }

  /** In every run: the session is quitting if and only if it was told to, or an overload
      was met under StopProcessing. */
  lemma {:induction false} QuitExactlyWhen(s0: State, labels: seq<Label>)
    requires !s0.flags.quit
    ensures Exec(s0, labels).flags.quit <==> Happens(s0, labels, Quitting())
    decreases |labels|
  {
    if labels != [] {
      var front, l := labels[..|labels| - 1], labels[|labels| - 1];
      assert labels == front + [l];
      QuitExactlyWhen(s0, front);
      HappensSnoc(s0, front, l, Quitting());
      if Enabled(Exec(s0, front), l) {
        StepQuitsExactly(Exec(s0, front), l);
      }
    }
  }

  lemma RouteKeepsOpen(s: State)
    requires Enabled(s, Route)
    ensures Open(RouteStep(s).flags) <==> Open(s.flags)
  {
  }

  lemma StepClosesExactly(s: State, l: Label)
    requires Enabled(s, l)
    ensures Open(Step(s, l).flags) <==> Open(s.flags) && !Closing()(s, l)
  {
    if l.Route? {
      RouteKeepsOpen(s);
    } else if l.ParseDone? {
      ParseKeepsOpen(s, l.n);
    } else if P.SetsFlag(l) {
      FlagCloses(s, l);
    } else {
      P.FlagsKept(s, l);
    }
  }

  lemma ParseKeepsOpen(s: State, n: nat)
    requires Enabled(s, ParseDone(n))
    ensures Open(Step(s, ParseDone(n)).flags) <==> Open(s.flags)
  {
  }

  lemma FlagCloses(s: State, l: Label)
    requires Enabled(s, l) && P.SetsFlag(l)
    ensures Open(Step(s, l).flags) <==> Open(s.flags) && !Closing()(s, l)
  {
  }

  /** In every run: the session's output is open if and only if it has not failed and no
      stop has deactivated or reset it. */
  lemma {:induction false} ClosedExactlyWhen(s0: State, labels: seq<Label>)
    requires Open(s0.flags)
    ensures !Open(Exec(s0, labels).flags) <==> Happens(s0, labels, Closing())
    decreases |labels|
  {
    if labels != [] {
      var front, l := labels[..|labels| - 1], labels[|labels| - 1];
      assert labels == front + [l];
      ClosedExactlyWhen(s0, front);
      HappensSnoc(s0, front, l, Closing());
      if Enabled(Exec(s0, front), l) {
        StepClosesExactly(Exec(s0, front), l);
      }
    }
  }

  // -- Nothing is routed after a stop ------------------------------------------------------------

  /** A stop has cleared message routing. */
  predicate Cleared(s: State) {
    s.flags.quit && s.intake.buffer.held == map[] && s.intake.routing == []
  }

  lemma ClearingClears(s: State)
    requires Enabled(s, ClearRouting)
    ensures Cleared(Step(s, ClearRouting)) && Step(s, ClearRouting).intake.routed == s.intake.routed
  {
  }

  lemma ClearedStays(s: State, l: Label)
    requires Cleared(s) && Enabled(s, l)
    ensures Cleared(Step(s, l)) && Step(s, l).intake.routed == s.intake.routed
  {
    StepQuitsExactly(s, l);
    if !I.TouchesIntake(l) {
      I.OtherStepsLeaveIntake(s, l);
    } else {
      IntakeStaysCleared(s, l);
    }
  }

  lemma IntakeStaysCleared(s: State, l: Label)
    requires Cleared(s) && Enabled(s, l) && I.TouchesIntake(l)
    ensures var i := Step(s, l).intake; i.buffer.held == map[] && i.routing == [] && i.routed == s.intake.routed
  {
  }

  /** Once a stop has cleared routing, nothing is buffered or routed in any continuation. */
  lemma {:induction false} NothingRoutedAfterClear(s: State, labels: seq<Label>)
    requires Cleared(s)
    ensures Cleared(Exec(s, labels)) && Exec(s, labels).intake.routed == s.intake.routed
    decreases |labels|
  {
    if labels != [] {
      NothingRoutedAfterClear(s, labels[..|labels| - 1]);
      var before, l := Exec(s, labels[..|labels| - 1]), labels[|labels| - 1];
      if Enabled(before, l) {
        ClearedStays(before, l);
      }
    }
  }
}
