// What numbering, parsing, reordering and routing keep, whatever the interleaving.
module IntakeProof {
  import opened Base
  import opened Classify
  import opened Reorder
  import opened Pipeline
  import D = Dispatch

  function Numbers(items: seq<Item>): (r: seq<nat>)
    ensures |r| == |items|
    ensures forall i :: 0 <= i < |r| ==> r[i] == items[i].sequence
  {
    seq(|items|, i requires 0 <= i < |items| => items[i].sequence)
  }

  /** In how many places number k is: in the producer's hand, queued for parsing, being
      parsed, buffered, handed to routing, or discarded by a stop. */
  ghost function Places(i: Intake, k: nat): nat {
    (if i.hand == Some(k) then 1 else 0) + i.queued[k] + i.parsing[k] + i.gone[k]
    + (if k in i.buffer.held then 1 else 0)
    + (if i.start <= k < i.buffer.next then 1 else 0)
  }

  /** Every assigned number is in exactly one place, every other number in none. */
  ghost predicate Partition(i: Intake) {
    forall k: nat :: Places(i, k) == if Assigned(i, k) then 1 else 0
  }

  /** Routing has been handed start, start + 1, ... without gap, repeat or inversion. */
  ghost predicate InOrder(i: Intake) {
    && i.start <= i.buffer.next
    && Numbers(i.routed + i.routing) == Iota(i.start, i.buffer.next)
    && i.buffer.next !in i.buffer.held
  }

  ghost predicate Genuine(i: Intake, k: nat, m: Message) {
    Assigned(i, k) && (m == Frame(i, k) || (m == Blank && k in i.blanked))
  }

  ghost predicate AllGenuine(i: Intake, items: seq<Item>) {
    forall k :: 0 <= k < |items| ==> Genuine(i, items[k].sequence, items[k].message)
  }

  ghost predicate HeldGenuine(i: Intake, held: map<nat, Message>) {
    forall k :: k in held ==> Genuine(i, k, held[k])
  }

  /** Messages reach routing unaltered, or as a placeholder left by an overload. */
  ghost predicate Contents(i: Intake) {
    && HeldGenuine(i, i.buffer.held) && AllGenuine(i, i.routed) && AllGenuine(i, i.routing)
    && (i.noSlot ==> i.hand.Some? && i.hand.value in i.blanked)
  }

  ghost function NonBlank(held: map<nat, Message>): set<nat> {
    set k | k in held && held[k] != Blank
  }

  ghost predicate Bounds(i: Intake, lim: Limits) {
    && i.slots == |i.queued| + |i.parsing| + i.finishing + i.abandoned
    && (lim.parse != 0 ==> i.slots <= lim.parse)
    && (lim.reorder != 0 ==> |NonBlank(i.buffer.held)| <= lim.reorder)
  }

  ghost predicate IntakeInv(i: Intake, quit: bool, lim: Limits) {
    && Partition(i)
    && InOrder(i)
    && Contents(i)
    && Bounds(i, lim)
    && (!quit ==> i.gone == multiset{})
  }

  /** The state between taking a number out of `hand` or `parsing` and submitting it. */
  ghost predicate Missing(i: Intake, n: nat) {
    && Assigned(i, n)
    && Places(i, n) == 0
    && forall k: nat :: k != n ==> Places(i, k) == if Assigned(i, k) then 1 else 0
  }

  lemma SubmitKeepsPartition(i: Intake, n: nat, m: Message, bypass: bool, lim: Limits)
    requires Missing(i, n)
    ensures Partition(Submitted(i, n, m, bypass, lim).0)
  {
    var (i', overloaded) := Submitted(i, n, m, bypass, lim);
    assert !(i.start <= n < i.buffer.next) && n !in i.buffer.held by { assert Places(i, n) == 0; }
    if overloaded {
      forall k: nat ensures Places(i', k) == if Assigned(i', k) then 1 else 0 {
        assert Places(i', k) == Places(i, k) + if k == n then 1 else 0;
      }
    } else {
      forall k: nat ensures Places(i', k) == if Assigned(i', k) then 1 else 0 {
        assert k in i.buffer.held ==> Places(i, k) == 1 && Assigned(i, k);
        SubmissionPlaces(i.buffer, n, m, bypass, lim, i.start, k);
        assert Places(i', k) == Places(i, k) + Bit(k == n);
      }
    }
  }

  function BufferPlaces(b: Buffer<Message>, start: nat, k: nat): nat {
    Bit(k in b.held) + Bit(start <= k < b.next)
  }

  /** A submission adds its number to the buffer's places and moves the others. */
  lemma SubmissionPlaces(b: Buffer<Message>, n: nat, m: Message, bypass: bool, lim: Limits, start: nat, k: nat)
    requires n !in b.held && !(start <= n < b.next) && start <= n
    requires k in b.held ==> start <= k && b.next <= k
    ensures var o := Submit(b, n, m, Blank, bypass, lim.reorder, lim.dropNewest);
            !o.overloaded ==> BufferPlaces(o.buffer, start, k) == BufferPlaces(b, start, k) + Bit(k == n)
  {
    var source := SubmitSource(b, n, m, bypass, lim);
    DrainTakesTheRun(source);
    var end := Drain(source).0.next;
    if source.next <= k < end { assert k in source.held; }
  }

  /** The buffer that a non-overloaded submission drains. */
  function SubmitSource(b: Buffer<Message>, n: nat, m: Message, bypass: bool, lim: Limits): Buffer<Message> {
    if n == b.next then Buffer(b.next + 1, b.held)
    else
      var kept := if Full(b, bypass, lim.reorder) then Blank else m;
      Buffer(b.next, if n in b.held then b.held else b.held[n := kept])
  }

  lemma SubmitKeepsOrder(i: Intake, n: nat, m: Message, bypass: bool, lim: Limits)
    requires InOrder(i) && i.routing == []
    ensures InOrder(Submitted(i, n, m, bypass, lim).0)
  {
    var (i', overloaded) := Submitted(i, n, m, bypass, lim);
    if !overloaded {
      DrainTakesTheRun(SubmitSource(i.buffer, n, m, bypass, lim));
      var old_ := Numbers(i.routed + i.routing);
      var new_ := Numbers(i'.routed + i'.routing);
      assert forall k :: 0 <= k < |old_| ==> new_[k] == old_[k];
      assert |i'.routing| == i'.buffer.next - i.buffer.next;
      assert new_ == Iota(i'.start, i'.buffer.next);
    }
  }

  /** A message known to the intake, or the one being submitted. */
  ghost predicate Known(i: Intake, i': Intake, n: nat, k: nat, m: Message) {
    (k in i.buffer.held && m == i.buffer.held[k]) || (k == n && Genuine(i', n, m))
  }

  lemma ContentsFromKnown(i: Intake, i': Intake, n: nat)
    requires Contents(i) && i'.start == i.start && i'.frames == i.frames && i'.routed == i.routed
    requires i.blanked <= i'.blanked && i'.hand == i.hand && i'.noSlot == i.noSlot
    requires forall k :: k in i'.buffer.held ==> Known(i, i', n, k, i'.buffer.held[k])
    requires forall k :: 0 <= k < |i'.routing| ==> Known(i, i', n, i'.routing[k].sequence, i'.routing[k].message)
    ensures Contents(i')
  {
    forall k, m | Genuine(i, k, m) ensures Genuine(i', k, m) {
      if k in i.blanked { assert i.blanked[k] <= i'.blanked[k]; }
    }
  }

  lemma SubmitKnowsHeld(i: Intake, n: nat, m: Message, bypass: bool, lim: Limits)
    requires Genuine(i, n, m)
    ensures var i' := Submitted(i, n, m, bypass, lim).0;
            forall k :: k in i'.buffer.held ==> Known(i, i', n, k, i'.buffer.held[k])
  {
    var i' := Submitted(i, n, m, bypass, lim).0;
    forall k | k in i'.buffer.held ensures Known(i, i', n, k, i'.buffer.held[k]) {
      HeldMessage(i.buffer, n, m, bypass, lim, k);
    }
  }

  /** A message that is buffered afterwards was buffered, or is the submitted one. */
  lemma HeldMessage(b: Buffer<Message>, n: nat, m: Message, bypass: bool, lim: Limits, k: nat)
    requires k in Submit(b, n, m, Blank, bypass, lim.reorder, lim.dropNewest).buffer.held
    ensures var x := Submit(b, n, m, Blank, bypass, lim.reorder, lim.dropNewest).buffer.held[k];
            || (k in b.held && x == b.held[k])
            || (k == n && n != b.next && x == if Full(b, bypass, lim.reorder) then Blank else m)
  {
    DrainTakesTheRun(SubmitSource(b, n, m, bypass, lim));
  }

  lemma SubmitKnowsRouting(i: Intake, n: nat, m: Message, bypass: bool, lim: Limits)
    requires i.routing == [] && Genuine(i, n, m)
    ensures var i' := Submitted(i, n, m, bypass, lim).0;
            forall k :: 0 <= k < |i'.routing| ==> Known(i, i', n, i'.routing[k].sequence, i'.routing[k].message)
  {
    var (i', overloaded) := Submitted(i, n, m, bypass, lim);
    if !overloaded {
      forall k | 0 <= k < |i'.routing| ensures Known(i, i', n, i'.routing[k].sequence, i'.routing[k].message) {
        RoutedIsKnown(i, n, m, bypass, lim, k);
      }
    }
  }

  lemma RoutedIsKnown(i: Intake, n: nat, m: Message, bypass: bool, lim: Limits, k: nat)
    requires Genuine(i, n, m) && !Submitted(i, n, m, bypass, lim).1 && k < |Submitted(i, n, m, bypass, lim).0.routing|
    ensures var i' := Submitted(i, n, m, bypass, lim).0;
            Known(i, i', n, i'.routing[k].sequence, i'.routing[k].message)
  {
    ReadyMessage(i.buffer, n, m, bypass, lim, k);
  }

  /** A message that becomes ready was buffered, or is the submitted one. */
  lemma ReadyMessage(b: Buffer<Message>, n: nat, m: Message, bypass: bool, lim: Limits, k: nat)
    requires var o := Submit(b, n, m, Blank, bypass, lim.reorder, lim.dropNewest); !o.overloaded && k < |o.ready|
    ensures var x := Submit(b, n, m, Blank, bypass, lim.reorder, lim.dropNewest).ready[k];
            || (b.next + k in b.held && x == b.held[b.next + k])
            || (b.next + k == n && x == if n != b.next && Full(b, bypass, lim.reorder) then Blank else m)
  {
    var source := SubmitSource(b, n, m, bypass, lim);
    DrainTakesTheRun(source);
    var rest := Drain(source).1;
    if n == b.next {
      assert k > 0 ==> ([m] + rest)[k] == rest[k - 1] == source.held[source.next + (k - 1)];
    } else {
      assert rest[k] == source.held[source.next + k];
    }
  }

  lemma SubmitKeepsContents(i: Intake, n: nat, m: Message, bypass: bool, lim: Limits)
    requires Contents(i) && i.routing == [] && Genuine(i, n, m)
    ensures Contents(Submitted(i, n, m, bypass, lim).0)
  {
    SubmitKnowsHeld(i, n, m, bypass, lim);
    SubmitKnowsRouting(i, n, m, bypass, lim);
    ContentsFromKnown(i, Submitted(i, n, m, bypass, lim).0, n);
  }

  lemma SmallerSet(a: set<nat>, b: set<nat>)
    requires a <= b
    ensures |a| <= |b|
  {
    assert b == a + (b - a);
  }

  lemma SubmitKeepsBounds(i: Intake, n: nat, m: Message, bypass: bool, lim: Limits)
    requires Bounds(i, lim) && (bypass ==> m == Blank)
    ensures Bounds(Submitted(i, n, m, bypass, lim).0, lim)
  {
    var (i', overloaded) := Submitted(i, n, m, bypass, lim);
    if !overloaded && lim.reorder != 0 {
      var b := SubmitSource(i.buffer, n, m, bypass, lim);
      DrainTakesTheRun(b);
      SmallerSet(NonBlank(i'.buffer.held), NonBlank(b.held));
      if n != i.buffer.next && n !in i.buffer.held && b.held[n] != Blank {
        assert |i.buffer.held.Keys| < lim.reorder;
        SmallerSet(NonBlank(b.held), i.buffer.held.Keys + {n});
      } else {
        SmallerSet(NonBlank(b.held), NonBlank(i.buffer.held));
      }
    }
  }

  lemma SubmitKeepsInv(i: Intake, n: nat, m: Message, bypass: bool, lim: Limits)
    requires Missing(i, n) && InOrder(i) && Contents(i) && Bounds(i, lim) && i.gone == multiset{}
    requires i.routing == [] && Genuine(i, n, m) && (bypass ==> m == Blank)
    ensures var (i', overloaded) := Submitted(i, n, m, bypass, lim); IntakeInv(i', overloaded, lim)
  {
    SubmitKeepsPartition(i, n, m, bypass, lim);
    SubmitKeepsOrder(i, n, m, bypass, lim);
    assert n >= i.buffer.next by { assert Places(i, n) == 0; }
    SubmitKeepsContents(i, n, m, bypass, lim);
    SubmitKeepsBounds(i, n, m, bypass, lim);
  }

  // -- Steps ----------------------------------------------------------------------

  lemma AssignKeepsInv(i: Intake, m: Message, quit: bool, lim: Limits)
    requires IntakeInv(i, quit, lim) && i.hand.None?
    ensures IntakeInv(i.(frames := i.frames + [m], hand := Some(End(i))), quit, lim)
  {
    var i' := i.(frames := i.frames + [m], hand := Some(End(i)));
    forall k: nat ensures Places(i', k) == if Assigned(i', k) then 1 else 0 {
      assert Places(i', k) == Places(i, k) + if k == End(i) then 1 else 0;
    }
    forall k, x | Genuine(i, k, x) ensures Genuine(i', k, x) {
    }
  }

  lemma DiscardKeepsInv(i: Intake, n: nat, lim: Limits)
    requires Missing(i, n) && InOrder(i) && Contents(i) && Bounds(i, lim)
    ensures IntakeInv(i.(gone := i.gone + multiset{n}), true, lim)
  {
    var i' := i.(gone := i.gone + multiset{n});
    forall k: nat ensures Places(i', k) == if Assigned(i', k) then 1 else 0 {
      assert Places(i', k) == Places(i, k) + if k == n then 1 else 0;
    }
    assert Contents(i');
  }

  /** Taking the producer's number out of its hand. */
  lemma HandTaken(i: Intake, quit: bool, lim: Limits)
    requires IntakeInv(i, quit, lim) && i.hand.Some?
    ensures var i' := i.(hand := None, noSlot := false);
            Missing(i', i.hand.value) && InOrder(i') && Contents(i') && Bounds(i', lim)
  {
    var n, i' := i.hand.value, i.(hand := None, noSlot := false);
    forall k: nat ensures Places(i', k) == Places(i, k) - if k == n then 1 else 0 {
    }
    assert Places(i, n) >= 1;
  }

  /** Neither the reorder buffer nor what is known about it has changed. */
  ghost predicate SameRouting(i: Intake, i': Intake) {
    && i'.start == i.start && i'.frames == i.frames && i'.buffer == i.buffer && i'.blanked == i.blanked
    && i'.routed == i.routed && i'.routing == i.routing && i'.hand == i.hand && i'.noSlot == i.noSlot
  }

  lemma RoutingUntouched(i: Intake, i': Intake)
    requires SameRouting(i, i') && InOrder(i) && Contents(i)
    ensures InOrder(i') && Contents(i')
  {
  }

  lemma OnePlaceLess(i: Intake, i': Intake, n: nat)
    requires Partition(i) && SameRouting(i, i')
    requires forall k: nat :: i'.queued[k] + i'.parsing[k] + i'.gone[k] == i.queued[k] + i.parsing[k] + i.gone[k] - Bit(k == n)
    ensures Missing(i', n)
  {
    forall k: nat ensures Places(i', k) == Places(i, k) - Bit(k == n) {
    }
    assert Places(i', n) == Places(i, n) - 1;
  }

  lemma SamePlaces(i: Intake, i': Intake)
    requires Partition(i) && SameRouting(i, i')
    requires forall k: nat :: i'.queued[k] + i'.parsing[k] + i'.gone[k] == i.queued[k] + i.parsing[k] + i.gone[k]
    ensures Partition(i')
  {
    forall k: nat ensures Places(i', k) == Places(i, k) {
    }
  }

  /** A task that has run leaves the pool and holds its slot until it returns. */
  lemma TaskFinishes(i: Intake, n: nat, quit: bool, lim: Limits)
    requires IntakeInv(i, quit, lim) && n in i.parsing
    ensures var i' := i.(parsing := i.parsing - multiset{n}, finishing := i.finishing + 1);
            Missing(i', n) && InOrder(i') && Contents(i') && Bounds(i', lim)
  {
    var i' := i.(parsing := i.parsing - multiset{n}, finishing := i.finishing + 1);
    OneLess(i.parsing, n);
    RoutingUntouched(i, i');
    OnePlaceLess(i, i', n);
  }

  /** A task that is destroyed unrun leaves its slot taken. */
  lemma TaskAbandoned(i: Intake, n: nat, quit: bool, lim: Limits)
    requires IntakeInv(i, quit, lim) && n in i.queued
    ensures var i' := i.(queued := i.queued - multiset{n}, abandoned := i.abandoned + 1);
            Missing(i', n) && InOrder(i') && Contents(i') && Bounds(i', lim)
  {
    var i' := i.(queued := i.queued - multiset{n}, abandoned := i.abandoned + 1);
    OneLess(i.queued, n);
    RoutingUntouched(i, i');
    OnePlaceLess(i, i', n);
  }

  lemma TaskStarts(i: Intake, n: nat, quit: bool, lim: Limits)
    requires IntakeInv(i, quit, lim) && n in i.queued
    ensures IntakeInv(i.(queued := i.queued - multiset{n}, parsing := i.parsing + multiset{n}), quit, lim)
  {
    var i' := i.(queued := i.queued - multiset{n}, parsing := i.parsing + multiset{n});
    OneLess(i.queued, n);
    OneMore(i.parsing, n);
    RoutingUntouched(i, i');
    SamePlaces(i, i');
  }

  lemma NoSlotKeepsInv(i: Intake, quit: bool, lim: Limits)
    requires IntakeInv(i, quit, lim) && i.hand.Some?
    ensures IntakeInv(i.(noSlot := true, blanked := i.blanked + multiset{i.hand.value}), quit, lim)
  {
    var i' := i.(noSlot := true, blanked := i.blanked + multiset{i.hand.value});
    forall k: nat ensures Places(i', k) == Places(i, k) {
    }
    forall k, x | Genuine(i, k, x) ensures Genuine(i', k, x) {
    }
  }

  lemma PostedKeepsInv(i: Intake, n: nat, quit: bool, lim: Limits)
    requires Missing(i, n) && InOrder(i) && Contents(i) && Bounds(i, lim) && (!quit ==> i.gone == multiset{})
    requires !D.AtLimit(i.slots, lim.parse)
    ensures IntakeInv(i.(queued := i.queued + multiset{n}, slots := i.slots + 1), quit, lim)
  {
    var i' := i.(queued := i.queued + multiset{n}, slots := i.slots + 1);
    forall k: nat ensures Places(i', k) == if Assigned(i', k) then 1 else 0 {
      assert Places(i', k) == Places(i, k) + if k == n then 1 else 0;
    }
    assert Contents(i');
  }

  lemma PostParseKeepsInv(s: State)
    requires IntakeInv(s.intake, s.flags.quit, s.limits) && Enabled(s, PostParse)
    ensures var s' := Step(s, PostParse); s'.limits == s.limits && IntakeInv(s'.intake, s'.flags.quit, s'.limits)
  {
    var n := s.intake.hand.value;
    var i := s.intake.(hand := None, noSlot := false);
    HandTaken(s.intake, s.flags.quit, s.limits);
    if s.flags.quit {
      DiscardKeepsInv(i, n, s.limits);
    } else if !D.AtLimit(i.slots, s.limits.parse) {
      PostedKeepsInv(i, n, false, s.limits);
    } else if s.limits.dropNewest {
      NoSlotKeepsInv(s.intake, false, s.limits);
    } else {
      DiscardKeepsInv(i, n, s.limits);
    }
  }

  lemma SubmitBlankKeepsInv(s: State)
    requires IntakeInv(s.intake, s.flags.quit, s.limits) && Enabled(s, SubmitBlank)
    ensures var s' := Step(s, SubmitBlank); s'.limits == s.limits && IntakeInv(s'.intake, s'.flags.quit, s'.limits)
  {
    var n := s.intake.hand.value;
    var i := s.intake.(hand := None, noSlot := false);
    HandTaken(s.intake, s.flags.quit, s.limits);
    if s.flags.quit {
      DiscardKeepsInv(i, n, s.limits);
    } else {
      SubmitKeepsInv(i, n, Blank, true, s.limits);
    }
  }

  /** The intake after a parse task has finished, and whether the session quits. */
  function AfterParse(i: Intake, n: nat, quit: bool, lim: Limits): (Intake, bool)
    requires Assigned(i, n)
  {
    var i' := i.(parsing := i.parsing - multiset{n}, finishing := i.finishing + 1);
    if quit then (i'.(gone := i'.gone + multiset{n}), true) else Submitted(i', n, Frame(i, n), false, lim)
  }

  lemma ParseDoneIs(s: State, n: nat)
    requires Enabled(s, ParseDone(n))
    ensures var s' := Step(s, ParseDone(n));
            (s'.intake, s'.flags.quit) == AfterParse(s.intake, n, s.flags.quit, s.limits) && s'.limits == s.limits
  {
  }

  lemma AfterParseKeepsInv(i: Intake, n: nat, quit: bool, lim: Limits)
    requires IntakeInv(i, quit, lim) && n in i.parsing && i.routing == [] && Assigned(i, n)
    ensures var (i', quit') := AfterParse(i, n, quit, lim); IntakeInv(i', quit', lim)
  {
    TaskFinishes(i, n, quit, lim);
    var i' := i.(parsing := i.parsing - multiset{n}, finishing := i.finishing + 1);
    if quit {
      DiscardKeepsInv(i', n, lim);
    } else {
      SubmitKeepsInv(i', n, Frame(i', n), false, lim);
    }
  }

  lemma ParseDoneKeepsInv(s: State, n: nat)
    requires IntakeInv(s.intake, s.flags.quit, s.limits) && Enabled(s, ParseDone(n))
    ensures var s' := Step(s, ParseDone(n)); s'.limits == s.limits && IntakeInv(s'.intake, s'.flags.quit, s'.limits)
  {
    ParseDoneIs(s, n);
    AfterParseKeepsInv(s.intake, n, s.flags.quit, s.limits);
  }

  lemma RouteKeepsInv(i: Intake, quit: bool, lim: Limits)
    requires IntakeInv(i, quit, lim) && i.routing != []
    ensures IntakeInv(i.(routing := i.routing[1..], routed := i.routed + [i.routing[0]]), quit, lim)
  {
    var i' := i.(routing := i.routing[1..], routed := i.routed + [i.routing[0]]);
    assert i'.routed + i'.routing == i.routed + i.routing;
    forall k: nat ensures Places(i', k) == Places(i, k) {
    }
    forall k, x | Genuine(i, k, x) ensures Genuine(i', k, x) {
    }
  }

  lemma ClearKeepsInv(i: Intake, lim: Limits)
    requires IntakeInv(i, true, lim)
    ensures IntakeInv(i.(buffer := i.buffer.(held := map[]), gone := i.gone + multiset(i.buffer.held.Keys)), true, lim)
  {
    var i' := i.(buffer := i.buffer.(held := map[]), gone := i.gone + multiset(i.buffer.held.Keys));
    forall k: nat ensures Places(i', k) == Places(i, k) {
    }
    forall k, x | Genuine(i, k, x) ensures Genuine(i', k, x) {
    }
  }

  /** Routing's effects leave the intake alone and never take back `quit`. */
  lemma RouteStepIntake(s: State)
    requires s.intake.routing != []
    ensures RouteStep(s).intake == s.intake.(routing := s.intake.routing[1..], routed := s.intake.routed + [s.intake.routing[0]])
    ensures RouteStep(s).limits == s.limits
    ensures s.flags.quit ==> RouteStep(s).flags.quit
  {
  }

  lemma ReleaseSlotKeepsInv(i: Intake, quit: bool, lim: Limits)
    requires IntakeInv(i, quit, lim) && i.finishing > 0 && i.slots > 0
    ensures IntakeInv(i.(finishing := i.finishing - 1, slots := i.slots - 1), quit, lim)
  {
    var i' := i.(finishing := i.finishing - 1, slots := i.slots - 1);
    forall k: nat ensures Places(i', k) == Places(i, k) {
    }
    assert Contents(i');
  }

  predicate TouchesIntake(l: Label) {
    l.Assign? || l.PostParse? || l.SubmitBlank? || l.ParseStart? || l.ParseDone? || l.ReleaseSlot? || l.Route? || l.ClearRouting? || l.AbandonParse?
  }

  lemma OtherStepsLeaveIntake(s: State, l: Label)
    requires Enabled(s, l) && !TouchesIntake(l)
    ensures var s' := Step(s, l);
            s'.limits == s.limits && s'.intake == s.intake && (s.flags.quit ==> s'.flags.quit)
  {
  }

  lemma StepKeepsIntake(s: State, l: Label)
    requires IntakeInv(s.intake, s.flags.quit, s.limits) && Enabled(s, l)
    ensures var s' := Step(s, l); s'.limits == s.limits && IntakeInv(s'.intake, s'.flags.quit, s'.limits)
  {
    if !TouchesIntake(l) {
      OtherStepsLeaveIntake(s, l);
    } else if l.PostParse? {
      PostParseKeepsInv(s);
    } else if l.SubmitBlank? {
      SubmitBlankKeepsInv(s);
    } else if l.ParseDone? {
      ParseDoneKeepsInv(s, l.n);
    } else if l.Route? {
      RouteStepKeepsInv(s);
    } else if l.AbandonParse? {
      AbandonKeepsInv(s, l.n);
    } else {
      SimpleStepKeepsInv(s, l);
    }
  }

  lemma SimpleStepKeepsInv(s: State, l: Label)
    requires IntakeInv(s.intake, s.flags.quit, s.limits) && Enabled(s, l)
    requires l.Assign? || l.ParseStart? || l.ReleaseSlot? || l.ClearRouting?
    ensures var s' := Step(s, l); s'.limits == s.limits && IntakeInv(s'.intake, s'.flags.quit, s'.limits)
  {
    var i, quit, lim := s.intake, s.flags.quit, s.limits;
    if l.ParseStart? {
      TaskStarts(i, l.n, quit, lim);
    } else if l.Assign? {
      AssignKeepsInv(i, l.message, quit, lim);
    } else if l.ReleaseSlot? {
      ReleaseSlotKeepsInv(i, quit, lim);
    } else {
      ClearKeepsInv(i, lim);
    }
  }

  lemma RouteStepKeepsInv(s: State)
    requires IntakeInv(s.intake, s.flags.quit, s.limits) && Enabled(s, Route)
    ensures var s' := Step(s, Route); s'.limits == s.limits && IntakeInv(s'.intake, s'.flags.quit, s'.limits)
  {
    RouteKeepsInv(s.intake, s.flags.quit, s.limits);
    RouteStepIntake(s);
  }

  lemma AbandonKeepsInv(s: State, n: nat)
    requires IntakeInv(s.intake, s.flags.quit, s.limits) && Enabled(s, AbandonParse(n))
    ensures var s' := Step(s, AbandonParse(n)); s'.limits == s.limits && IntakeInv(s'.intake, s'.flags.quit, s'.limits)
  {
    TaskAbandoned(s.intake, n, s.flags.quit, s.limits);
    var i := s.intake.(queued := s.intake.queued - multiset{n}, abandoned := s.intake.abandoned + 1);
    DiscardKeepsInv(i, n, s.limits);
  }
}
