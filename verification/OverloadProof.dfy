// What an overload under DropNewest discards stays discarded: a number recorded in
// `blanked` is routed as a placeholder and never as its message.
module OverloadProof {
  import opened Base
  import opened Classify
  import opened Reorder
  import opened Pipeline
  import I = IntakeProof

  ghost predicate BlankIn(items: seq<Item>, k: nat) {
    forall j :: 0 <= j < |items| && items[j].sequence == k ==> items[j].message == Blank
  }

  /** Wherever number k is, it is or will become a placeholder. */
  ghost predicate BlankAt(i: Intake, k: nat) {
    && Assigned(i, k) && k !in i.queued && k !in i.parsing
    && (i.hand == Some(k) ==> i.noSlot)
    && (k in i.buffer.held ==> i.buffer.held[k] == Blank)
    && BlankIn(i.routed, k) && BlankIn(i.routing, k)
  }

  ghost predicate BlankStays(i: Intake, k: nat) {
    k in i.blanked ==> BlankAt(i, k)
  }

  ghost predicate BlanksStay(i: Intake) {
    forall k: nat :: BlankStays(i, k)
  }

  lemma NotRoutedYet(i: Intake, n: nat)
    requires I.InOrder(i) && n >= i.buffer.next
    ensures BlankIn(i.routed, n) && BlankIn(i.routing, n)
  {
    var all := i.routed + i.routing;
    forall j | 0 <= j < |all| ensures all[j].sequence < n {
      assert I.Numbers(all)[j] == all[j].sequence;
    }
    assert forall j :: 0 <= j < |i.routed| ==> all[j] == i.routed[j];
    assert forall j :: 0 <= j < |i.routing| ==> all[|i.routed| + j] == i.routing[j];
  }

  /** A submitted number is not buffered, not routed and not in hand. */
  lemma MissingIsNowhere(i: Intake, n: nat)
    requires I.Missing(i, n)
    ensures n !in i.queued && n !in i.parsing && i.hand != Some(n) && n !in i.buffer.held && (i.start <= n ==> n >= i.buffer.next)
  {
    assert I.Places(i, n) == 0;
  }

  lemma SubmitKeepsHeldBlank(i: Intake, n: nat, m: Message, bypass: bool, lim: Limits, k: nat)
    requires k in i.buffer.held && k in i.blanked ==> i.buffer.held[k] == Blank
    requires k == n && k in i.blanked ==> m == Blank
    requires n !in i.buffer.held
    ensures var i' := Submitted(i, n, m, bypass, lim).0;
            k in i'.blanked && k in i'.buffer.held ==> i'.buffer.held[k] == Blank
  {
    DrainTakesTheRun(I.SubmitSource(i.buffer, n, m, bypass, lim));
  }

  lemma SubmitKeepsRoutingBlank(i: Intake, n: nat, m: Message, bypass: bool, lim: Limits, k: nat)
    requires k in i.buffer.held && k in i.blanked ==> i.buffer.held[k] == Blank
    requires k == n && k in i.blanked ==> m == Blank
    requires n !in i.buffer.held && i.routing == []
    ensures var i' := Submitted(i, n, m, bypass, lim).0;
            k in i'.blanked ==> BlankIn(i'.routing, k)
  {
    var (i', overloaded) := Submitted(i, n, m, bypass, lim);
    if !overloaded && k in i'.blanked {
      forall j | 0 <= j < |i'.routing| && i'.routing[j].sequence == k ensures i'.routing[j].message == Blank {
        I.ReadyMessage(i.buffer, n, m, bypass, lim, j);
      }
    }
  }

  lemma SubmitKeepsBlank(i: Intake, n: nat, m: Message, bypass: bool, lim: Limits, k: nat)
    requires I.Missing(i, n) && I.InOrder(i) && i.routing == []
    requires k != n ==> BlankStays(i, k)
    requires n in i.blanked ==> m == Blank
    ensures BlankStays(Submitted(i, n, m, bypass, lim).0, k)
  {
    MissingIsNowhere(i, n);
    NotRoutedYet(i, n);
    SubmitKeepsHeldBlank(i, n, m, bypass, lim, k);
    SubmitKeepsRoutingBlank(i, n, m, bypass, lim, k);
  }

  lemma PostParseKeepsBlank(s: State, k: nat)
    requires I.IntakeInv(s.intake, s.flags.quit, s.limits) && BlankStays(s.intake, k) && Enabled(s, PostParse)
    ensures BlankStays(Step(s, PostParse).intake, k)
  {
    var n := s.intake.hand.value;
    I.HandTaken(s.intake, s.flags.quit, s.limits);
    MissingIsNowhere(s.intake.(hand := None, noSlot := false), n);
    NotRoutedYet(s.intake, n);
  }

  lemma SubmitBlankKeepsBlank(s: State, k: nat)
    requires I.IntakeInv(s.intake, s.flags.quit, s.limits) && BlankStays(s.intake, k) && Enabled(s, SubmitBlank)
    ensures BlankStays(Step(s, SubmitBlank).intake, k)
  {
    var n, i := s.intake.hand.value, s.intake.(hand := None, noSlot := false);
    I.HandTaken(s.intake, s.flags.quit, s.limits);
    if !s.flags.quit {
      SubmitKeepsBlank(i, n, Blank, true, s.limits, k);
    }
  }

  lemma FinishKeepsBlank(i: Intake, n: nat, k: nat)
    requires BlankStays(i, k) && n in i.parsing
    ensures BlankStays(i.(parsing := i.parsing - multiset{n}, finishing := i.finishing + 1), k)
    ensures k == n ==> k !in i.blanked
  {
  }

  lemma AfterParseKeepsBlank(i: Intake, n: nat, quit: bool, lim: Limits, k: nat)
    requires I.IntakeInv(i, quit, lim) && n in i.parsing && i.routing == [] && Assigned(i, n)
    requires BlankStays(i, k) && BlankStays(i, n)
    ensures BlankStays(I.AfterParse(i, n, quit, lim).0, k)
  {
    var i' := i.(parsing := i.parsing - multiset{n}, finishing := i.finishing + 1);
    FinishKeepsBlank(i, n, k);
    if !quit {
      I.TaskFinishes(i, n, quit, lim);
      SubmitKeepsBlank(i', n, Frame(i, n), false, lim, k);
    }
  }

  lemma RouteKeepsBlank(i: Intake, k: nat)
    requires BlankStays(i, k) && i.routing != []
    ensures BlankStays(i.(routing := i.routing[1..], routed := i.routed + [i.routing[0]]), k)
  {
  }

  lemma AssignKeepsBlank(i: Intake, m: Message, k: nat)
    requires BlankStays(i, k) && i.hand.None?
    ensures BlankStays(i.(frames := i.frames + [m], hand := Some(End(i))), k)
  {
  }

  lemma OtherIntakeStepsKeepBlank(s: State, l: Label, k: nat)
    requires BlankStays(s.intake, k) && Enabled(s, l)
    requires l.ParseStart? || l.ReleaseSlot? || l.ClearRouting? || l.AbandonParse?
    ensures BlankStays(Step(s, l).intake, k)
  {
  }

  lemma StepKeepsBlank(s: State, l: Label, k: nat)
    requires I.IntakeInv(s.intake, s.flags.quit, s.limits) && Enabled(s, l)
    requires BlankStays(s.intake, k) && (l.ParseDone? ==> BlankStays(s.intake, l.n))
    ensures BlankStays(Step(s, l).intake, k)
  {
    if !I.TouchesIntake(l) {
      I.OtherStepsLeaveIntake(s, l);
    } else if l.Assign? {
      AssignKeepsBlank(s.intake, l.message, k);
    } else if l.PostParse? {
      PostParseKeepsBlank(s, k);
    } else if l.SubmitBlank? {
      SubmitBlankKeepsBlank(s, k);
    } else if l.ParseDone? {
      I.ParseDoneIs(s, l.n);
      AfterParseKeepsBlank(s.intake, l.n, s.flags.quit, s.limits, k);
    } else if l.Route? {
      I.RouteStepIntake(s);
      RouteKeepsBlank(s.intake, k);
    } else {
      OtherIntakeStepsKeepBlank(s, l, k);
    }
  }

  lemma StepKeepsBlanks(s: State, l: Label)
    requires I.IntakeInv(s.intake, s.flags.quit, s.limits) && BlanksStay(s.intake) && Enabled(s, l)
    ensures BlanksStay(Step(s, l).intake)
  {
    forall k: nat ensures BlankStays(Step(s, l).intake, k) {
      assert BlankStays(s.intake, k);
      StepKeepsBlank(s, l, k);
    }
  }
}
