// From JSON documents to replies: classification and the endpoint together.
module EndToEnd {
  import opened Base
  import opened Classify
  import opened Pipeline
  import R = ReplyProof
  import E = EndpointTheorems
  import P = Progress
  import C = ReplyCauses

  /** A frame's document, what its typed parser makes of it, and the outgoing requests
      that are pending when it is parsed. */
  datatype Arrival = Arrival(document: Document, typed: Typed, waiting: set<Id>)

  function Classified(a: Arrival, concurrent: set<string>): (m: Message) {
    ParseAndClassify(a.document, a.typed, concurrent, a.waiting)
  }

  /** The frames numbered so far are those documents. */
  ghost predicate Carries(i: Intake, start: nat, arrivals: seq<Arrival>, concurrent: set<string>) {
    && i.start == start && |i.frames| == |arrivals|
    && forall k :: 0 <= k < |arrivals| ==> i.frames[k] == Classified(arrivals[k], concurrent)
  }

  /** Replies to message n, all of them under the given id. */
  ghost predicate OnlyUnder(wire: seq<Reply>, n: nat, id: Id) {
    forall j :: 0 <= j < |wire| && wire[j].sequence == n ==> wire[j].id == id
  }

  predicate IsRequestDocument(d: Document) {
    d.Document? && d.version2 && IsRequest(d)
  }

  lemma RepliesCarryTheId(i: Intake, wire: seq<Reply>, start: nat, arrivals: seq<Arrival>, concurrent: set<string>, k: nat)
    requires R.IdsMatch(i, wire) && Carries(i, start, arrivals, concurrent) && k < |arrivals|
    requires WellFormedRequest(arrivals[k].document)
    ensures OnlyUnder(wire, start + k, arrivals[k].document.id)
  {
    var a := arrivals[k];
    RequestsSurviveParsing(a.document, a.typed, concurrent, a.waiting);
  }

  /** No document but a request makes the endpoint reply. */
  lemma OnlyRequestsExpectReplies(a: Arrival, concurrent: set<string>)
    ensures ExpectsReply(Classified(a, concurrent)) ==> IsRequestDocument(a.document)
    ensures WellFormedRequest(a.document) ==> ExpectsReply(Classified(a, concurrent))
  {
  }

  /** Message n came from document d: a JSON-RPC 2.0 request with an integer or string
      id that no overload discarded has exactly one reply, under its own id, and a
      document that is not a request has none. */
  ghost predicate Answered(s: State, n: nat, d: Document) {
    && (WellFormedRequest(d) ==>
          && R.Answers(s.h.wire, n) == Bit(n !in s.intake.blanked && n !in s.h.dropped)
          && OnlyUnder(s.h.wire, n, d.id))
    && (!IsRequestDocument(d) ==> R.Answers(s.h.wire, n) == 0)
  }

  lemma AnsweredByNumber(s: State, start: nat, arrivals: seq<Arrival>, concurrent: set<string>, k: nat)
    requires R.IdsMatch(s.intake, s.h.wire) && Carries(s.intake, start, arrivals, concurrent) && k < |arrivals|
    requires R.Answers(s.h.wire, start + k) == Bit(E.MustBeAnswered(s, start + k))
    ensures Answered(s, start + k, arrivals[k].document)
  {
    OnlyRequestsExpectReplies(arrivals[k], concurrent);
    if WellFormedRequest(arrivals[k].document) {
      RepliesCarryTheId(s.intake, s.h.wire, start, arrivals, concurrent, k);
    }
  }

  /** What answers the request says what happened to it: its method is not registered, its
      parameters did not parse, or a handler step of the run finished it with an outcome
      that has this body. */
  ghost predicate BodyFits(s0: State, labels: seq<Label>, a: Arrival, r: Reply) {
    match a.typed
    case Unregistered => r.body == Rejected(MethodNotFound)
    case Throws => r.body == Rejected(InvalidParams)
    case Parsed => Happens(s0, labels, C.HandlerPutting(r))
  }

  lemma FittingBody(i: Intake, start: nat, arrivals: seq<Arrival>, concurrent: set<string>, k: nat, r: Reply, fromHandler: bool)
    requires Carries(i, start, arrivals, concurrent) && k < |arrivals| && r.sequence == start + k
    requires C.FitsFrame(i, r, fromHandler) && WellFormedRequest(arrivals[k].document)
    ensures match arrivals[k].typed
            case Unregistered => r.body == Rejected(MethodNotFound)
            case Throws => r.body == Rejected(InvalidParams)
            case Parsed => fromHandler
  {
    var a := arrivals[k];
    assert Frame(i, r.sequence) == Classified(a, concurrent);
    ClassifiedExactly(a.document, a.typed, concurrent, a.waiting);
  }

  ghost predicate BodiesFit(s0: State, labels: seq<Label>, a: Arrival, n: nat) {
    WellFormedRequest(a.document) ==>
      forall r :: C.OnWire(Exec(s0, labels), r) && r.sequence == n ==> BodyFits(s0, labels, a, r)
  }

  lemma AllBodiesFit(limits: Limits, start: nat, leaked: nat, labels: seq<Label>,
                     arrivals: seq<Arrival>, concurrent: set<string>, k: nat)
    requires E.Startable(limits, leaked) && k < |arrivals|
    requires Carries(Exec(Initial(limits, start, leaked), labels).intake, start, arrivals, concurrent)
    ensures BodiesFit(Initial(limits, start, leaked), labels, arrivals[k], start + k)
  {
    var s0 := Initial(limits, start, leaked);
    if WellFormedRequest(arrivals[k].document) {
      forall r | C.OnWire(Exec(s0, labels), r) && r.sequence == start + k ensures BodyFits(s0, labels, arrivals[k], r) {
        EveryBodyFits(limits, start, leaked, labels, arrivals, concurrent, k, r);
      }
    }
  }

  /** In every run, at any time: each reply to a JSON-RPC request says what happened to it. */
  lemma EveryBodyFits(limits: Limits, start: nat, leaked: nat, labels: seq<Label>,
                      arrivals: seq<Arrival>, concurrent: set<string>, k: nat, r: Reply)
    requires E.Startable(limits, leaked) && k < |arrivals| && WellFormedRequest(arrivals[k].document)
    ensures var s0 := Initial(limits, start, leaked);
            var s := Exec(s0, labels);
            Carries(s.intake, start, arrivals, concurrent) && C.OnWire(s, r) && r.sequence == start + k
            ==> BodyFits(s0, labels, arrivals[k], r)
  {
    var s0 := Initial(limits, start, leaked);
    var s := Exec(s0, labels);
    C.RepliesFitTheirFrames(limits, start, leaked, labels, r);
    if Carries(s.intake, start, arrivals, concurrent) && C.OnWire(s, r) && r.sequence == start + k {
      FittingBody(s.intake, start, arrivals, concurrent, k, r, Happens(s0, labels, C.HandlerPutting(r)));
    }
  }

  /** Every message has exactly the replies it must have, under the right ids. */
  ghost predicate AllRight(s: State) {
    R.IdsMatch(s.intake, s.h.wire) && forall n: nat :: R.Answers(s.h.wire, n) == Bit(E.MustBeAnswered(s, n))
  }

  lemma DocumentsAnswered(s: State, start: nat, arrivals: seq<Arrival>, concurrent: set<string>, k: nat)
    requires AllRight(s) && Carries(s.intake, start, arrivals, concurrent) && k < |arrivals|
    ensures Answered(s, start + k, arrivals[k].document)
  {
    AnsweredByNumber(s, start, arrivals, concurrent, k);
  }

  lemma QuietRunsAreRight(limits: Limits, start: nat, leaked: nat, labels: seq<Label>)
    requires E.Startable(limits, leaked)
    requires forall i :: 0 <= i < |labels| ==> E.CleanLabel(labels[i])
    ensures var s := Exec(Initial(limits, start, leaked), labels);
            E.Quiescent(s) && E.Healthy(s.flags) ==> AllRight(s)
  {
    var s := Exec(Initial(limits, start, leaked), labels);
    E.EveryRunKeepsInv(limits, start, leaked, labels);
    if E.Quiescent(s) && E.Healthy(s.flags) {
      forall n: nat ensures R.Answers(s.h.wire, n) == Bit(E.MustBeAnswered(s, n)) {
        E.ExactlyOneReply(limits, start, leaked, labels, n);
      }
    }
  }

  /** Whatever documents arrive, once the session is quiescent, with no stop and a
      working output, they have been answered as JSON-RPC demands. */
  lemma EveryDocumentIsAnswered(limits: Limits, start: nat, leaked: nat, labels: seq<Label>,
                                arrivals: seq<Arrival>, concurrent: set<string>, k: nat)
    requires E.Startable(limits, leaked) && k < |arrivals|
    requires forall i :: 0 <= i < |labels| ==> E.CleanLabel(labels[i])
    ensures var s := Exec(Initial(limits, start, leaked), labels);
            E.Quiescent(s) && E.Healthy(s.flags) && Carries(s.intake, start, arrivals, concurrent)
            ==> && Answered(s, start + k, arrivals[k].document)
                && BodiesFit(Initial(limits, start, leaked), labels, arrivals[k], start + k)
  {
    var s := Exec(Initial(limits, start, leaked), labels);
    QuietRunsAreRight(limits, start, leaked, labels);
    if E.Quiescent(s) && E.Healthy(s.flags) && Carries(s.intake, start, arrivals, concurrent) {
      DocumentsAnswered(s, start, arrivals, concurrent, k);
      AllBodiesFit(limits, start, leaked, labels, arrivals, concurrent, k);
    }
  }

  lemma SettledRunsAreRight(limits: Limits, start: nat, leaked: nat, labels: seq<Label>, schedule: seq<Label>)
    requires E.Startable(limits, leaked) && (limits.dropNewest || P.Unlimited(limits))
    requires P.AllCalm(labels) && P.AllCalm(schedule)
    requires P.Schedule(Exec(Initial(limits, start, leaked), labels), schedule)
    requires P.Stuck(Exec(Exec(Initial(limits, start, leaked), labels), schedule))
    ensures AllRight(Exec(Exec(Initial(limits, start, leaked), labels), schedule))
  {
    var s := Exec(Exec(Initial(limits, start, leaked), labels), schedule);
    ExecAppend(Initial(limits, start, leaked), labels, schedule);
    E.EveryRunKeepsInv(limits, start, leaked, labels + schedule);
    forall n: nat ensures R.Answers(s.h.wire, n) == Bit(E.MustBeAnswered(s, n)) {
      P.EveryRequestIsAnswered(limits, start, leaked, labels, schedule, n);
    }
  }

  /** The same for every way the session's own steps can be scheduled to their end,
      under DropNewest or without limits. */
  lemma EveryScheduleAnswersTheDocuments(limits: Limits, start: nat, leaked: nat, labels: seq<Label>, schedule: seq<Label>,
                                         arrivals: seq<Arrival>, concurrent: set<string>, k: nat)
    requires E.Startable(limits, leaked) && (limits.dropNewest || P.Unlimited(limits)) && k < |arrivals|
    requires P.AllCalm(labels) && P.AllCalm(schedule)
    requires P.Schedule(Exec(Initial(limits, start, leaked), labels), schedule)
    requires P.Stuck(Exec(Exec(Initial(limits, start, leaked), labels), schedule))
    ensures var s := Exec(Exec(Initial(limits, start, leaked), labels), schedule);
            Carries(s.intake, start, arrivals, concurrent)
            ==> && Answered(s, start + k, arrivals[k].document)
                && BodiesFit(Initial(limits, start, leaked), labels + schedule, arrivals[k], start + k)
  {
    var s := Exec(Exec(Initial(limits, start, leaked), labels), schedule);
    SettledRunsAreRight(limits, start, leaked, labels, schedule);
    if Carries(s.intake, start, arrivals, concurrent) {
      DocumentsAnswered(s, start, arrivals, concurrent, k);
      ExecAppend(Initial(limits, start, leaked), labels, schedule);
      AllBodiesFit(limits, start, leaked, labels + schedule, arrivals, concurrent, k);
    }
  }
}
