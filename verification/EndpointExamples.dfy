// Runs of the endpoint in which a promise fails.
module EndpointExamples {
  import opened Base
  import opened Classify
  import opened Reorder
  import opened Pipeline
  import D = Dispatch
  import E = EndpointTheorems

  const NoLimits := Limits(0, 0, 0, 0, true)
  const Fresh := Initial(NoLimits, 0, 0)
  const Ask := Request(IntId(1))

  /** One more enabled step. */
  lemma OneMoreStep(s: State, labels: seq<Label>, l: Label, s': State)
    requires Enabled(Exec(s, labels), l) && Step(Exec(s, labels), l) == s'
    ensures Exec(s, labels + [l]) == s'
  {
    ExecSnoc(s, labels, l);
  }

  function Arrived(m: Message): State {
    Fresh.(intake := Fresh.intake.(frames := [m], hand := Some(0)))
  }

  function Posted(m: Message): State {
    Fresh.(intake := Fresh.intake.(frames := [m], queued := multiset{0}, slots := 1))
  }

  lemma FrameArrives(m: Message)
    ensures Enabled(Fresh, Assign(m)) && Step(Fresh, Assign(m)) == Arrived(m)
  {
  }

  lemma FrameIsPosted(m: Message)
    ensures Enabled(Arrived(m), PostParse) && Step(Arrived(m), PostParse) == Posted(m)
  {
  }

  const Start: seq<Label> := []

  function PostedRun(m: Message): seq<Label> {
    Start + [Assign(m)] + [PostParse]
  }

  lemma OneFramePosted(m: Message)
    ensures Exec(Fresh, PostedRun(m)) == Posted(m)
  {
    FrameArrives(m);
    FrameIsPosted(m);
    OneMoreStep(Fresh, Start, Assign(m), Arrived(m));
    OneMoreStep(Fresh, Start + [Assign(m)], PostParse, Posted(m));
  }

  // -- A request answered twice -----------------------------------------------------------

  const Parsing := Fresh.(intake := Fresh.intake.(frames := [Ask], queued := multiset{}, parsing := multiset{0}, slots := 1))

  const Routing := Fresh.(intake := Fresh.intake.(frames := [Ask], finishing := 1, slots := 1,
                                                  buffer := Buffer(1, map[]), routing := [Item(0, Ask)]))

  const Routed := Routing.(intake := Routing.intake.(routing := [], routed := [Item(0, Ask)]),
                           h := Fresh.h.(pool := multiset{0}), posted := [0])

  const Running := Routed.(h := Fresh.h.(running := multiset{0}))

  lemma TaskIsTaken()
    ensures Enabled(Posted(Ask), ParseStart(0)) && Step(Posted(Ask), ParseStart(0)) == Parsing
  {
    assert multiset{0} - multiset{0} == multiset{} && multiset{} + multiset{0} == multiset{0};
  }

  lemma FirstIsReady()
    ensures Submit(Buffer(0, map[]), 0, Ask, Blank, false, 0, true) == Outcome(Buffer(1, map[]), [Ask], false)
  {
    var rest: Buffer<Message> := Buffer(1, map[]);
    DrainTakesTheRun(rest);
    assert [Ask] + Drain(rest).1 == [Ask];
  }

  lemma TaskSubmits()
    ensures Enabled(Parsing, ParseDone(0)) && Step(Parsing, ParseDone(0)) == Routing
  {
    FirstIsReady();
    assert Items(0, [Ask]) == [Item(0, Ask)];
    assert multiset{0} - multiset{0} == multiset{};
  }

  lemma RequestIsRouted()
    ensures Enabled(Routing, Route) && Step(Routing, Route) == Routed
  {
    assert [Item(0, Ask)][1..] == [] && [] + [Item(0, Ask)] == [Item(0, Ask)];
    assert multiset{} + multiset{0} == multiset{0};
  }

  lemma RequestIsStarted()
    ensures Enabled(Routed, StartRequest(0)) && Step(Routed, StartRequest(0)) == Running
  {
    assert multiset{0} - multiset{0} == multiset{} && multiset{} + multiset{0} == multiset{0};
  }

  const ParsedRun := PostedRun(Ask) + [ParseStart(0)] + [ParseDone(0)]
  const OneRequestRun := ParsedRun + [Route] + [StartRequest(0)]

  lemma OneFrameParsed()
    ensures Exec(Fresh, ParsedRun) == Routing
  {
    OneFramePosted(Ask);
    TaskIsTaken();
    OneMoreStep(Fresh, PostedRun(Ask), ParseStart(0), Parsing);
    TaskSubmits();
    OneMoreStep(Fresh, PostedRun(Ask) + [ParseStart(0)], ParseDone(0), Routing);
  }

  /** A run to a state in which request 0 is in its handler and nothing is answered. */
  lemma OneRequestRunning()
    ensures Exec(Fresh, OneRequestRun) == Running
  {
    OneFrameParsed();
    RequestIsRouted();
    OneMoreStep(Fresh, ParsedRun, Route, Routed);
    RequestIsStarted();
    OneMoreStep(Fresh, ParsedRun + [Route], StartRequest(0), Running);
  }

  const LateFailure := FinishRequest(0, Sync(Value, ThrewLate, Written))

  /** In any open session any running request can be answered twice. */
  lemma AnsweredTwice(s: State, n: nat)
    requires Open(s.flags) && n in s.h.running && Assigned(s.intake, n) && ExpectsReply(Frame(s.intake, n))
    ensures var l := FinishRequest(n, Sync(Value, ThrewLate, Written));
            var id := Frame(s.intake, n).id;
            Enabled(s, l)
            && Step(s, l).h.wire == s.h.wire + [Reply(n, id, Result), Reply(n, id, InternalError)]
  {
    var o, id := Sync(Value, ThrewLate, Written), Frame(s.intake, n).id;
    assert Bodies(o) == [Result, InternalError];
    assert Replies(n, id, Bodies(o)) == [Reply(n, id, Result), Reply(n, id, InternalError)];
    assert FinishStep(s, n, o).h.wire == s.h.wire + Replies(n, id, Bodies(o));
  }

  /** The exception is real: a handler that returned a value is answered twice when
      the write throws after its bytes have left. */
  lemma LateWriteFailureAnswersTwice()
    ensures Exec(Fresh, OneRequestRun + [LateFailure]).h.wire
            == [Reply(0, IntId(1), Result), Reply(0, IntId(1), InternalError)]
  {
    OneRequestRunning();
    AnsweredTwice(Running, 0);
    OneMoreStep(Fresh, OneRequestRun, LateFailure, Step(Running, LateFailure));
  }

  // -- A parse slot that is never returned ------------------------------------------------

  const Quitting := Posted(Ordered).(flags := Fresh.flags.(quit := true))
  const PoolsStopped := Posted(Ordered).(flags := Fresh.flags.(quit := true, poolsStopped := true))

  lemma SessionQuits()
    ensures Enabled(Posted(Ordered), Quit) && Step(Posted(Ordered), Quit) == Quitting
  {
  }

  lemma PoolsStop()
    ensures Enabled(Quitting, StopPools) && Step(Quitting, StopPools) == PoolsStopped
  {
  }

  lemma TaskIsDestroyed()
    ensures Enabled(PoolsStopped, AbandonParse(0))
    ensures var i := Step(PoolsStopped, AbandonParse(0)).intake;
            i.queued == i.parsing == multiset{} && i.finishing == 0 && i.slots == 1
  {
    assert multiset{0} - multiset{0} == multiset{};
  }

  const StoppedRun := PostedRun(Ordered) + [Quit] + [StopPools]

  lemma OneTaskLeft()
    ensures Exec(Fresh, StoppedRun) == PoolsStopped
  {
    OneFramePosted(Ordered);
    SessionQuits();
    OneMoreStep(Fresh, PostedRun(Ordered), Quit, Quitting);
    PoolsStop();
    OneMoreStep(Fresh, PostedRun(Ordered) + [Quit], StopPools, PoolsStopped);
  }

  /** A stop that destroys a queued parse task leaves its slot taken: nothing is being
      parsed any more, and the next session starts with one slot less. */
  lemma StopCanLeakASlot()
    ensures var i := Exec(Fresh, StoppedRun + [AbandonParse(0)]).intake;
            i.queued == i.parsing == multiset{} && i.finishing == 0 && i.slots == 1
  {
    OneTaskLeft();
    TaskIsDestroyed();
    OneMoreStep(Fresh, StoppedRun, AbandonParse(0), Step(PoolsStopped, AbandonParse(0)));
  }
}
