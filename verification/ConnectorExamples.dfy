/** Runs of the connector that show what its guarantees leave out. */
module ConnectorExamples {
  import opened Common
  import opened ConnectorEngine
  import opened ConnectorRuns

  const CALL := Message(Some(Number(7)), Some("tools/call"), false, "call")
  const INIT := Message(Some(Number(1)), Some("initialize"), false, "init")
  const ANSWER := Reply(Number(7), true, true, "answer")

  const DIALLED := INITIAL.(main := Replaying(0, None), readers := [NEW_READER])
  const AWAITING := DIALLED.(link := Link(Some(0), false, true, false, false, false, false),
                             main := Awaiting(0), readers := [NEW_READER.(pc := Running)])
  const UP := AWAITING.(link := AWAITING.link.(up := true, listening := true), main := Watching)

  lemma Dial(input: seq<AgentLine>) returns (events: seq<Event>)
    ensures Run(input, events) == Some(DIALLED)
  {
    var s;
    events, s := Then(input, [], INITIAL, OfMain(Skip));
    events, s := Then(input, events, s, OfMain(Open));
    assert s.readers == [NEW_READER];
  }

  lemma InstallStep(input: seq<AgentLine>)
    ensures MainNext(input, DIALLED, Replay(true)) == Some(AWAITING)
  {
    assert DIALLED.readers[0 := NEW_READER.(pc := Running)] == AWAITING.readers;
  }

  lemma Raise(input: seq<AgentLine>, before: seq<Event>) returns (events: seq<Event>)
    requires Run(input, before) == Some(AWAITING)
    ensures Run(input, events) == Some(UP)
  {
    var s;
    events, s := Then(input, before, AWAITING, OfMain(FindReady));
    events, s := Then(input, events, s, OfMain(FindEmpty));
    events, s := Then(input, events, s, OfMain(Rise));
  }

  /** A first session without a handshake to replay. */
  lemma Connect(input: seq<AgentLine>) returns (events: seq<Event>)
    ensures Run(input, events) == Some(UP)
  {
    events := Dial(input);
    InstallStep(input);
    var s;
    events, s := Then(input, events, DIALLED, OfMain(Replay(true)));
    events := Raise(input, events);
  }

  const OFFERED := UP.(writer := Checking(0, 0), next := 1, log := INITIAL.log.(offered := multiset{0}))

  lemma OfferCall() returns (events: seq<Event>, s: State)
    ensures Run([CALL], events) == Some(s)
    ensures s == OFFERED
  {
    events := Connect([CALL]);
    events, s := Then([CALL], events, UP, OfWriter(Take));
    events, s := Then([CALL], events, s, OfWriter(Look));
    events, s := Then([CALL], events, s, OfWriter(Offer(true)));
  }

  /** The answer arrives before the id is remembered, and the session is lost after. */
  const OVERTAKEN := UP.(next := 1, link := UP.link.(sock := None, up := false),
                         policy := FRESH_POLICY.(pending := {Number(7)}),
                         readers := [NEW_READER.(pc := Losing, handled := [ANSWER], forwarded := [ANSWER])],
                         log := INITIAL.log.(offered := multiset{0}))

  const ANSWERED := OFFERED.(readers := [NEW_READER.(pc := Running, handled := [ANSWER], forwarded := [ANSWER])])

  lemma HearAnswer()
    ensures Heard(NEW_READER.(pc := Running), NO_HANDSHAKE, ANSWER) == ANSWERED.readers[0]
    ensures Handled(OFFERED, OFFERED.readers[0], ANSWER) == OFFERED
  {
    assert Consumed(FRESH_POLICY, Number(7)) == FRESH_POLICY;
    assert Outstanding(FRESH_POLICY, Number(7)) == 0;
    assert OFFERED.log.answered[Number(7) := 0] == OFFERED.log.answered;
  }

  lemma AnswerStep()
    ensures ReaderNext(OFFERED, 0, Arrive(ANSWER)) == Some(ANSWERED)
  {
    HearAnswer();
    assert OFFERED.readers[0 := ANSWERED.readers[0]] == ANSWERED.readers;
  }

  lemma LoseAfterAnswer() returns (events: seq<Event>)
    ensures Run([CALL], events) == Some(OVERTAKEN)
  {
    var s;
    events, s := OfferCall();
    AnswerStep();
    events, s := Then([CALL], events, OFFERED, OfReader(0, Arrive(ANSWER)));
    events, s := Then([CALL], events, ANSWERED, OfWriter(Check));
    events, s := Then([CALL], events, s, OfWriter(Remember));
    assert s.policy.pending == {Number(7)};
    events, s := Then([CALL], events, s, OfReader(0, Lose));
    assert s.readers == OVERTAKEN.readers;
  }

  lemma OneOutstanding()
    ensures multiset([Number(7)]) == multiset(OVERTAKEN.policy.pending) + multiset(OVERTAKEN.policy.uncertain)
    ensures ErrorsOf({}, [Number(7)], true) == [BridgeError(Number(7), true)]
  {
    assert [Number(7)][..0] == [];
  }

  /** An answer that overtakes the bookkeeping of its own request leaves the id outstanding: the Agent gets the answer,
      and at the next loss an error for the same id. */
  lemma AnswerThenErrorForOneCall() returns (events: seq<Event>)
    ensures Run([CALL], events).Some?
    ensures var s := Run([CALL], events).value;
            |s.readers| == 1 && s.readers[0].forwarded == [ANSWER] && BridgeError(Number(7), true) in s.log.errors
  {
    events := LoseAfterAnswer();
    OneOutstanding();
    var s;
    events, s := Then([CALL], events, OVERTAKEN, OfReader(0, Collect([Number(7)])));
    events, s := Then([CALL], events, s, OfReader(0, Fail));
  }

  /** A request remembered between the quiescence check of an engine swap and the swap itself is forgotten: it was
      written, it is outstanding nowhere, and no error is owed for it. */
  lemma SwapForgetsACall() returns (events: seq<Event>)
    ensures Run([CALL], events).Some?
    ensures var s := Run([CALL], events).value;
            && s.log.offered[0] == 1 && Outstanding(s.policy, Number(7)) == 0 && s.writer.Waiting?
            && s.log.errors == [] && s.log.forgotten[Number(7)] == 1
  {
    var s;
    events, s := OfferCall();
    events, s := Then([CALL], events, s, OfMain(Reload));
    events, s := Then([CALL], events, s, OfWriter(Check));
    events, s := Then([CALL], events, s, OfWriter(Remember));
    assert s.policy.pending == {Number(7)} && s.policy.uncertain == {};
    events, s := Then([CALL], events, s, OfMain(Swap));
  }

  const LOSING := UP.(link := UP.link.(sock := None, up := false), readers := [NEW_READER.(pc := Losing)])
  const FAILING := LOSING.(readers := [NEW_READER.(pc := Failing([]))])
  const DOWN := LOSING.(link := LOSING.link.(lost := true), readers := [NEW_READER.(pc := Stopped)])

  lemma LosingSteps()
    ensures ReaderNext(UP, 0, Lose) == Some(LOSING)
    ensures ReaderNext(LOSING, 0, Collect([])) == Some(FAILING)
  {
    assert multiset(FRESH_POLICY.pending) + multiset(FRESH_POLICY.uncertain) == multiset([]);
    assert Drained(FRESH_POLICY) == FRESH_POLICY;
    assert UP.readers[0 := NEW_READER.(pc := Losing)] == LOSING.readers;
    assert LOSING.readers[0 := NEW_READER.(pc := Failing([]))] == FAILING.readers;
  }

  lemma FailingStep()
    ensures ReaderNext(FAILING, 0, Fail) == Some(DOWN)
  {
    assert FailedOnce(FRESH_POLICY, []) == FRESH_POLICY;
    assert Errored(FAILING, [], true) == FAILING;
    assert FAILING.readers[0 := NEW_READER.(pc := Stopped)] == DOWN.readers;
  }

  lemma LoseTheSession(input: seq<AgentLine>) returns (events: seq<Event>)
    ensures Run(input, events) == Some(DOWN)
  {
    events := Connect(input);
    LosingSteps();
    FailingStep();
    var s;
    events, s := Then(input, events, UP, OfReader(0, Lose));
    events, s := Then(input, events, LOSING, OfReader(0, Collect([])));
    events, s := Then(input, events, FAILING, OfReader(0, Fail));
  }

  /** Reconnected and ready, with the queue still to be looked at. */
  const READY := DOWN.(link := Link(Some(1), false, true, false, false, false, true), main := Draining(1),
                       readers := [NEW_READER.(pc := Stopped), NEW_READER.(pc := Running)])

  lemma SecondInstall(input: seq<AgentLine>, s: State)
    requires s == DOWN.(link := DOWN.link.(lost := false), main := Replaying(1, None), readers := [NEW_READER.(pc := Stopped), NEW_READER])
    ensures MainNext(input, s, Replay(true)) == Some(READY.(main := Awaiting(1)))
  {
    assert s.readers[1 := NEW_READER.(pc := Running)] == READY.readers;
  }

  lemma Redial(input: seq<AgentLine>) returns (events: seq<Event>)
    ensures Run(input, events) == Some(READY)
  {
    events := LoseTheSession(input);
    var s;
    events, s := Then(input, events, DOWN, OfMain(Reconnect));
    events, s := Then(input, events, s, OfMain(Skip));
    events, s := Then(input, events, s, OfMain(Open));
    SecondInstall(input, s);
    events, s := Then(input, events, s, OfMain(Replay(true)));
    events, s := Then(input, events, s, OfMain(FindReady));
  }

  const MISSED := READY.(writer := Down(0), next := 1, main := Rising,
                         policy := FRESH_POLICY.(handshake := Handshake(Some(INIT), Number(1), None)))

  lemma MissTheQueue() returns (events: seq<Event>)
    ensures Run([INIT], events) == Some(MISSED)
  {
    events := Redial([INIT]);
    var s;
    events, s := Then([INIT], events, READY, OfWriter(Take));
    events, s := Then([INIT], events, s, OfWriter(Look));
    events, s := Then([INIT], events, s, OfMain(FindEmpty));
  }

  /** An initialize line queued after a reconnect found the queue empty waits although the session is up. */
  lemma InitializeIsStranded() returns (events: seq<Event>)
    ensures Run([INIT], events).Some?
    ensures var s := Run([INIT], events).value;
            s.link.up && !s.link.lost && s.main.Watching? && s.writer.Waiting? && s.queue == [0] && s.log.handed == multiset{}
  {
    events := MissTheQueue();
    var s;
    events, s := Then([INIT], events, MISSED, OfWriter(Settle));
    events, s := Then([INIT], events, s, OfMain(Rise));
  }
}
