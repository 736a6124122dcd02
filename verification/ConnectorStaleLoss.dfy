/** A run in which the late end of an earlier session gives a call an error, before its own session answers it. */
module ConnectorStaleLoss {
  import opened Common
  import opened ConnectorEngine
  import opened ConnectorRuns
  import opened ConnectorBoth

  const INIT := Message(Some(Number(1)), Some("initialize"), false, "init")
  const ANSWER := Reply(Number(1), true, true, "answer")
  const CACHED := Handshake(Some(INIT), Number(1), None)
  const ABSORBING := NEW_READER.(pc := Running, replayed := true, absorbing := true)
  const CAUGHT_UP := ABSORBING.(absorbing := false, handled := [ANSWER], swallowed := Some(0))

  /** The initialize line waits, its handshake is cached, nothing is outstanding, and these sessions have been opened. */
  predicate Waits(s: State, readers: seq<Reader>) {
    && s.queue == [0] && s.policy == FRESH_POLICY.(handshake := CACHED) && s.readers == readers && !s.link.graceful
  }

  lemma QueueInitialize(input: seq<AgentLine>) returns (events: seq<Event>, s: State)
    requires input == [INIT]
    ensures Run(input, events) == Some(s) && s.main.Establishing? && Waits(s, [])
  {
    events, s := Then(input, [], INITIAL, OfMain(Skip));
    events, s := Then(input, events, s, OfMain(OpenFails));
    events, s := Then(input, events, s, OfWriter(Take));
    events, s := Then(input, events, s, OfWriter(Look));
    assert s.queue == [] && input[0] == INIT;
    events, s := Then(input, events, s, OfWriter(Settle));
  }

  lemma OpenAgain(input: seq<AgentLine>, before: seq<Event>, t: State) returns (events: seq<Event>, s: State)
    requires Run(input, before) == Some(t) && t.main.Establishing? && Waits(t, t.readers)
    ensures Run(input, events) == Some(s) && Waits(s, t.readers + [NEW_READER]) && s.main == Replaying(|t.readers|, Some(INIT))
  {
    events, s := Then(input, before, t, OfMain(Skip));
    events, s := Then(input, events, s, OfMain(Open));
  }

  lemma ReplayTheLine(input: seq<AgentLine>, before: seq<Event>, t: State, readers: seq<Reader>) returns (events: seq<Event>, s: State)
    requires Run(input, before) == Some(t) && Waits(t, readers + [NEW_READER]) && t.main == Replaying(|readers|, Some(INIT))
    ensures Run(input, events) == Some(s) && Waits(s, readers + [ABSORBING]) && s.main == Awaiting(|readers|)
    ensures s.link.sock == Some(|readers|) && !s.link.lost
  {
    events, s := Then(input, before, t, OfMain(Replay(true)));
    assert s.readers == readers + [ABSORBING];
  }

  lemma AbsorbTheAnswer(input: seq<AgentLine>, before: seq<Event>, t: State, readers: seq<Reader>) returns (events: seq<Event>, s: State)
    requires Run(input, before) == Some(t) && Waits(t, readers + [ABSORBING]) && t.main == Awaiting(|readers|) && !t.link.lost
    ensures Run(input, events) == Some(s) && Waits(s, readers + [CAUGHT_UP]) && s.main == Awaiting(|readers|) && s.link == t.link.(ready := true)
  {
    assert Heard(ABSORBING, CACHED, ANSWER) == CAUGHT_UP;
    assert (readers + [ABSORBING])[|readers| := CAUGHT_UP] == readers + [CAUGHT_UP];
    events, s := Then(input, before, t, OfReader(|readers|, Arrive(ANSWER)));
  }

  /** A session is opened with a replay and the replay's answer is absorbed. */
  lemma Reopen(input: seq<AgentLine>, before: seq<Event>, t: State) returns (events: seq<Event>, s: State)
    requires Run(input, before) == Some(t) && t.main.Establishing? && Waits(t, t.readers)
    ensures Run(input, events) == Some(s) && Waits(s, t.readers + [CAUGHT_UP]) && s.main == Draining(|t.readers|)
    ensures s.link.sock == Some(|t.readers|)
  {
    events, s := OpenAgain(input, before, t);
    events, s := ReplayTheLine(input, events, s, t.readers);
    events, s := AbsorbTheAnswer(input, events, s, t.readers);
    events, s := Then(input, events, s, OfMain(FindReady));
  }

  /** The session dies while the queued line is handed over; its reader has not seen it yet. */
  lemma DropWhileHanding(input: seq<AgentLine>, before: seq<Event>, t: State) returns (events: seq<Event>, s: State)
    requires Run(input, before) == Some(t) && input == [INIT] && Waits(t, t.readers) && t.main.Draining?
    ensures Run(input, events) == Some(s) && Waits(s, t.readers) && s.main.Establishing?
  {
    events, s := Then(input, before, t, OfMain(Pop));
    assert s.queue == [] && Cached(CACHED, INIT) == CACHED;
    events, s := Then(input, events, s, OfMain(Hand(false)));
    assert s.queue == [0];
  }

  /** On the next session it is handed over and remembered. */
  lemma HandOver(input: seq<AgentLine>, before: seq<Event>, t: State) returns (events: seq<Event>, s: State)
    requires Run(input, before) == Some(t) && input == [INIT] && Waits(t, t.readers) && t.main.Draining?
    ensures Run(input, events) == Some(s) && s.readers == t.readers && s.link == t.link
    ensures s.policy.pending == {Number(1)} && s.policy.failed == {}
  {
    events, s := Then(input, before, t, OfMain(Pop));
    events, s := Then(input, events, s, OfMain(Hand(true)));
    events, s := Then(input, events, s, OfMain(Note));
  }

  /** The end of the first session takes the id on the second for lost: an error, and then the answer. */
  lemma ErrorThenAnswerForOneCall(input: seq<AgentLine>) returns (lost: seq<Event>, answer: Event)
    requires input == [INIT]
    ensures Run(input, lost).Some? && CountErrors(Run(input, lost).value.log.errors, Number(1)) > 0
    ensures answer == OfReader(1, Arrive(ANSWER)) && Run(input, lost + [answer]).Some?
    ensures GotBoth(Run(input, lost + [answer]).value, 1, ANSWER, Number(1))
  {
    var events, s := QueueInitialize(input);
    events, s := Reopen(input, events, s);
    events, s := DropWhileHanding(input, events, s);
    events, s := Reopen(input, events, s);
    events, s := HandOver(input, events, s);
    lost := ErrorThenAnswer(input, events, 0, 1, ANSWER);
    answer := OfReader(1, Arrive(ANSWER));
  }
}
