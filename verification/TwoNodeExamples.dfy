/** Concrete runs that show the hypotheses of the agreement theorems are needed. */
module TwoNodeExamples {
  import opened Common
  import opened MessageClass
  import opened LineFraming
  import opened StreamCorrelation
  import opened CorrelatorSafety
  import opened TwoNodeRuns
  import opened TwoNodeAgreement
  import opened TwoNodeDegradation

  const ASK: Bytes := [1]
  const ANSWER: Bytes := [2]
  const LONG: Bytes := seq(1025, i => 0)

  /** A decoder for which one line is a request with id 7 and another is a response with id 7. */
  function Demo(line: Bytes): Envelope {
    if line == ASK then Object(Text("tools/call"), Some(IdInt(7)), false, false)
    else if line == ANSWER then Object(NoMethod, Some(IdInt(7)), true, false)
    else Unparseable
  }

  const ASKED := Event(Win, WireLine(1, Some(CompletedMessage(Request, Some("i:7"), 1, NoNote))))
  const ANSWERED := Event(Wsl, WireLine(1, Some(CompletedMessage(Response, Some("i:7"), 1, NoNote))))
  const OVERLONG := Event(Win, WireLine(1025, Some(CompletedMessage(Other, None, 1025, UnparseableLine))))

  lemma DemoLines()
    ensures Wire(Demo, ASK) == ASKED.line && Wire(Demo, ANSWER) == ANSWERED.line && Wire(Demo, LONG) == OVERLONG.line
    ensures NoNewline(ASK) && NoNewline(ANSWER) && NoNewline(LONG)
  {
    assert Decimal(7) == "7";
    assert "i:" + "7" == "i:7";
    assert StripCR(LONG) == LONG;
    assert |LONG| == 1025;
    assert LONG[0] == 0;
  }

  /** One more step of a run, seen from both nodes. */
  lemma OneMore(steps: seq<LineStep>, step: LineStep)
    ensures forall node :: LineHistory(Demo, steps + [step], node)
              == LineHistory(Demo, steps, node) + if step.node == node then [Event(step.origin, Wire(Demo, step.line))] else []
    ensures forall node, origin :: LinesFrom(steps + [step], node, origin)
              == LinesFrom(steps, node, origin) + if step.node == node && step.origin == origin then [step.line] else []
    ensures CausalLines(steps)
            && LinesFrom(steps + [step], Wsl, Win) <= LinesFrom(steps + [step], Win, Win)
            && LinesFrom(steps + [step], Win, Wsl) <= LinesFrom(steps + [step], Wsl, Wsl)
            ==> CausalLines(steps + [step])
  {
    assert (steps + [step])[..|steps|] == steps;
  }

  /** Win asks and Wsl answers: the request reaches Wsl before the answer leaves. */
  const CALL := [LineStep(Win, Win, ASK), LineStep(Wsl, Win, ASK)]

  lemma CallIsCausal()
    ensures CausalLines(CALL) && LineHistory(Demo, CALL, Win) == [ASKED] && LineHistory(Demo, CALL, Wsl) == [ASKED]
    ensures LinesFrom(CALL, Win, Win) == [ASK] == LinesFrom(CALL, Wsl, Win)
    ensures LinesFrom(CALL, Win, Wsl) == [] == LinesFrom(CALL, Wsl, Wsl)
  {
    DemoLines();
    OneMore([], LineStep(Win, Win, ASK));
    OneMore([LineStep(Win, Win, ASK)], LineStep(Wsl, Win, ASK));
    assert [] + [LineStep(Win, Win, ASK)] == [LineStep(Win, Win, ASK)];
    assert [LineStep(Win, Win, ASK)] + [LineStep(Wsl, Win, ASK)] == CALL;
    assert LineHistory(Demo, [LineStep(Win, Win, ASK)], Win) == [ASKED];
    assert LineHistory(Demo, [LineStep(Win, Win, ASK)], Wsl) == [];
  }

  /** `crossing` leaves Win while the answer is in flight. */
  function Crossed(crossing: Bytes): seq<LineStep> {
    CALL + [LineStep(Win, Win, crossing)] + [LineStep(Wsl, Wsl, ANSWER)]
    + [LineStep(Win, Wsl, ANSWER)] + [LineStep(Wsl, Win, crossing)]
  }

  lemma CrossedHistories(crossing: Bytes)
    ensures CausalLines(Crossed(crossing))
    ensures LineHistory(Demo, Crossed(crossing), Win) == [ASKED, Event(Win, Wire(Demo, crossing)), ANSWERED]
    ensures LineHistory(Demo, Crossed(crossing), Wsl) == [ASKED, ANSWERED, Event(Win, Wire(Demo, crossing))]
    ensures forall origin :: LinesFrom(Crossed(crossing), Win, origin) == LinesFrom(Crossed(crossing), Wsl, origin)
  {
    DemoLines();
    CallIsCausal();
    var r1 := CALL + [LineStep(Win, Win, crossing)];
    var r2 := r1 + [LineStep(Wsl, Wsl, ANSWER)];
    var r3 := r2 + [LineStep(Win, Wsl, ANSWER)];
    OneMore(CALL, LineStep(Win, Win, crossing));
    OneMore(r1, LineStep(Wsl, Wsl, ANSWER));
    OneMore(r2, LineStep(Win, Wsl, ANSWER));
    OneMore(r3, LineStep(Wsl, Win, crossing));
  }

  lemma AfterOne(a: Event, direction: Side, bound: nat, cap: nat)
    ensures DirectionAfter([a], direction, bound, cap) == DirectionStep(FRESH, direction, a, bound, cap)
  {
    HistorySnoc([], a, direction, Win, "", bound, cap);
    assert [] + [a] == [a];
  }

  lemma AfterTwo(a: Event, b: Event, direction: Side, bound: nat, cap: nat)
    ensures DirectionAfter([a, b], direction, bound, cap)
            == DirectionStep(DirectionStep(FRESH, direction, a, bound, cap), direction, b, bound, cap)
  {
    AfterOne(a, direction, bound, cap);
    HistorySnoc([a], b, direction, Win, "", bound, cap);
    assert [a] + [b] == [a, b];
  }

  lemma AfterThree(a: Event, b: Event, c: Event, direction: Side, bound: nat, cap: nat)
    ensures DirectionAfter([a, b, c], direction, bound, cap)
            == DirectionStep(DirectionStep(DirectionStep(FRESH, direction, a, bound, cap), direction, b, bound, cap),
                             direction, c, bound, cap)
  {
    AfterTwo(a, b, direction, bound, cap);
    HistorySnoc([a, b], c, direction, Win, "", bound, cap);
    assert [a, b] + [c] == [a, b, c];
  }

  lemma CountsOfThree(a: Event, b: Event, c: Event, direction: Side, id: string)
    ensures Requests([], direction, id) == Responses([], direction, id) == 0
    ensures Requests([a], direction, id) == if a.origin == direction && IsRequest(a.line, id) then 1 else 0
    ensures Responses([a], direction, id) == if a.origin != direction && IsResponse(a.line, id) then 1 else 0
    ensures Requests([a, b], direction, id) == Requests([a], direction, id) + if b.origin == direction && IsRequest(b.line, id) then 1 else 0
    ensures Responses([a, b], direction, id) == Responses([a], direction, id) + if b.origin != direction && IsResponse(b.line, id) then 1 else 0
  {
    RequestsSnoc([], a, direction, id);
    RequestsSnoc([a], b, direction, id);
    assert [] + [a] == [a] && [a] + [b] == [a, b];
  }

  lemma ShortHistory(a: Event, b: Event, c: Event, direction: Side)
    requires forall id :: IsResponse(a.line, id) ==> a.origin == direction
    requires forall id :: b.origin != direction && IsResponse(b.line, id) ==> a.origin == direction && IsRequest(a.line, id)
    requires forall id :: c.origin != direction && IsResponse(c.line, id) ==>
               a.origin == direction && IsRequest(a.line, id) && !(b.origin != direction && IsResponse(b.line, id))
    ensures Solicited([a, b, c], direction)
  {
    forall k, id | 0 <= k < 3 && [a, b, c][k].origin != direction && IsResponse([a, b, c][k].line, id)
      ensures Requests([a, b, c][..k], direction, id) > Responses([a, b, c][..k], direction, id)
    {
      CountsOfThree(a, b, c, direction, id);
      assert [a, b, c][..1] == [a] && [a, b, c][..2] == [a, b];
    }
  }

  lemma SentOfTwo(a: Event, b: Event, origin: Side)
    ensures Sent([a], origin) == if a.origin == origin then [a.line] else []
    ensures Sent([a, b], origin) == Sent([a], origin) + if b.origin == origin then [b.line] else []
  {
    assert [a][..0] == [] && [a, b][..1] == [a];
  }

  lemma SentOfThree(a: Event, b: Event, c: Event, origin: Side)
    ensures Sent([a, b, c], origin) == Sent([a, b], origin) + if c.origin == origin then [c.line] else []
  {
    assert [a, b, c][..2] == [a, b];
  }

  /** Only the first event of the three asks. */
  lemma FreshlyAsked(a: Event, b: Event, c: Event)
    requires forall id :: !IsRequest(b.line, id) && !IsRequest(c.line, id)
    ensures NoReuse([a, b, c], Win)
  {
    forall k, id | 0 <= k < 3 && [a, b, c][k].origin == Win && IsRequest([a, b, c][k].line, id)
      ensures Requests([a, b, c][..k], Win, id) <= Responses([a, b, c][..k], Win, id)
    {
      assert [a, b, c][..0] == [];
    }
  }

  lemma CrossedAliases()
    ensures AliasOf([ASKED, OVERLONG], ANSWERED, Win, "s", 1024, 16) == None
    ensures AliasOf([ASKED], ANSWERED, Wsl, "s", 1024, 16) == Some(Alias("s", Win, "i:7", 1))
  {
    AfterTwo(ASKED, OVERLONG, Win, 1024, 16);
    AfterOne(ASKED, Win, 1024, 16);
    AliasNamesTheOccurrence([ASKED, OVERLONG], ANSWERED, Win, "s", 1024, 16);
    AliasNamesTheOccurrence([ASKED], ANSWERED, Wsl, "s", 1024, 16);
  }

  lemma UnsolicitedAliases()
    ensures AliasOf([ASKED, ANSWERED, ASKED], ANSWERED, Win, "s", 1024, 16) == Some(Alias("s", Win, "i:7", 2))
    ensures AliasOf([ANSWERED, ASKED], ANSWERED, Wsl, "s", 1024, 16) == Some(Alias("s", Win, "i:7", 1))
  {
    AfterThree(ASKED, ANSWERED, ASKED, Win, 1024, 16);
    AfterTwo(ANSWERED, ASKED, Win, 1024, 16);
    AliasNamesTheOccurrence([ASKED, ANSWERED, ASKED], ANSWERED, Win, "s", 1024, 16);
    AliasNamesTheOccurrence([ANSWERED, ASKED], ANSWERED, Wsl, "s", 1024, 16);
  }

  /** The run of whole lines for these steps, its causality and its histories. */
  ghost predicate Runs(run: seq<Step>, win: seq<Event>, wsl: seq<Event>) {
    Causal(run) && HistoryOf(Demo, run, Win) == win && HistoryOf(Demo, run, Wsl) == wsl
  }

  lemma RunsFromSteps(steps: seq<LineStep>, win: seq<Event>, wsl: seq<Event>)
    requires CausalLines(steps) && forall k :: 0 <= k < |steps| ==> NoNewline(steps[k].line)
    requires LineHistory(Demo, steps, Win) == win && LineHistory(Demo, steps, Wsl) == wsl
    ensures Runs(WholeLines(steps), win, wsl)
    ensures (forall origin :: LinesFrom(steps, Win, origin) == LinesFrom(steps, Wsl, origin)) ==>
              forall origin :: Fed(WholeLines(steps), Win, origin) == Fed(WholeLines(steps), Wsl, origin)
  {
    WholeLinesAreCausal(Demo, steps);
    WholeLineRun(Demo, steps, Win);
    WholeLineRun(Demo, steps, Wsl);
  }

  /** The endpoints are orderly, yet one node aliases the answer and the other suppresses it: an over-long line
      crossed it. The source's "both degrade identically" fails. */
  lemma CrossingLineIsTreatedDifferently() returns (run: seq<Step>)
    ensures Runs(run, [ASKED, OVERLONG, ANSWERED], [ASKED, ANSWERED, OVERLONG])
    ensures HonestResponder(Demo, run, Win) && FreshRequester(Demo, run, Win)
    ensures SameLine([ASKED, OVERLONG, ANSWERED], 2, [ASKED, ANSWERED, OVERLONG], 1)
    ensures AliasOf([ASKED, OVERLONG], ANSWERED, Win, "s", 1024, 16) == None
    ensures AliasOf([ASKED], ANSWERED, Wsl, "s", 1024, 16) == Some(Alias("s", Win, "i:7", 1))
  {
    var steps := Crossed(LONG);
    DemoLines();
    CrossedHistories(LONG);
    run := WholeLines(steps);
    RunsFromSteps(steps, [ASKED, OVERLONG, ANSWERED], [ASKED, ANSWERED, OVERLONG]);
    CrossedFacts();
    CrossedAliases();
  }

  lemma CrossedFacts()
    ensures Solicited([ASKED, ANSWERED, OVERLONG], Win) && NoReuse([ASKED, OVERLONG, ANSWERED], Win)
    ensures SameLine([ASKED, OVERLONG, ANSWERED], 2, [ASKED, ANSWERED, OVERLONG], 1)
  {
    ShortHistory(ASKED, ANSWERED, OVERLONG, Win);
    FreshlyAsked(ASKED, OVERLONG, ANSWERED);
    SentOfTwo(ASKED, OVERLONG, Wsl);
    assert [ASKED, OVERLONG, ANSWERED][..2] == [ASKED, OVERLONG];
    assert [ASKED, ANSWERED, OVERLONG][..1] == [ASKED];
  }

  /** Without the rule against reuse the nodes may differ for ever: everything has arrived, one node is degraded,
      the other is not. */
  lemma ReuseInFlightDegradesOneNodeOnly() returns (run: seq<Step>)
    ensures Runs(run, [ASKED, ASKED, ANSWERED], [ASKED, ANSWERED, ASKED]) && HonestResponder(Demo, run, Win)
    ensures forall origin :: Fed(run, Win, origin) == Fed(run, Wsl, origin)
    ensures DirectionAfter([ASKED, ASKED, ANSWERED], Win, 1024, 16).lost == Some(ConcurrentReuse)
    ensures DirectionAfter([ASKED, ANSWERED, ASKED], Win, 1024, 16).lost == None
  {
    var steps := Crossed(ASK);
    DemoLines();
    CrossedHistories(ASK);
    run := WholeLines(steps);
    RunsFromSteps(steps, [ASKED, ASKED, ANSWERED], [ASKED, ANSWERED, ASKED]);
    ReuseStates();
  }

  lemma ReuseStates()
    ensures Solicited([ASKED, ANSWERED, ASKED], Win)
    ensures DirectionAfter([ASKED, ASKED, ANSWERED], Win, 1024, 16).lost == Some(ConcurrentReuse)
    ensures DirectionAfter([ASKED, ANSWERED, ASKED], Win, 1024, 16).lost == None
  {
    ShortHistory(ASKED, ANSWERED, ASKED, Win);
    AfterThree(ASKED, ASKED, ANSWERED, Win, 1024, 16);
    AfterThree(ASKED, ANSWERED, ASKED, Win, 1024, 16);
  }

  /** Wsl answers once before it has seen any request. */
  function Unsolicited(): seq<LineStep> {
    [LineStep(Wsl, Wsl, ANSWER)] + [LineStep(Win, Win, ASK)] + [LineStep(Win, Wsl, ANSWER)] + [LineStep(Wsl, Win, ASK)]
    + [LineStep(Win, Win, ASK)] + [LineStep(Wsl, Wsl, ANSWER)] + [LineStep(Win, Wsl, ANSWER)]
  }

  lemma UnsolicitedHistories()
    ensures CausalLines(Unsolicited())
    ensures LineHistory(Demo, Unsolicited(), Win) == [ASKED, ANSWERED, ASKED, ANSWERED]
    ensures LineHistory(Demo, Unsolicited(), Wsl) == [ANSWERED, ASKED, ANSWERED]
  {
    DemoLines();
    var r1 := [LineStep(Wsl, Wsl, ANSWER)];
    var r2 := r1 + [LineStep(Win, Win, ASK)];
    var r3 := r2 + [LineStep(Win, Wsl, ANSWER)];
    var r4 := r3 + [LineStep(Wsl, Win, ASK)];
    var r5 := r4 + [LineStep(Win, Win, ASK)];
    var r6 := r5 + [LineStep(Wsl, Wsl, ANSWER)];
    assert [] + r1 == r1;
    OneMore([], LineStep(Wsl, Wsl, ANSWER));
    OneMore(r1, LineStep(Win, Win, ASK));
    OneMore(r2, LineStep(Win, Wsl, ANSWER));
    OneMore(r3, LineStep(Wsl, Win, ASK));
    OneMore(r4, LineStep(Win, Win, ASK));
    OneMore(r5, LineStep(Wsl, Wsl, ANSWER));
    OneMore(r6, LineStep(Win, Wsl, ANSWER));
  }

  /** A responder that answers what it was not asked makes the nodes give one line two different aliases:
      agreement needs the honest responder. */
  lemma UnsolicitedAnswerBreaksAgreement() returns (run: seq<Step>)
    ensures Runs(run, [ASKED, ANSWERED, ASKED, ANSWERED], [ANSWERED, ASKED, ANSWERED])
    ensures SameLine([ASKED, ANSWERED, ASKED, ANSWERED], 3, [ANSWERED, ASKED, ANSWERED], 2)
    ensures AliasOf([ASKED, ANSWERED, ASKED], ANSWERED, Win, "s", 1024, 16) == Some(Alias("s", Win, "i:7", 2))
    ensures AliasOf([ANSWERED, ASKED], ANSWERED, Wsl, "s", 1024, 16) == Some(Alias("s", Win, "i:7", 1))
  {
    var steps := Unsolicited();
    DemoLines();
    UnsolicitedHistories();
    run := WholeLines(steps);
    RunsFromSteps(steps, [ASKED, ANSWERED, ASKED, ANSWERED], [ANSWERED, ASKED, ANSWERED]);
    UnsolicitedAliases();
    SecondAnswerIsOneLine();
  }

  lemma SecondAnswerIsOneLine()
    ensures SameLine([ASKED, ANSWERED, ASKED, ANSWERED], 3, [ANSWERED, ASKED, ANSWERED], 2)
  {
    SentOfTwo(ASKED, ANSWERED, Wsl);
    SentOfThree(ASKED, ANSWERED, ASKED, Wsl);
    SentOfTwo(ANSWERED, ASKED, Wsl);
    assert [ASKED, ANSWERED, ASKED, ANSWERED][..3] == [ASKED, ANSWERED, ASKED];
    assert [ANSWERED, ASKED, ANSWERED][..2] == [ANSWERED, ASKED];
  }
}
