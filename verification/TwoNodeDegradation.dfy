/** When do two observers degrade alike? The source's claim that they always do fails for a line in flight;
    here are the runs that show it and the exact condition. */
module TwoNodeDegradation {
  import opened Common
  import opened MessageClass
  import opened LineFraming
  import opened StreamCorrelation
  import opened CorrelatorSafety
  import opened TwoNodeRuns
  import opened TwoNodeAgreement

  ghost predicate LossSeen(history: seq<Event>, direction: Side, bound: nat) {
    exists k :: 0 <= k < |history| && Lossy(history[k], direction, bound)
  }

  /** No answer to `direction` is too long for the observer. */
  ghost predicate ReadableAnswers(history: seq<Event>, direction: Side, bound: nat) {
    forall k :: 0 <= k < |history| && history[k].origin != direction ==> history[k].line.size <= bound
  }

  lemma LossDegrades(d: Direction, direction: Side, e: Event, bound: nat, cap: nat)
    requires Lossy(e, direction, bound)
    ensures DirectionStep(d, direction, e, bound, cap).lost.Some?
  {
  }

  /** An observer of orderly endpoints degrades a direction exactly when it has seen a lossy line. */
  lemma DegradedExactlyByLoss(history: seq<Event>, direction: Side, bound: nat, cap: nat)
    requires WellFormed(history) && Solicited(history, direction) && NoReuse(history, direction)
    requires ReadableAnswers(history, direction, bound)
    ensures DirectionAfter(history, direction, bound, cap).lost.Some? <==> LossSeen(history, direction, bound)
  {
    if k :| 0 <= k < |history| && Lossy(history[k], direction, bound) {
      SplitHistory(history, k);
      LossDegrades(DirectionAfter(history[..k], direction, bound, cap), direction, history[k], bound, cap);
      LossAndCapacityArePermanent(history, k + 1, direction, bound, cap);
    } else {
      LosslessIsAttentive(history, direction, bound, cap);
    }
  }

  /** The request direction a line belongs to: its own for a request, the other for a response. */
  function DirectionOf(e: Event): Side {
    if e.line.content.Some? && e.line.content.value.kind == Response then PeerSide(e.origin) else e.origin
  }

  predicate IsCall(e: Event) {
    e.line.content.Some? && (e.line.content.value.kind == Request || e.line.content.value.kind == Response)
  }

  /** The endpoints behave in `direction`, and the observer has room for their ids and answers. */
  ghost predicate Orderly(history: seq<Event>, direction: Side, bound: nat, cap: nat) {
    && WellFormed(history) && Solicited(history, direction) && NoReuse(history, direction)
    && ReadableAnswers(history, direction, bound) && |IdsAsked(history, direction)| <= cap
  }

  lemma CallWithoutLossIsAliased(history: seq<Event>, p: nat, bound: nat, cap: nat)
    requires p < |history| && IsCall(history[p]) && Orderly(history, DirectionOf(history[p]), bound, cap)
    requires history[p].line.size <= bound && !LossSeen(history[..p], DirectionOf(history[p]), bound)
    ensures OccurrenceOfRequest(history[..p], history[p], bound, cap).Some?
            || OccurrenceOfResponse(history[..p], history[p], bound, cap).Some?
  {
    var e, direction := history[p], DirectionOf(history[p]);
    var upTo := history[..p + 1];
    SplitHistory(history, p);
    PrefixKeeps(history, p + 1, direction, bound);
    IdsAskedInPrefix(history, p + 1, direction);
    SubsetIsSmaller(IdsAsked(upTo, direction), IdsAsked(history, direction));
    assert WellClassified(e.line.content.value);
    forall k | 0 <= k < |upTo| ensures !Lossy(upTo[k], direction, bound) {
      if k < p {
        assert upTo[k] == history[..p][k];
      }
    }
    if e.line.content.value.kind == Request {
      RequestIsAliased(upTo, p, e.line.content.value.canonicalId.value, bound, cap);
    } else {
      ResponseIsAliased(upTo, p, e.line.content.value.canonicalId.value, bound, cap);
    }
  }

  /** A call gets an alias exactly when no lossy line came before it. */
  lemma AliasedExactlyWithoutLoss(history: seq<Event>, p: nat, node: Side, streamId: string, bound: nat, cap: nat)
    requires p < |history| && IsCall(history[p]) && Orderly(history, DirectionOf(history[p]), bound, cap)
    requires history[p].line.size <= bound
    ensures AliasOf(history[..p], history[p], node, streamId, bound, cap).Some?
            <==> !LossSeen(history[..p], DirectionOf(history[p]), bound)
  {
    var direction := DirectionOf(history[p]);
    AliasNamesTheOccurrence(history[..p], history[p], node, streamId, bound, cap);
    if LossSeen(history[..p], direction, bound) {
      PrefixKeeps(history, p, direction, bound);
      assert ReadableAnswers(history[..p], direction, bound);
      DegradedExactlyByLoss(history[..p], direction, bound, cap);
    } else {
      CallWithoutLossIsAliased(history, p, bound, cap);
    }
  }

  /** Two nodes treat a call alike if and only if both or neither have seen a lossy line of its direction
      before it: the claim fails exactly for a lossy line that crosses the call in flight. */
  lemma TreatedAlikeUnlessCrossed(first: seq<Event>, p: nat, second: seq<Event>, q: nat, streamId: string, bound: nat, cap: nat)
    requires p < |first| && q < |second| && first[p] == second[q] && IsCall(first[p]) && first[p].line.size <= bound
    requires Orderly(first, DirectionOf(first[p]), bound, cap) && Orderly(second, DirectionOf(first[p]), bound, cap)
    ensures (AliasOf(first[..p], first[p], Win, streamId, bound, cap).Some?
             <==> AliasOf(second[..q], second[q], Wsl, streamId, bound, cap).Some?)
            <==> (LossSeen(first[..p], DirectionOf(first[p]), bound) <==> LossSeen(second[..q], DirectionOf(first[p]), bound))
  {
    AliasedExactlyWithoutLoss(first, p, Win, streamId, bound, cap);
    AliasedExactlyWithoutLoss(second, q, Wsl, streamId, bound, cap);
  }

  // ---------------------------------------------------------------- at rest

  ghost predicate LossyAmong(lines: seq<WireLine>, origin: Side, direction: Side, bound: nat) {
    exists k :: 0 <= k < |lines| && Lossy(Event(origin, lines[k]), direction, bound)
  }

  lemma LossIsInTheLines(history: seq<Event>, direction: Side, bound: nat)
    ensures LossSeen(history, direction, bound) <==>
              LossyAmong(Sent(history, direction), direction, direction, bound)
              || LossyAmong(Sent(history, PeerSide(direction)), PeerSide(direction), direction, bound)
  {
    if k :| 0 <= k < |history| && Lossy(history[k], direction, bound) {
      var origin := history[k].origin;
      SentOfPrefix(history, k, origin);
      assert Lossy(Event(origin, Sent(history, origin)[|Sent(history[..k], origin)|]), direction, bound);
    }
    forall origin | LossyAmong(Sent(history, origin), origin, direction, bound) ensures LossSeen(history, direction, bound) {
      var k :| 0 <= k < |Sent(history, origin)| && Lossy(Event(origin, Sent(history, origin)[k]), direction, bound);
      var p := Locate(history, origin, k);
      assert Lossy(history[p], direction, bound);
    }
  }

  lemma DegradedByTheWire(decode: Decoder, run: seq<Step>, node: Side, direction: Side, bound: nat, cap: nat)
    requires Causal(run)
    requires HonestResponder(decode, run, direction) && FreshRequester(decode, run, direction)
    requires ReadableAnswers(HistoryOf(decode, run, node), direction, bound)
    ensures DirectionAfter(HistoryOf(decode, run, node), direction, bound, cap).lost.Some? <==>
              LossyAmong(Wires(decode, Lines(Fed(run, node, direction))), direction, direction, bound)
              || LossyAmong(Wires(decode, Lines(Fed(run, node, PeerSide(direction)))), PeerSide(direction), direction, bound)
  {
    SeenFrom(decode, run, node, direction);
    HistoryIsWellFormed(decode, run, node);
    DegradedExactlyByLoss(HistoryOf(decode, run, node), direction, bound, cap);
    LossIsInTheLines(HistoryOf(decode, run, node), direction, bound);
    SentIsTheLinesFed(decode, run, node, direction);
    SentIsTheLinesFed(decode, run, node, PeerSide(direction));
  }

  /** Once everything sent has arrived, both nodes are degraded or neither is, exactly by the lines on the wire. */
  lemma AtRestBothOrNeither(decode: Decoder, run: seq<Step>, direction: Side, bound: nat, cap: nat)
    requires Causal(run) && forall origin :: Fed(run, Win, origin) == Fed(run, Wsl, origin)
    requires HonestResponder(decode, run, direction) && FreshRequester(decode, run, direction)
    requires forall node :: ReadableAnswers(HistoryOf(decode, run, node), direction, bound)
    ensures DirectionAfter(HistoryOf(decode, run, Win), direction, bound, cap).lost.Some?
            <==> DirectionAfter(HistoryOf(decode, run, Wsl), direction, bound, cap).lost.Some?
  {
    assert ReadableAnswers(HistoryOf(decode, run, Win), direction, bound);
    assert ReadableAnswers(HistoryOf(decode, run, Wsl), direction, bound);
    assert Fed(run, Win, direction) == Fed(run, Wsl, direction);
    assert Fed(run, Win, PeerSide(direction)) == Fed(run, Wsl, PeerSide(direction));
    DegradedByTheWire(decode, run, Win, direction, bound, cap);
    DegradedByTheWire(decode, run, Wsl, direction, bound, cap);
  }

  // ---------------------------------------------------------------- runs that show the limits

  /** One whole line at a time. */
  datatype LineStep = LineStep(node: Side, origin: Side, line: Bytes)

  function WholeLines(steps: seq<LineStep>): (run: seq<Step>)
    ensures |run| == |steps|
  {
    if steps == [] then []
    else
      var last := steps[|steps| - 1];
      WholeLines(steps[..|steps| - 1]) + [Step(last.node, last.origin, last.line + [NEWLINE])]
  }

  function LineHistory(decode: Decoder, steps: seq<LineStep>, node: Side): seq<Event> {
    if steps == [] then []
    else
      var last := steps[|steps| - 1];
      LineHistory(decode, steps[..|steps| - 1], node)
      + if last.node == node then [Event(last.origin, Wire(decode, last.line))] else []
  }

  function LinesFrom(steps: seq<LineStep>, node: Side, origin: Side): seq<Bytes> {
    if steps == [] then []
    else
      var last := steps[|steps| - 1];
      LinesFrom(steps[..|steps| - 1], node, origin)
      + if last.node == node && last.origin == origin then [last.line] else []
  }

  ghost predicate CausalLines(steps: seq<LineStep>) {
    steps == []
    || (CausalLines(steps[..|steps| - 1])
        && LinesFrom(steps, Wsl, Win) <= LinesFrom(steps, Win, Win)
        && LinesFrom(steps, Win, Wsl) <= LinesFrom(steps, Wsl, Wsl))
  }

  lemma {:induction false} JoinOfPrefix(xs: seq<Bytes>, ys: seq<Bytes>)
    requires xs <= ys
    ensures Join(xs) <= Join(ys)
  {
    if xs != ys {
      JoinOfPrefix(xs, ys[..|ys| - 1]);
    }
  }

  lemma WholeLineChunk(decode: Decoder, origin: Side, line: Bytes)
    requires NoNewline(line)
    ensures EventsOf(decode, origin, Lines([] + (line + [NEWLINE]))) == [Event(origin, Wire(decode, line))]
  {
    AppendWithoutNewline([], line);
    AppendNewline(line);
    assert [] + line == line && [] + (line + [NEWLINE]) == line + [NEWLINE];
  }

  lemma {:induction false} WholeLineRun(decode: Decoder, steps: seq<LineStep>, node: Side)
    requires forall k :: 0 <= k < |steps| ==> NoNewline(steps[k].line)
    ensures HistoryOf(decode, WholeLines(steps), node) == LineHistory(decode, steps, node)
    ensures forall origin :: Fed(WholeLines(steps), node, origin) == Join(LinesFrom(steps, node, origin))
    ensures forall origin :: Tail(Fed(WholeLines(steps), node, origin)) == []
  {
    if steps != [] {
      var front, last := steps[..|steps| - 1], steps[|steps| - 1];
      WholeLineRun(decode, front, node);
      var earlier, run := WholeLines(front), WholeLines(steps);
      assert run[..|run| - 1] == earlier;
      WholeLineChunk(decode, last.origin, last.line);
      forall origin
        ensures Fed(run, node, origin) == Join(LinesFrom(steps, node, origin)) && Tail(Fed(run, node, origin)) == []
      {
        var fed, lines := Fed(earlier, node, origin), LinesFrom(front, node, origin);
        assert fed + [] == fed && lines + [] == lines;
        if last.node == node && last.origin == origin {
          JoinSnoc(lines, last.line);
          AppendNewline(fed + last.line);
          assert fed + (last.line + [NEWLINE]) == (fed + last.line) + [NEWLINE];
        }
      }
    }
  }

  lemma WholeLinesArriveInOrder(decode: Decoder, steps: seq<LineStep>, origin: Side)
    requires forall k :: 0 <= k < |steps| ==> NoNewline(steps[k].line)
    requires LinesFrom(steps, PeerSide(origin), origin) <= LinesFrom(steps, origin, origin)
    ensures Fed(WholeLines(steps), PeerSide(origin), origin) <= Fed(WholeLines(steps), origin, origin)
  {
    WholeLineRun(decode, steps, origin);
    WholeLineRun(decode, steps, PeerSide(origin));
    JoinOfPrefix(LinesFrom(steps, PeerSide(origin), origin), LinesFrom(steps, origin, origin));
  }

  lemma {:induction false} WholeLinesAreCausal(decode: Decoder, steps: seq<LineStep>)
    requires forall k :: 0 <= k < |steps| ==> NoNewline(steps[k].line)
    requires CausalLines(steps)
    ensures Causal(WholeLines(steps))
  {
    if steps != [] {
      var front := steps[..|steps| - 1];
      WholeLinesAreCausal(decode, front);
      assert WholeLines(steps)[..|steps| - 1] == WholeLines(front);
      WholeLinesArriveInOrder(decode, steps, Win);
      WholeLinesArriveInOrder(decode, steps, Wsl);
    }
  }
}
