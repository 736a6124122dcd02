/** Exactly when an observer degrades and what it names, for every history, with no assumption about the endpoints:
    reused ids, answers nobody asked for and lines too long to read included. */
module TwoNodeExactness {
  import opened Common
  import opened MessageClass
  import opened LineFraming
  import opened StreamCorrelation
  import opened CorrelatorSafety
  import opened TwoNodeRuns
  import opened TwoNodeAgreement
  import opened TwoNodeDegradation

  // ---------------------------------------------------------------- what a history says

  predicate AsksFor(e: Event, direction: Side, id: string, bound: nat) {
    e.origin == direction && e.line.size <= bound && IsRequest(e.line, id)
  }

  predicate AnswersFor(e: Event, direction: Side, id: string, bound: nat) {
    e.origin != direction && e.line.size <= bound && IsResponse(e.line, id)
  }

  /** The last line with this id that the observer could read was a request. */
  predicate Open(history: seq<Event>, direction: Side, id: string, bound: nat) {
    history != [] &&
    (var last := history[|history| - 1];
     AsksFor(last, direction, id, bound)
     || (!AnswersFor(last, direction, id, bound) && Open(history[..|history| - 1], direction, id, bound)))
  }

  function AskedId(e: Event, direction: Side, bound: nat): Option<string> {
    if e.origin == direction && e.line.size <= bound && e.line.content.Some? && e.line.content.value.kind == Request
    then e.line.content.value.canonicalId else None
  }

  /** The first ids, up to the capacity, that the observer read in requests. */
  function FirstIds(history: seq<Event>, direction: Side, bound: nat, cap: nat): set<string> {
    if history == [] then {}
    else
      var ids := FirstIds(history[..|history| - 1], direction, bound, cap);
      var asked := AskedId(history[|history| - 1], direction, bound);
      if asked.Some? && |ids| < cap then ids + {asked.value} else ids
  }

  /** A readable request reuses an id that is still open. */
  predicate Reuses(history: seq<Event>, k: nat, direction: Side, bound: nat, cap: nat)
    requires k < |history|
  {
    var asked := AskedId(history[k], direction, bound);
    asked.Some? && asked.value in FirstIds(history[..k], direction, bound, cap) && Open(history[..k], direction, asked.value, bound)
  }

  ghost predicate ReuseSeen(history: seq<Event>, direction: Side, bound: nat, cap: nat) {
    exists k: nat :: k < |history| && Reuses(history, k, direction, bound, cap)
  }

  // ---------------------------------------------------------------- the observer follows it

  /** Until it degrades the observer tracks these ids, and knows which are open. */
  ghost predicate Follows(history: seq<Event>, direction: Side, d: Direction, bound: nat, cap: nat) {
    d.lost.None? ==>
      && d.occurrences.Keys == FirstIds(history, direction, bound, cap)
      && forall id | id in d.occurrences :: Outstanding(d, id) <==> Open(history, direction, id, bound)
  }

  lemma OpenSnoc(history: seq<Event>, e: Event, direction: Side, id: string, bound: nat)
    ensures Open(history + [e], direction, id, bound)
            <==> AsksFor(e, direction, id, bound) || (!AnswersFor(e, direction, id, bound) && Open(history, direction, id, bound))
  {
    assert (history + [e])[..|history|] == history;
  }

  lemma FirstIdsSnoc(history: seq<Event>, e: Event, direction: Side, bound: nat, cap: nat)
    ensures var ids, asked := FirstIds(history, direction, bound, cap), AskedId(e, direction, bound);
            FirstIds(history + [e], direction, bound, cap) == if asked.Some? && |ids| < cap then ids + {asked.value} else ids
  {
    assert (history + [e])[..|history|] == history;
  }

  /** A step loses certainty exactly by a lossy line or a reused id. */
  lemma StepLoses(history: seq<Event>, e: Event, direction: Side, d: Direction, bound: nat, cap: nat)
    requires e.line.content.Some? ==> WellClassified(e.line.content.value)
    requires Bounded(d, cap) && Follows(history, direction, d, bound, cap) && d.lost.None?
    ensures var asked := AskedId(e, direction, bound);
            DirectionStep(d, direction, e, bound, cap).lost.Some?
            <==> Lossy(e, direction, bound)
                 || (asked.Some? && asked.value in FirstIds(history, direction, bound, cap) && Open(history, direction, asked.value, bound))
  {
  }

  lemma AskingFollows(history: seq<Event>, e: Event, direction: Side, d: Direction, id: string, bound: nat, cap: nat)
    requires Bounded(d, cap) && Follows(history, direction, d, bound, cap) && d.lost.None?
    requires AskedId(e, direction, bound) == Some(id) && AcceptRequest(d, id, cap).lost.None?
    ensures Follows(history + [e], direction, AcceptRequest(d, id, cap), bound, cap)
  {
    var d' := AcceptRequest(d, id, cap);
    FirstIdsSnoc(history, e, direction, bound, cap);
    assert |d.occurrences| == |d.occurrences.Keys|;
    forall other | other in d'.occurrences
      ensures Outstanding(d', other) <==> Open(history + [e], direction, other, bound)
    {
      OpenSnoc(history, e, direction, other, bound);
    }
  }

  lemma AnsweringCloses(d: Direction, direction: Side, e: Event, id: string, bound: nat, cap: nat)
    requires e.line.content.Some? ==> WellClassified(e.line.content.value)
    requires Bounded(d, cap) && d.lost.None? && AskedId(e, direction, bound).None?
    requires DirectionStep(d, direction, e, bound, cap).lost.None?
    ensures var d' := DirectionStep(d, direction, e, bound, cap);
            && d'.occurrences == d.occurrences && !AsksFor(e, direction, id, bound)
            && (Outstanding(d', id) <==> Outstanding(d, id) && !AnswersFor(e, direction, id, bound))
  {
  }

  lemma AnsweringFollows(history: seq<Event>, e: Event, direction: Side, d: Direction, bound: nat, cap: nat)
    requires e.line.content.Some? ==> WellClassified(e.line.content.value)
    requires Bounded(d, cap) && Follows(history, direction, d, bound, cap) && d.lost.None?
    requires AskedId(e, direction, bound).None? && DirectionStep(d, direction, e, bound, cap).lost.None?
    ensures Follows(history + [e], direction, DirectionStep(d, direction, e, bound, cap), bound, cap)
  {
    var d' := DirectionStep(d, direction, e, bound, cap);
    FirstIdsSnoc(history, e, direction, bound, cap);
    AnsweringCloses(d, direction, e, "", bound, cap);
    forall other | other in d'.occurrences
      ensures Outstanding(d', other) <==> Open(history + [e], direction, other, bound)
    {
      OpenSnoc(history, e, direction, other, bound);
      AnsweringCloses(d, direction, e, other, bound, cap);
    }
  }

  lemma StepFollows(history: seq<Event>, e: Event, direction: Side, d: Direction, bound: nat, cap: nat)
    requires e.line.content.Some? ==> WellClassified(e.line.content.value)
    requires Bounded(d, cap) && Follows(history, direction, d, bound, cap)
    ensures Follows(history + [e], direction, DirectionStep(d, direction, e, bound, cap), bound, cap)
  {
    var d', asked := DirectionStep(d, direction, e, bound, cap), AskedId(e, direction, bound);
    if d'.lost.None? {
      if asked.Some? {
        AskingFollows(history, e, direction, d, asked.value, bound, cap);
      } else {
        AnsweringFollows(history, e, direction, d, bound, cap);
      }
    }
  }

  lemma {:induction false} ObserverFollows(history: seq<Event>, direction: Side, bound: nat, cap: nat)
    requires WellFormed(history)
    ensures Follows(history, direction, DirectionAfter(history, direction, bound, cap), bound, cap)
  {
    if history != [] {
      var front, last := history[..|history| - 1], history[|history| - 1];
      ObserverFollows(front, direction, bound, cap);
      DirectionInvariant(front, direction, bound, cap);
      StepFollows(front, last, direction, DirectionAfter(front, direction, bound, cap), bound, cap);
      assert front + [last] == history;
    }
  }

  lemma ReusesInPrefix(history: seq<Event>, n: nat, k: nat, direction: Side, bound: nat, cap: nat)
    requires k < n <= |history|
    ensures Reuses(history[..n], k, direction, bound, cap) <==> Reuses(history, k, direction, bound, cap)
  {
    assert history[..n][..k] == history[..k];
  }

  lemma SeenSnoc(history: seq<Event>, direction: Side, bound: nat, cap: nat)
    requires history != []
    ensures var n := |history| - 1;
            && (LossSeen(history, direction, bound) <==> LossSeen(history[..n], direction, bound) || Lossy(history[n], direction, bound))
            && (ReuseSeen(history, direction, bound, cap)
                <==> ReuseSeen(history[..n], direction, bound, cap) || Reuses(history, n, direction, bound, cap))
  {
    var n, front := |history| - 1, history[..|history| - 1];
    forall k: nat | k < n
      ensures Reuses(front, k, direction, bound, cap) <==> Reuses(history, k, direction, bound, cap)
      ensures front[k] == history[k]
    {
      ReusesInPrefix(history, n, k, direction, bound, cap);
    }
    if k: nat :| k < n && Reuses(front, k, direction, bound, cap) {
      assert Reuses(history, k, direction, bound, cap);
    }
    if k :| 0 <= k < n && Lossy(front[k], direction, bound) {
      assert Lossy(history[k], direction, bound);
    }
  }

  // ---------------------------------------------------------------- the theorems

  /** Over every history, an observer has degraded a direction if and only if it met a lossy line or a request that
      reuses an open id. */
  lemma {:induction false} DegradedExactly(history: seq<Event>, direction: Side, bound: nat, cap: nat)
    requires WellFormed(history)
    ensures DirectionAfter(history, direction, bound, cap).lost.Some?
            <==> LossSeen(history, direction, bound) || ReuseSeen(history, direction, bound, cap)
  {
    if history != [] {
      var front, last := history[..|history| - 1], history[|history| - 1];
      DegradedExactly(front, direction, bound, cap);
      SeenSnoc(history, direction, bound, cap);
      DirectionInvariant(front, direction, bound, cap);
      var d := DirectionAfter(front, direction, bound, cap);
      if d.lost.Some? {
        StepKeeps(d, direction, last, bound, cap);
      } else {
        ObserverFollows(front, direction, bound, cap);
        StepLoses(front, last, direction, d, bound, cap);
      }
    }
  }

  /** What a call needs to be named: it is readable, nothing was lost before it, its id is tracked, and it opens the id
      if it is a request and finds it open if it is a response. */
  ghost predicate Nameable(history: seq<Event>, p: nat, bound: nat, cap: nat)
    requires p < |history| && IsCall(history[p]) && WellFormed(history)
  {
    var e, direction := history[p], DirectionOf(history[p]);
    assert WellClassified(e.line.content.value);
    var id := e.line.content.value.canonicalId.value;
    && e.line.size <= bound
    && !LossSeen(history[..p], direction, bound) && !ReuseSeen(history[..p], direction, bound, cap)
    && if e.line.content.value.kind == Request then
         id in FirstIds(history[..p + 1], direction, bound, cap)
         && !(id in FirstIds(history[..p], direction, bound, cap) && Open(history[..p], direction, id, bound))
       else id in FirstIds(history[..p], direction, bound, cap) && Open(history[..p], direction, id, bound)
  }

  /** A readable request is given an occurrence exactly when nothing was lost and it opens a tracked id. */
  lemma RequestIsNumbered(before: seq<Event>, e: Event, id: string, bound: nat, cap: nat)
    requires WellFormed(before) && IsRequest(e.line, id) && e.line.size <= bound
    ensures OccurrenceOfRequest(before, e, bound, cap).Some?
            <==> && DirectionAfter(before, e.origin, bound, cap).lost.None?
                 && id in FirstIds(before + [e], e.origin, bound, cap)
                 && !(id in FirstIds(before, e.origin, bound, cap) && Open(before, e.origin, id, bound))
  {
    var d := DirectionAfter(before, e.origin, bound, cap);
    DirectionInvariant(before, e.origin, bound, cap);
    ObserverFollows(before, e.origin, bound, cap);
    FirstIdsSnoc(before, e, e.origin, bound, cap);
    assert |d.occurrences| == |d.occurrences.Keys|;
  }

  lemma NameableRequest(history: seq<Event>, p: nat, bound: nat, cap: nat)
    requires p < |history| && IsCall(history[p]) && WellFormed(history) && history[p].line.content.value.kind == Request
    ensures OccurrenceOfRequest(history[..p], history[p], bound, cap).Some? <==> Nameable(history, p, bound, cap)
    ensures OccurrenceOfResponse(history[..p], history[p], bound, cap).None?
  {
    var e, before := history[p], history[..p];
    assert WellFormed(before) && WellClassified(e.line.content.value);
    DegradedExactly(before, e.origin, bound, cap);
    if e.line.size <= bound {
      RequestIsNumbered(before, e, e.line.content.value.canonicalId.value, bound, cap);
      assert history[..p + 1] == before + [e];
    }
  }

  lemma NameableResponse(history: seq<Event>, p: nat, bound: nat, cap: nat)
    requires p < |history| && IsCall(history[p]) && WellFormed(history) && history[p].line.content.value.kind == Response
    ensures OccurrenceOfResponse(history[..p], history[p], bound, cap).Some? <==> Nameable(history, p, bound, cap)
    ensures OccurrenceOfRequest(history[..p], history[p], bound, cap).None?
  {
    var e, before, direction := history[p], history[..p], PeerSide(history[p].origin);
    assert WellFormed(before) && WellClassified(e.line.content.value);
    DirectionInvariant(before, direction, bound, cap);
    ObserverFollows(before, direction, bound, cap);
    DegradedExactly(before, direction, bound, cap);
  }

  /** Over every history, a call gets an alias if and only if it can be named. */
  lemma AliasedExactly(history: seq<Event>, p: nat, node: Side, streamId: string, bound: nat, cap: nat)
    requires WellFormed(history) && p < |history| && IsCall(history[p])
    ensures AliasOf(history[..p], history[p], node, streamId, bound, cap).Some? <==> Nameable(history, p, bound, cap)
  {
    AliasNamesTheOccurrence(history[..p], history[p], node, streamId, bound, cap);
    if history[p].line.content.value.kind == Request {
      NameableRequest(history, p, bound, cap);
    } else {
      NameableResponse(history, p, bound, cap);
    }
  }

  /** So two nodes, of whatever bounds and capacities, treat a call alike if and only if both or neither can name it. */
  lemma TreatedAlikeExactly(first: seq<Event>, p: nat, bound1: nat, cap1: nat, second: seq<Event>, q: nat, bound2: nat, cap2: nat,
                            streamId: string)
    requires WellFormed(first) && WellFormed(second)
    requires p < |first| && q < |second| && first[p] == second[q] && IsCall(first[p])
    ensures (AliasOf(first[..p], first[p], Win, streamId, bound1, cap1).Some?
             <==> AliasOf(second[..q], second[q], Wsl, streamId, bound2, cap2).Some?)
            <==> (Nameable(first, p, bound1, cap1) <==> Nameable(second, q, bound2, cap2))
  {
    AliasedExactly(first, p, Win, streamId, bound1, cap1);
    AliasedExactly(second, q, Wsl, streamId, bound2, cap2);
  }

  /** And when both name a response they give it the same alias if and only if both have seen the same number of requests
      with its id. */
  lemma PairedAlikeExactly(first: seq<Event>, p: nat, bound1: nat, cap1: nat, second: seq<Event>, q: nat, bound2: nat, cap2: nat,
                           id: string, streamId: string)
    requires WellFormed(first) && WellFormed(second)
    requires p < |first| && q < |second| && first[p] == second[q] && IsResponse(first[p].line, id)
    requires AliasOf(first[..p], first[p], Win, streamId, bound1, cap1).Some?
    requires AliasOf(second[..q], second[q], Wsl, streamId, bound2, cap2).Some?
    ensures AliasOf(first[..p], first[p], Win, streamId, bound1, cap1) == AliasOf(second[..q], second[q], Wsl, streamId, bound2, cap2)
            <==> Requests(first[..p], PeerSide(first[p].origin), id) == Requests(second[..q], PeerSide(first[p].origin), id)
  {
    var e := first[p];
    AliasNamesTheOccurrence(first[..p], e, Win, streamId, bound1, cap1);
    AliasNamesTheOccurrence(second[..q], e, Wsl, streamId, bound2, cap2);
    PairedOrdinal(first, p, id, bound1, cap1);
    PairedOrdinal(second, q, id, bound2, cap2);
  }

  lemma PairedOrdinal(history: seq<Event>, p: nat, id: string, bound: nat, cap: nat)
    requires WellFormed(history) && p < |history| && IsResponse(history[p].line, id)
    ensures OccurrenceOfRequest(history[..p], history[p], bound, cap).None?
    ensures var paired := OccurrenceOfResponse(history[..p], history[p], bound, cap);
            paired.Some? ==> paired.value == Requests(history[..p], PeerSide(history[p].origin), id)
  {
    assert history[..p] + [history[p]] == history[..p + 1];
    assert WellFormed(history[..p + 1]);
    NoFalsePairing(history[..p], history[p], bound, cap);
  }

  /** With orderly endpoints nothing open is reused before something is lost, so that a lossy line alone decides. */
  lemma OrderlyEndpointsReuseNothing(history: seq<Event>, direction: Side, bound: nat, cap: nat)
    requires WellFormed(history) && Solicited(history, direction) && NoReuse(history, direction)
    requires ReadableAnswers(history, direction, bound)
    ensures ReuseSeen(history, direction, bound, cap) ==> LossSeen(history, direction, bound)
  {
    DegradedExactly(history, direction, bound, cap);
    DegradedExactlyByLoss(history, direction, bound, cap);
  }

  // ---------------------------------------------------------------- at rest

  lemma LossIsOnTheWire(decode: Decoder, run: seq<Step>, node: Side, direction: Side, bound: nat)
    ensures LossSeen(HistoryOf(decode, run, node), direction, bound)
            <==> LossyAmong(Wires(decode, Lines(Fed(run, node, direction))), direction, direction, bound)
                 || LossyAmong(Wires(decode, Lines(Fed(run, node, PeerSide(direction)))), PeerSide(direction), direction, bound)
  {
    LossIsInTheLines(HistoryOf(decode, run, node), direction, bound);
    SentIsTheLinesFed(decode, run, node, direction);
    SentIsTheLinesFed(decode, run, node, PeerSide(direction));
  }

  /** Once everything sent has arrived, both nodes are degraded or neither is if and only if there was a lossy line, or
      both or neither saw an open id reused: whatever else differs between them comes from a reuse in flight. */
  lemma AtRestAlikeExactly(decode: Decoder, run: seq<Step>, direction: Side, bound: nat, cap: nat)
    requires forall origin :: Fed(run, Win, origin) == Fed(run, Wsl, origin)
    ensures var win, wsl := HistoryOf(decode, run, Win), HistoryOf(decode, run, Wsl);
            && (LossSeen(win, direction, bound) <==> LossSeen(wsl, direction, bound))
            && ((DirectionAfter(win, direction, bound, cap).lost.Some? <==> DirectionAfter(wsl, direction, bound, cap).lost.Some?)
                <==> LossSeen(win, direction, bound)
                     || (ReuseSeen(win, direction, bound, cap) <==> ReuseSeen(wsl, direction, bound, cap)))
  {
    assert Fed(run, Win, direction) == Fed(run, Wsl, direction);
    assert Fed(run, Win, PeerSide(direction)) == Fed(run, Wsl, PeerSide(direction));
    LossIsOnTheWire(decode, run, Win, direction, bound);
    LossIsOnTheWire(decode, run, Wsl, direction, bound);
    HistoryIsWellFormed(decode, run, Win);
    HistoryIsWellFormed(decode, run, Wsl);
    DegradedExactly(HistoryOf(decode, run, Win), direction, bound, cap);
    DegradedExactly(HistoryOf(decode, run, Wsl), direction, bound, cap);
  }
}
