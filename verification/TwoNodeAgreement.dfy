/** What two observers of one stream agree on, for every chunking and every causal interleaving. */
module TwoNodeAgreement {
  import opened Common
  import opened MessageClass
  import opened LineFraming
  import opened StreamCorrelation
  import opened CorrelatorSafety
  import opened TwoNodeRuns

  /** Every response to `direction` answers a request seen before it and not yet answered. */
  ghost predicate Solicited(history: seq<Event>, direction: Side) {
    forall k, id :: 0 <= k < |history| && history[k].origin != direction && IsResponse(history[k].line, id) ==>
      Requests(history[..k], direction, id) > Responses(history[..k], direction, id)
  }

  /** No request of `direction` reuses an id whose previous request is still unanswered. */
  ghost predicate NoReuse(history: seq<Event>, direction: Side) {
    forall k, id :: 0 <= k < |history| && history[k].origin == direction && IsRequest(history[k].line, id) ==>
      Requests(history[..k], direction, id) <= Responses(history[..k], direction, id)
  }

  /** The side that answers `direction` is honest, judged where it sends. */
  ghost predicate HonestResponder(decode: Decoder, run: seq<Step>, direction: Side) {
    Solicited(HistoryOf(decode, run, PeerSide(direction)), direction)
  }

  /** The side that asks in `direction` never reuses an outstanding id, judged where it sends. */
  ghost predicate FreshRequester(decode: Decoder, run: seq<Step>, direction: Side) {
    NoReuse(HistoryOf(decode, run, direction), direction)
  }

  // ---------------------------------------------------------------- what travels with the bytes

  lemma CountsAt(history: seq<Event>, k: nat, direction: Side, id: string)
    requires k <= |history|
    ensures Requests(history[..k], direction, id) == RequestsIn(Sent(history[..k], direction), id)
    ensures Responses(history[..k], direction, id) == ResponsesIn(Sent(history[..k], PeerSide(direction)), id)
  {
    CountsDependOnSent(history[..k], direction, id);
  }

  /** Honest where the responses are sent means honest where they arrive. */
  lemma SolicitedTravels(decode: Decoder, run: seq<Step>, direction: Side)
    requires Causal(run) && HonestResponder(decode, run, direction)
    ensures Solicited(HistoryOf(decode, run, direction), direction)
  {
    var origin := PeerSide(direction);
    var sender, receiver := HistoryOf(decode, run, origin), HistoryOf(decode, run, direction);
    forall q, id | 0 <= q < |receiver| && receiver[q].origin != direction && IsResponse(receiver[q].line, id)
      ensures Requests(receiver[..q], direction, id) > Responses(receiver[..q], direction, id)
    {
      var p := Precedence(decode, run, origin, q);
      CountsAt(sender, p, direction, id);
      CountsAt(receiver, q, direction, id);
      CountsGrow(Sent(sender[..p], direction), Sent(receiver[..q], direction), id);
    }
  }

  /** No reuse where the requests are sent means no reuse where they arrive. */
  lemma NoReuseTravels(decode: Decoder, run: seq<Step>, direction: Side)
    requires Causal(run) && FreshRequester(decode, run, direction)
    ensures NoReuse(HistoryOf(decode, run, PeerSide(direction)), direction)
  {
    var sender, receiver := HistoryOf(decode, run, direction), HistoryOf(decode, run, PeerSide(direction));
    forall q, id | 0 <= q < |receiver| && receiver[q].origin == direction && IsRequest(receiver[q].line, id)
      ensures Requests(receiver[..q], direction, id) <= Responses(receiver[..q], direction, id)
    {
      var p := Precedence(decode, run, direction, q);
      CountsAt(sender, p, direction, id);
      CountsAt(receiver, q, direction, id);
      CountsGrow(Sent(sender[..p], PeerSide(direction)), Sent(receiver[..q], PeerSide(direction)), id);
    }
  }

  // ---------------------------------------------------------------- answers come in order

  ghost predicate InOrder(history: seq<Event>, direction: Side, d: Direction) {
    d.lost.None? ==>
      forall id :: id in d.occurrences ==>
        var asked, answered := Requests(history, direction, id), Responses(history, direction, id);
        answered <= asked <= answered + 1 && (!Outstanding(d, id) ==> answered == asked)
  }

  lemma StepStaysInOrder(history: seq<Event>, e: Event, direction: Side, d: Direction, bound: nat, cap: nat)
    requires e.line.content.Some? ==> WellClassified(e.line.content.value)
    requires Bounded(d, cap) && Exact(history, direction, d) && InOrder(history, direction, d)
    requires e.origin != direction ==>
               forall id :: IsResponse(e.line, id) ==> Requests(history, direction, id) > Responses(history, direction, id)
    requires forall id :: id !in d.occurrences ==> Responses(history, direction, id) <= Requests(history, direction, id)
    ensures InOrder(history + [e], direction, DirectionStep(d, direction, e, bound, cap))
  {
    var d' := DirectionStep(d, direction, e, bound, cap);
    if d'.lost.None? {
      forall id | id in d'.occurrences
        ensures var asked, answered := Requests(history + [e], direction, id), Responses(history + [e], direction, id);
                answered <= asked <= answered + 1 && (!Outstanding(d', id) ==> answered == asked)
      {
        RequestsSnoc(history, e, direction, id);
      }
    }
  }

  lemma {:induction false} AnswersNeverLead(history: seq<Event>, direction: Side, id: string)
    requires Solicited(history, direction)
    ensures Responses(history, direction, id) <= Requests(history, direction, id)
  {
    if history != [] {
      var front, last := history[..|history| - 1], history[|history| - 1];
      SolicitedFront(history, direction);
      AnswersNeverLead(front, direction, id);
    }
  }

  lemma SolicitedFront(history: seq<Event>, direction: Side)
    requires history != []
    ensures Solicited(history, direction) ==> Solicited(history[..|history| - 1], direction)
    ensures NoReuse(history, direction) ==> NoReuse(history[..|history| - 1], direction)
  {
    var front := history[..|history| - 1];
    assert forall k :: 0 <= k < |front| ==> front[..k] == history[..k];
  }

  lemma {:induction false} AnswersInOrder(history: seq<Event>, direction: Side, bound: nat, cap: nat)
    requires WellFormed(history) && Solicited(history, direction)
    ensures InOrder(history, direction, DirectionAfter(history, direction, bound, cap))
  {
    if history != [] {
      var front, last := history[..|history| - 1], history[|history| - 1];
      SolicitedFront(history, direction);
      AnswersInOrder(front, direction, bound, cap);
      DirectionInvariant(front, direction, bound, cap);
      forall id ensures Responses(front, direction, id) <= Requests(front, direction, id) {
        AnswersNeverLead(front, direction, id);
      }
      StepStaysInOrder(front, last, direction, DirectionAfter(front, direction, bound, cap), bound, cap);
      assert front + [last] == history;
    }
  }

  /** With an honest responder a paired response's occurrence is its own ordinal among the responses with
      its id, whatever the observer's bound, capacity and interleaving. */
  lemma PairingIsTheResponseOrdinal(history: seq<Event>, n: nat, id: string, bound: nat, cap: nat)
    requires WellFormed(history) && n < |history| && IsResponse(history[n].line, id)
    requires Solicited(history, PeerSide(history[n].origin))
    ensures var paired := OccurrenceOfResponse(history[..n], history[n], bound, cap);
            paired.Some? ==> paired.value == Responses(history[..n], PeerSide(history[n].origin), id) + 1
  {
    var direction := PeerSide(history[n].origin);
    var before := history[..n];
    assert WellFormed(before);
    assert Solicited(before, direction) by {
      assert forall k :: 0 <= k < n ==> before[..k] == history[..k];
    }
    DirectionInvariant(before, direction, bound, cap);
    AnswersInOrder(before, direction, bound, cap);
  }

  // ---------------------------------------------------------------- agreement

  /** The same wire line in two histories: same origin, same number of lines from that origin before it. */
  ghost predicate SameLine(first: seq<Event>, p: nat, second: seq<Event>, q: nat)
    requires p < |first| && q < |second|
  {
    && first[p].origin == second[q].origin
    && |Sent(first[..p], first[p].origin)| == |Sent(second[..q], second[q].origin)|
  }

  lemma FedComparable(run: seq<Step>, one: Side, two: Side, origin: Side)
    requires Causal(run)
    ensures Fed(run, one, origin) <= Fed(run, two, origin) || Fed(run, two, origin) <= Fed(run, one, origin)
  {
    assert one == two || (one == origin && two == PeerSide(origin)) || (one == PeerSide(origin) && two == origin);
  }

  lemma SameLineSameBytes(decode: Decoder, run: seq<Step>, one: Side, p: nat, two: Side, q: nat)
    requires Causal(run)
    requires p < |HistoryOf(decode, run, one)| && q < |HistoryOf(decode, run, two)|
    requires SameLine(HistoryOf(decode, run, one), p, HistoryOf(decode, run, two), q)
    ensures var first, second := HistoryOf(decode, run, one), HistoryOf(decode, run, two);
            first[p] == second[q] && Sent(first[..p], first[p].origin) == Sent(second[..q], first[p].origin)
  {
    var first, second := HistoryOf(decode, run, one), HistoryOf(decode, run, two);
    var origin := first[p].origin;
    SentIsTheLinesFed(decode, run, one, origin);
    SentIsTheLinesFed(decode, run, two, origin);
    SentOfPrefix(first, p, origin);
    SentOfPrefix(second, q, origin);
    FedComparable(run, one, two, origin);
    if Fed(run, one, origin) <= Fed(run, two, origin) {
      WiresOfPrefix(decode, Fed(run, one, origin), Fed(run, two, origin));
    } else {
      WiresOfPrefix(decode, Fed(run, two, origin), Fed(run, one, origin));
    }
  }

  /** Two nodes never give one wire line two different aliases: not for any chunking, any causal interleaving,
      any line bounds and any capacities, as long as responders are honest. */
  lemma NeverTwoAliases(decode: Decoder, run: seq<Step>, one: Side, p: nat, two: Side, q: nat, streamId: string,
                        bound1: nat, cap1: nat, bound2: nat, cap2: nat)
    requires Causal(run) && forall direction :: HonestResponder(decode, run, direction)
    requires p < |HistoryOf(decode, run, one)| && q < |HistoryOf(decode, run, two)|
    requires SameLine(HistoryOf(decode, run, one), p, HistoryOf(decode, run, two), q)
    ensures var first, second := HistoryOf(decode, run, one), HistoryOf(decode, run, two);
            var a := AliasOf(first[..p], first[p], one, streamId, bound1, cap1);
            var b := AliasOf(second[..q], second[q], two, streamId, bound2, cap2);
            a.Some? && b.Some? ==> a == b
  {
    var first, second := HistoryOf(decode, run, one), HistoryOf(decode, run, two);
    SameLineSameBytes(decode, run, one, p, two, q);
    var e := first[p];
    AliasIsFixedByTheLine(decode, run, one, p, streamId, bound1, cap1);
    AliasIsFixedByTheLine(decode, run, two, q, streamId, bound2, cap2);
  }

  /** The only alias a line can get, read off the lines of its own origin. */
  function AliasOnTheWire(earlier: seq<WireLine>, origin: Side, line: WireLine, streamId: string): Option<Alias> {
    if line.content.None? || line.content.value.canonicalId.None? then None
    else
      var id := line.content.value.canonicalId.value;
      match line.content.value.kind
      case Request => Some(Alias(streamId, origin, id, RequestsIn(earlier, id) + 1))
      case Response => Some(Alias(streamId, PeerSide(origin), id, ResponsesIn(earlier, id) + 1))
      case _ => None
  }

  lemma RequestAliasIsFixed(history: seq<Event>, p: nat, bound: nat, cap: nat)
    requires p < |history| && WellFormed(history)
    ensures var given := OccurrenceOfRequest(history[..p], history[p], bound, cap);
            given.Some? ==> exists id :: IsRequest(history[p].line, id)
                                         && given.value == RequestsIn(Sent(history[..p], history[p].origin), id) + 1
  {
    var before, e := history[..p], history[p];
    assert before + [e] == history[..p + 1];
    NoFalsePairing(before, e, bound, cap);
    var given := OccurrenceOfRequest(before, e, bound, cap);
    if given.Some? {
      var id :| IsRequest(e.line, id) && given.value == Requests(before, e.origin, id) + 1;
      CountsDependOnSent(before, e.origin, id);
    }
  }

  lemma ResponseAliasIsFixed(history: seq<Event>, p: nat, bound: nat, cap: nat)
    requires p < |history| && WellFormed(history) && Solicited(history, PeerSide(history[p].origin))
    ensures var paired := OccurrenceOfResponse(history[..p], history[p], bound, cap);
            paired.Some? ==> exists id :: IsResponse(history[p].line, id)
                                          && paired.value == ResponsesIn(Sent(history[..p], history[p].origin), id) + 1
  {
    var before, e := history[..p], history[p];
    if OccurrenceOfResponse(before, e, bound, cap).Some? {
      var id := e.line.content.value.canonicalId.value;
      assert IsResponse(e.line, id);
      PairingIsTheResponseOrdinal(history, p, id, bound, cap);
      CountsDependOnSent(before, PeerSide(e.origin), id);
    }
  }

  /** Whatever alias a node gives a line is the one on the wire. */
  lemma AliasIsFixedByTheLine(decode: Decoder, run: seq<Step>, node: Side, p: nat, streamId: string, bound: nat, cap: nat)
    requires Causal(run) && forall direction :: HonestResponder(decode, run, direction)
    requires p < |HistoryOf(decode, run, node)|
    ensures var history := HistoryOf(decode, run, node);
            var a := AliasOf(history[..p], history[p], node, streamId, bound, cap);
            a.Some? ==> a == AliasOnTheWire(Sent(history[..p], history[p].origin), history[p].origin, history[p].line, streamId)
  {
    var history := HistoryOf(decode, run, node);
    var direction := PeerSide(history[p].origin);
    HistoryIsWellFormed(decode, run, node);
    assert HonestResponder(decode, run, direction);
    if node == direction {
      SolicitedTravels(decode, run, direction);
    }
    RequestAliasIsFixed(history, p, bound, cap);
    ResponseAliasIsFixed(history, p, bound, cap);
    AliasFromOrdinals(history[..p], history[p], Sent(history[..p], history[p].origin), node, streamId, bound, cap);
  }

  lemma AliasFromOrdinals(before: seq<Event>, e: Event, earlier: seq<WireLine>, node: Side, streamId: string, bound: nat, cap: nat)
    requires var given := OccurrenceOfRequest(before, e, bound, cap);
             given.Some? ==> exists id :: IsRequest(e.line, id) && given.value == RequestsIn(earlier, id) + 1
    requires var paired := OccurrenceOfResponse(before, e, bound, cap);
             paired.Some? ==> exists id :: IsResponse(e.line, id) && paired.value == ResponsesIn(earlier, id) + 1
    ensures var a := AliasOf(before, e, node, streamId, bound, cap);
            a.Some? ==> a == AliasOnTheWire(earlier, e.origin, e.line, streamId)
  {
    AliasNamesTheOccurrence(before, e, node, streamId, bound, cap);
  }

  // ---------------------------------------------------------------- completeness

  /** Nothing the observer sees costs it certainty about `direction`, and no answer is hidden by the bound. */
  ghost predicate Lossless(history: seq<Event>, direction: Side, bound: nat) {
    forall k :: 0 <= k < |history| ==>
      !Lossy(history[k], direction, bound) && (history[k].origin != direction ==> history[k].line.size <= bound)
  }

  function IdsAsked(history: seq<Event>, direction: Side): set<string> {
    if history == [] then {}
    else
      var last := history[|history| - 1];
      IdsAsked(history[..|history| - 1], direction)
      + if last.origin == direction && last.line.content.Some? && last.line.content.value.kind == Request
           && last.line.content.value.canonicalId.Some?
        then {last.line.content.value.canonicalId.value} else {}
  }

  ghost predicate Attentive(history: seq<Event>, direction: Side, d: Direction, cap: nat) {
    && d.lost.None?
    && (forall id :: Outstanding(d, id) ==> Requests(history, direction, id) == Responses(history, direction, id) + 1)
    && (|IdsAsked(history, direction)| <= cap ==>
          && !d.degradedCapacity && d.occurrences.Keys == IdsAsked(history, direction)
          && forall id :: Requests(history, direction, id) == Responses(history, direction, id) + 1 ==> Outstanding(d, id))
  }

  lemma {:induction false} LosslessIsAttentive(history: seq<Event>, direction: Side, bound: nat, cap: nat)
    requires WellFormed(history) && Solicited(history, direction) && NoReuse(history, direction)
    requires Lossless(history, direction, bound)
    ensures Attentive(history, direction, DirectionAfter(history, direction, bound, cap), cap)
  {
    if history != [] {
      var front, last := history[..|history| - 1], history[|history| - 1];
      SolicitedFront(history, direction);
      LosslessIsAttentive(front, direction, bound, cap);
      assert front + [last] == history;
      LosslessStep(front, last, direction, bound, cap);
    }
  }

  lemma LosslessStep(front: seq<Event>, last: Event, direction: Side, bound: nat, cap: nat)
    requires WellFormed(front + [last]) && Solicited(front + [last], direction) && NoReuse(front + [last], direction)
    requires Lossless(front + [last], direction, bound)
    requires Attentive(front, direction, DirectionAfter(front, direction, bound, cap), cap)
    ensures Attentive(front + [last], direction, DirectionAfter(front + [last], direction, bound, cap), cap)
  {
    var history := front + [last];
    assert history[..|front|] == front && history[|front|] == last;
    PrefixKeeps(history, |front|, direction, bound);
    DirectionInvariant(front, direction, bound, cap);
    forall id ensures AtMostOneOpen(front, direction, id) {
      AtMostOneIsOpen(front, direction, id);
    }
    CallsAreInTurn(front, last, direction);
    StepStaysAttentive(front, last, direction, DirectionAfter(front, direction, bound, cap), bound, cap);
  }

  /** The next event neither reuses an open id nor answers a closed one. */
  ghost predicate InTurn(history: seq<Event>, e: Event, direction: Side) {
    && (forall id :: e.origin == direction && IsRequest(e.line, id) ==>
          Requests(history, direction, id) == Responses(history, direction, id))
    && (forall id :: e.origin != direction && IsResponse(e.line, id) ==>
          Requests(history, direction, id) == Responses(history, direction, id) + 1)
  }

  lemma CallsAreInTurn(front: seq<Event>, last: Event, direction: Side)
    requires Solicited(front + [last], direction) && NoReuse(front + [last], direction)
    requires forall id :: AtMostOneOpen(front, direction, id)
    ensures InTurn(front, last, direction)
  {
    var history := front + [last];
    assert history[..|front|] == front && history[|front|] == last;
    forall id
      ensures last.origin == direction && IsRequest(last.line, id) ==>
                Requests(front, direction, id) == Responses(front, direction, id)
      ensures last.origin != direction && IsResponse(last.line, id) ==>
                Requests(front, direction, id) == Responses(front, direction, id) + 1
    {
      assert AtMostOneOpen(front, direction, id);
    }
  }

  lemma StepStaysAttentive(history: seq<Event>, e: Event, direction: Side, d: Direction, bound: nat, cap: nat)
    requires e.line.content.Some? ==> WellClassified(e.line.content.value)
    requires Bounded(d, cap) && Attentive(history, direction, d, cap) && InTurn(history, e, direction)
    requires !Lossy(e, direction, bound) && (e.origin != direction ==> e.line.size <= bound)
    ensures Attentive(history + [e], direction, DirectionStep(d, direction, e, bound, cap), cap)
  {
    if e.origin == direction && e.line.content.Some? && e.line.content.value.kind == Request {
      var id := e.line.content.value.canonicalId.value;
      assert IsRequest(e.line, id);
      RequestStepStaysAttentive(history, e, id, d, bound, cap);
    } else if e.origin != direction && e.line.content.Some? && e.line.content.value.kind == Response {
      var id := e.line.content.value.canonicalId.value;
      assert IsResponse(e.line, id);
      ResponseStepStaysAttentive(history, e, id, direction, d, bound, cap);
    } else {
      NeutralStepStaysAttentive(history, e, direction, d, bound, cap);
    }
  }

  ghost predicate AtMostOneOpen(history: seq<Event>, direction: Side, id: string) {
    Responses(history, direction, id) <= Requests(history, direction, id) <= Responses(history, direction, id) + 1
  }

  lemma {:induction false} AtMostOneIsOpen(history: seq<Event>, direction: Side, id: string)
    requires Solicited(history, direction) && NoReuse(history, direction)
    ensures AtMostOneOpen(history, direction, id)
  {
    if history != [] {
      SolicitedFront(history, direction);
      AtMostOneIsOpen(history[..|history| - 1], direction, id);
    }
  }

  /** Neither a readable request of `direction` nor a readable response to it. */
  ghost predicate Neutral(e: Event, direction: Side) {
    forall id :: !(e.origin == direction && IsRequest(e.line, id)) && !(e.origin != direction && IsResponse(e.line, id))
  }

  /** A neutral event changes no count. */
  lemma NeutralCounts(history: seq<Event>, e: Event, direction: Side, id: string)
    requires Neutral(e, direction)
    ensures Requests(history + [e], direction, id) == Requests(history, direction, id)
    ensures Responses(history + [e], direction, id) == Responses(history, direction, id)
  {
    RequestsSnoc(history, e, direction, id);
  }

  lemma NeutralStepIsNone(e: Event, direction: Side, d: Direction, bound: nat, cap: nat)
    requires e.line.content.Some? ==> WellClassified(e.line.content.value)
    requires Neutral(e, direction) && !Lossy(e, direction, bound)
    ensures DirectionStep(d, direction, e, bound, cap) == d
  {
    if e.line.content.Some? && e.line.content.value.canonicalId.Some? {
      assert !(e.origin == direction && IsRequest(e.line, e.line.content.value.canonicalId.value));
      assert !(e.origin != direction && IsResponse(e.line, e.line.content.value.canonicalId.value));
    }
  }

  lemma NeutralAsksNothing(history: seq<Event>, e: Event, direction: Side)
    requires Neutral(e, direction)
    ensures IdsAsked(history + [e], direction) == IdsAsked(history, direction)
  {
    assert (history + [e])[..|history|] == history;
    if e.line.content.Some? && e.line.content.value.canonicalId.Some? {
      assert !(e.origin == direction && IsRequest(e.line, e.line.content.value.canonicalId.value));
    }
  }

  lemma NeutralStepStaysAttentive(history: seq<Event>, e: Event, direction: Side, d: Direction, bound: nat, cap: nat)
    requires e.line.content.Some? ==> WellClassified(e.line.content.value)
    requires Attentive(history, direction, d, cap) && Neutral(e, direction) && !Lossy(e, direction, bound)
    ensures Attentive(history + [e], direction, DirectionStep(d, direction, e, bound, cap), cap)
  {
    NeutralStepIsNone(e, direction, d, bound, cap);
    NeutralAsksNothing(history, e, direction);
    forall id
      ensures Requests(history + [e], direction, id) == Requests(history, direction, id)
      ensures Responses(history + [e], direction, id) == Responses(history, direction, id)
    {
      NeutralCounts(history, e, direction, id);
    }
  }

  /** The observer's step for a request that reuses no open id. */
  lemma RequestStepOpens(history: seq<Event>, e: Event, id: string, d: Direction, bound: nat, cap: nat)
    requires Bounded(d, cap) && Attentive(history, e.origin, d, cap)
    requires IsRequest(e.line, id) && e.line.size <= bound
    requires Requests(history, e.origin, id) == Responses(history, e.origin, id)
    ensures var d' := AcceptRequest(d, id, cap);
            && DirectionStep(d, e.origin, e, bound, cap) == d' && d'.lost.None?
            && forall x :: Outstanding(d', x) <==> Outstanding(d, x) || (x == id && Tracked(d, id, cap))
  {
    assert !Outstanding(d, id);
  }

  lemma AskingAddsId(history: seq<Event>, e: Event, id: string)
    requires IsRequest(e.line, id)
    ensures IdsAsked(history + [e], e.origin) == IdsAsked(history, e.origin) + {id}
  {
    assert (history + [e])[..|history|] == history;
  }

  /** With room for every id asked, the request is tracked. */
  lemma RoomToTrack(d: Direction, asked: set<string>, id: string, cap: nat)
    requires Bounded(d, cap) && d.lost.None?
    requires |asked| <= cap ==> !d.degradedCapacity && d.occurrences.Keys == asked
    requires |asked + {id}| <= cap
    ensures |asked| <= cap && Tracked(d, id, cap)
  {
    SubsetIsSmaller(asked, asked + {id});
    assert |d.occurrences| == |d.occurrences.Keys|;
  }

  lemma RequestStepStaysAttentive(history: seq<Event>, e: Event, id: string, d: Direction, bound: nat, cap: nat)
    requires Bounded(d, cap) && Attentive(history, e.origin, d, cap)
    requires IsRequest(e.line, id) && e.line.size <= bound
    requires Requests(history, e.origin, id) == Responses(history, e.origin, id)
    ensures Attentive(history + [e], e.origin, DirectionStep(d, e.origin, e, bound, cap), cap)
  {
    RequestStepOpens(history, e, id, d, bound, cap);
    AskingAddsId(history, e, id);
    AcceptingStaysBounded(d, id, cap);
    if |IdsAsked(history, e.origin) + {id}| <= cap {
      RoomToTrack(d, IdsAsked(history, e.origin), id, cap);
    }
    forall x
      ensures Requests(history + [e], e.origin, x) == Requests(history, e.origin, x) + if x == id then 1 else 0
      ensures Responses(history + [e], e.origin, x) == Responses(history, e.origin, x)
    {
      RequestsSnoc(history, e, e.origin, x);
    }
  }

  /** The observer's step for a response to an open request. */
  lemma ResponseStepCloses(history: seq<Event>, e: Event, id: string, direction: Side, d: Direction, bound: nat, cap: nat)
    requires Bounded(d, cap) && d.lost.None? && e.origin != direction
    requires IsResponse(e.line, id) && e.line.size <= bound
    ensures var d' := DirectionStep(d, direction, e, bound, cap);
            && d'.lost.None? && d'.degradedCapacity == d.degradedCapacity && d'.occurrences == d.occurrences
            && forall x :: Outstanding(d', x) <==> Outstanding(d, x) && x != id
  {
  }

  lemma AnsweringAsksNothing(history: seq<Event>, e: Event, direction: Side)
    requires e.origin != direction
    ensures IdsAsked(history + [e], direction) == IdsAsked(history, direction)
  {
    assert (history + [e])[..|history|] == history;
  }

  lemma ResponseStepStaysAttentive(history: seq<Event>, e: Event, id: string, direction: Side, d: Direction, bound: nat, cap: nat)
    requires Bounded(d, cap) && Attentive(history, direction, d, cap) && e.origin != direction
    requires IsResponse(e.line, id) && e.line.size <= bound
    requires Requests(history, direction, id) == Responses(history, direction, id) + 1
    ensures Attentive(history + [e], direction, DirectionStep(d, direction, e, bound, cap), cap)
  {
    ResponseStepCloses(history, e, id, direction, d, bound, cap);
    AnsweringAsksNothing(history, e, direction);
    forall x
      ensures Requests(history + [e], direction, x) == Requests(history, direction, x)
      ensures Responses(history + [e], direction, x) == Responses(history, direction, x) + if x == id then 1 else 0
    {
      RequestsSnoc(history, e, direction, x);
    }
  }

  lemma SubsetIsSmaller<T>(xs: set<T>, ys: set<T>)
    requires xs <= ys
    ensures |xs| <= |ys|
    ensures xs != ys ==> |xs| < |ys|
  {
    assert ys == xs + (ys - xs);
  }

  /** What holds of the endpoints where they send holds at every node. */
  lemma SeenFrom(decode: Decoder, run: seq<Step>, node: Side, direction: Side)
    requires Causal(run) && HonestResponder(decode, run, direction) && FreshRequester(decode, run, direction)
    ensures Solicited(HistoryOf(decode, run, node), direction) && NoReuse(HistoryOf(decode, run, node), direction)
  {
    if node == direction {
      SolicitedTravels(decode, run, direction);
    } else {
      NoReuseTravels(decode, run, direction);
    }
  }

  lemma {:induction false} IdsAskedInPrefix(history: seq<Event>, n: nat, direction: Side)
    requires n <= |history|
    ensures IdsAsked(history[..n], direction) <= IdsAsked(history, direction)
    decreases |history| - n
  {
    if n < |history| {
      IdsAskedInPrefix(history, n + 1, direction);
      SplitHistory(history, n);
    } else {
      assert history[..n] == history;
    }
  }

  lemma PrefixKeeps(history: seq<Event>, n: nat, direction: Side, bound: nat)
    requires n <= |history|
    ensures WellFormed(history) ==> WellFormed(history[..n])
    ensures Solicited(history, direction) ==> Solicited(history[..n], direction)
    ensures NoReuse(history, direction) ==> NoReuse(history[..n], direction)
    ensures Lossless(history, direction, bound) ==> Lossless(history[..n], direction, bound)
  {
    assert forall k :: 0 <= k < n ==> history[..n][..k] == history[..k];
  }

  lemma AttentiveAt(history: seq<Event>, p: nat, direction: Side, bound: nat, cap: nat)
    requires WellFormed(history) && Solicited(history, direction) && NoReuse(history, direction)
    requires Lossless(history, direction, bound) && p < |history|
    ensures Bounded(DirectionAfter(history[..p], direction, bound, cap), cap)
    ensures Attentive(history[..p], direction, DirectionAfter(history[..p], direction, bound, cap), cap)
    ensures forall id :: AtMostOneOpen(history[..p], direction, id)
    ensures IdsAsked(history[..p + 1], direction) <= IdsAsked(history, direction)
    ensures |IdsAsked(history[..p], direction)| <= |IdsAsked(history[..p + 1], direction)| <= |IdsAsked(history, direction)|
  {
    PrefixKeeps(history, p, direction, bound);
    LosslessIsAttentive(history[..p], direction, bound, cap);
    DirectionInvariant(history[..p], direction, bound, cap);
    forall id ensures AtMostOneOpen(history[..p], direction, id) {
      AtMostOneIsOpen(history[..p], direction, id);
    }
    IdsAskedInPrefix(history, p + 1, direction);
    SplitHistory(history, p);
    SubsetIsSmaller(IdsAsked(history[..p], direction), IdsAsked(history[..p + 1], direction));
    SubsetIsSmaller(IdsAsked(history[..p + 1], direction), IdsAsked(history, direction));
  }

  lemma RequestIsAliased(history: seq<Event>, p: nat, id: string, bound: nat, cap: nat)
    requires p < |history| && IsRequest(history[p].line, id)
    requires WellFormed(history)
    requires Solicited(history, history[p].origin) && NoReuse(history, history[p].origin)
    requires Lossless(history, history[p].origin, bound) && |IdsAsked(history, history[p].origin)| <= cap
    ensures OccurrenceOfRequest(history[..p], history[p], bound, cap).Some?
  {
    var e := history[p];
    AttentiveAt(history, p, e.origin, bound, cap);
    SplitHistory(history, p);
    var d := DirectionAfter(history[..p], e.origin, bound, cap);
    var asked := IdsAsked(history[..p], e.origin);
    assert IdsAsked(history[..p + 1], e.origin) == asked + {id};
    SubsetIsSmaller(asked, asked + {id});
    assert |d.occurrences| == |d.occurrences.Keys| == |asked|;
    assert !Outstanding(d, id);
    assert !Lossy(e, e.origin, bound);
  }

  lemma ResponseIsAliased(history: seq<Event>, p: nat, id: string, bound: nat, cap: nat)
    requires p < |history| && IsResponse(history[p].line, id)
    requires WellFormed(history)
    requires Solicited(history, PeerSide(history[p].origin)) && NoReuse(history, PeerSide(history[p].origin))
    requires Lossless(history, PeerSide(history[p].origin), bound)
    requires |IdsAsked(history, PeerSide(history[p].origin))| <= cap
    ensures OccurrenceOfResponse(history[..p], history[p], bound, cap).Some?
  {
    var direction := PeerSide(history[p].origin);
    AttentiveAt(history, p, direction, bound, cap);
    assert AtMostOneOpen(history[..p], direction, id);
    assert !Lossy(history[p], direction, bound);
  }

  /** Without loss, reuse or hidden answers, and with spare capacity, an observer aliases every request and response. */
  lemma EverythingIsAliased(decode: Decoder, run: seq<Step>, node: Side, p: nat, streamId: string, bound: nat, cap: nat)
    requires Causal(run) && p < |HistoryOf(decode, run, node)|
    requires forall direction :: HonestResponder(decode, run, direction) && FreshRequester(decode, run, direction)
    requires forall direction :: Lossless(HistoryOf(decode, run, node), direction, bound)
    requires forall direction :: |IdsAsked(HistoryOf(decode, run, node), direction)| <= cap
    ensures var history := HistoryOf(decode, run, node);
            var e := history[p];
            AliasOf(history[..p], e, node, streamId, bound, cap).Some?
            <==> e.line.content.Some? && (e.line.content.value.kind == Request || e.line.content.value.kind == Response)
  {
    var history := HistoryOf(decode, run, node);
    var e := history[p];
    HistoryIsWellFormed(decode, run, node);
    AliasNamesTheOccurrence(history[..p], e, node, streamId, bound, cap);
    SeenFrom(decode, run, node, e.origin);
    SeenFrom(decode, run, node, PeerSide(e.origin));
    assert Lossless(history, e.origin, bound) && Lossless(history, PeerSide(e.origin), bound);
    if e.line.content.Some? && e.line.content.value.kind == Request {
      RequestIsAliased(history, p, e.line.content.value.canonicalId.value, bound, cap);
    } else if e.line.content.Some? && e.line.content.value.kind == Response {
      ResponseIsAliased(history, p, e.line.content.value.canonicalId.value, bound, cap);
    }
  }
}
