/** What one observer can be trusted with, over every history of wire lines, lost lines included. */
module CorrelatorSafety {
  import opened Common
  import opened MessageClass
  import opened LineFraming
  import opened StreamCorrelation

  // ---------------------------------------------------------------- the truth on the wire

  predicate IsRequest(line: WireLine, id: string) {
    line.content.Some? && line.content.value.kind == Request && line.content.value.canonicalId == Some(id)
  }

  predicate IsResponse(line: WireLine, id: string) {
    line.content.Some? && line.content.value.kind == Response && line.content.value.canonicalId == Some(id)
  }

  /** Requests with this id sent in `direction`, readable for the observer or not. */
  function Requests(history: seq<Event>, direction: Side, id: string): nat {
    if history == [] then 0
    else
      var last := history[|history| - 1];
      Requests(history[..|history| - 1], direction, id)
      + if last.origin == direction && IsRequest(last.line, id) then 1 else 0
  }

  /** Responses with this id that answer requests of `direction`, readable or not. */
  function Responses(history: seq<Event>, direction: Side, id: string): nat {
    if history == [] then 0
    else
      var last := history[|history| - 1];
      Responses(history[..|history| - 1], direction, id)
      + if last.origin != direction && IsResponse(last.line, id) then 1 else 0
  }

  ghost predicate WellFormed(history: seq<Event>) {
    forall k :: 0 <= k < |history| && history[k].line.content.Some? ==> WellClassified(history[k].line.content.value)
  }

  lemma EventsAreWellFormed(decode: Decoder, origin: Side, lines: seq<Bytes>)
    ensures WellFormed(EventsOf(decode, origin, lines))
  {
    forall k | 0 <= k < |lines| && Wire(decode, lines[k]).content.Some?
      ensures WellClassified(Wire(decode, lines[k]).content.value)
    {
      ClassifiedMessagesCarryIds(decode(StripCR(lines[k])), |StripCR(lines[k])|);
    }
  }

  /** The line costs the observer its certainty about the requests of `direction`. */
  predicate Lossy(e: Event, direction: Side, bound: nat) {
    if e.origin == direction then
      e.line.size > bound
      || (e.line.content.Some? && e.line.content.value.kind == Other
          && e.line.content.value.note != ResponseWithoutScalarId)
    else
      e.line.size <= bound && e.line.content.Some? && e.line.content.value.kind == Other
      && e.line.content.value.note == ResponseWithoutScalarId
  }

  // ---------------------------------------------------------------- what an event is given

  function OccurrenceOfRequest(history: seq<Event>, e: Event, bound: nat, cap: nat): Option<nat> {
    var seen := Seen(e.line, bound);
    if seen == [] then None else RequestOccurrence(DirectionAfter(history, e.origin, bound, cap), seen[0], cap)
  }

  function OccurrenceOfResponse(history: seq<Event>, e: Event, bound: nat, cap: nat): Option<nat> {
    var seen := Seen(e.line, bound);
    if seen == [] then None else ResponseOccurrence(DirectionAfter(history, PeerSide(e.origin), bound, cap), seen[0])
  }

  /** The alias journalled for `e`, seen after `history`. */
  function AliasOf(history: seq<Event>, e: Event, side: Side, streamId: string, bound: nat, cap: nat): Option<Alias> {
    var rows := ObserveEvent(history, e, side, streamId, bound, cap);
    if |rows| == 1 then rows[0].correlationId else None
  }

  /** An alias names the stream, the side that sent the request, its id and its occurrence;
      which node computes it does not matter. */
  lemma AliasNamesTheOccurrence(history: seq<Event>, e: Event, side: Side, streamId: string, bound: nat, cap: nat)
    ensures |ObserveEvent(history, e, side, streamId, bound, cap)| <= 1
    ensures var request := OccurrenceOfRequest(history, e, bound, cap);
            var response := OccurrenceOfResponse(history, e, bound, cap);
            AliasOf(history, e, side, streamId, bound, cap)
            == if request.Some? then Some(Alias(streamId, e.origin, e.line.content.value.canonicalId.value, request.value))
               else if response.Some? then
                 Some(Alias(streamId, PeerSide(e.origin), e.line.content.value.canonicalId.value, response.value))
               else None
  {
  }

  // ---------------------------------------------------------------- the invariant of one direction

  ghost predicate Bounded(d: Direction, cap: nat) {
    && |d.occurrences| <= cap
    && (d.degradedCapacity ==> |d.occurrences| == cap)
    && (forall id :: id in d.pending ==>
          id in d.occurrences && (d.pending[id] == [] || d.pending[id] == [d.occurrences[id]]))
  }

  ghost predicate Exact(history: seq<Event>, direction: Side, d: Direction) {
    d.lost.None? ==>
      && (forall id :: id in d.occurrences ==> d.occurrences[id] == Requests(history, direction, id) >= 1)
      && (forall id :: id !in d.occurrences && !d.degradedCapacity ==> Requests(history, direction, id) == 0)
  }

  lemma OneMoreKey<T>(m: map<string, T>, id: string, value: T)
    ensures m[id := value].Keys == m.Keys + {id}
    ensures |m[id := value]| == |m| + if id in m then 0 else 1
  {
    var m' := m[id := value];
    assert |m| == |m.Keys| && |m'| == |m'.Keys|;
    if id in m {
      assert m'.Keys == m.Keys;
    } else {
      assert m'.Keys == m.Keys + {id};
    }
  }

  lemma CountingStaysBounded(d: Direction, id: string, occurrence: nat, cap: nat)
    requires Bounded(d, cap) && Tracked(d, id, cap)
    ensures Bounded(d.(occurrences := d.occurrences[id := occurrence], pending := d.pending[id := [occurrence]]), cap)
  {
    OneMoreKey(d.occurrences, id, occurrence);
  }

  lemma AcceptingStaysBounded(d: Direction, id: string, cap: nat)
    requires Bounded(d, cap)
    ensures Bounded(AcceptRequest(d, id, cap), cap)
    ensures AcceptRequest(d, id, cap).occurrences.Keys
            == d.occurrences.Keys + if Tracked(d, id, cap) && !Outstanding(d, id) then {id} else {}
  {
    if Tracked(d, id, cap) && !Outstanding(d, id) {
      CountingStaysBounded(d, id, Ordinal(d, id) + 1, cap);
      OneMoreKey(d.occurrences, id, Ordinal(d, id) + 1);
    }
  }

  lemma AnsweringStaysBounded(d: Direction, item: Item, cap: nat)
    requires Bounded(d, cap)
    ensures Bounded(OppositeStep(d, item), cap)
  {
    var d' := OppositeStep(d, item);
    assert d'.occurrences == d.occurrences && d'.degradedCapacity == d.degradedCapacity;
  }

  lemma StepStaysBounded(d: Direction, direction: Side, e: Event, bound: nat, cap: nat)
    requires Bounded(d, cap)
    ensures Bounded(DirectionStep(d, direction, e, bound, cap), cap)
  {
    var seen := Seen(e.line, bound);
    if seen != [] {
      AnsweringStaysBounded(d, seen[0], cap);
      if seen[0].Message? && seen[0].message.kind == Request && seen[0].message.canonicalId.Some? {
        AcceptingStaysBounded(d, seen[0].message.canonicalId.value, cap);
      }
    }
  }

  lemma RequestsSnoc(history: seq<Event>, e: Event, direction: Side, id: string)
    ensures Requests(history + [e], direction, id)
            == Requests(history, direction, id) + if e.origin == direction && IsRequest(e.line, id) then 1 else 0
    ensures Responses(history + [e], direction, id)
            == Responses(history, direction, id) + if e.origin != direction && IsResponse(e.line, id) then 1 else 0
  {
    assert (history + [e])[..|history|] == history;
  }

  lemma StepStaysExact(history: seq<Event>, e: Event, direction: Side, d: Direction, bound: nat, cap: nat)
    requires e.line.content.Some? ==> WellClassified(e.line.content.value)
    requires Exact(history, direction, d)
    ensures Exact(history + [e], direction, DirectionStep(d, direction, e, bound, cap))
  {
    var d' := DirectionStep(d, direction, e, bound, cap);
    if d'.lost.None? {
      forall id
        ensures id in d'.occurrences ==> d'.occurrences[id] == Requests(history + [e], direction, id) >= 1
        ensures id !in d'.occurrences && !d'.degradedCapacity ==> Requests(history + [e], direction, id) == 0
      {
        RequestsSnoc(history, e, direction, id);
      }
    }
  }

  /** Pending lists hold at most the current occurrence, tracking is bounded, and without loss
      every tracked count is the exact number of requests on the wire. */
  lemma {:induction false} DirectionInvariant(history: seq<Event>, direction: Side, bound: nat, cap: nat)
    requires WellFormed(history)
    ensures var d := DirectionAfter(history, direction, bound, cap);
            Bounded(d, cap) && Exact(history, direction, d)
  {
    if history != [] {
      var front, last := history[..|history| - 1], history[|history| - 1];
      DirectionInvariant(front, direction, bound, cap);
      var d := DirectionAfter(front, direction, bound, cap);
      StepStaysBounded(d, direction, last, bound, cap);
      StepStaysExact(front, last, direction, d, bound, cap);
      assert front + [last] == history;
    }
  }

  // ---------------------------------------------------------------- the properties

  /** A request's occurrence is its ordinal among all requests with its id on the wire, and a paired
      response's occurrence is the ordinal of the latest such request the observer has seen. */
  lemma NoFalsePairing(history: seq<Event>, e: Event, bound: nat, cap: nat)
    requires WellFormed(history + [e])
    ensures var given := OccurrenceOfRequest(history, e, bound, cap);
            given.Some? ==>
              exists id :: IsRequest(e.line, id) && given.value == Requests(history, e.origin, id) + 1
    ensures var paired := OccurrenceOfResponse(history, e, bound, cap);
            paired.Some? ==>
              exists id :: IsResponse(e.line, id) && paired.value == Requests(history, PeerSide(e.origin), id) >= 1
  {
    assert WellFormed(history) by {
      assert forall k :: 0 <= k < |history| ==> (history + [e])[k] == history[k];
    }
    DirectionInvariant(history, e.origin, bound, cap);
    DirectionInvariant(history, PeerSide(e.origin), bound, cap);
    var content := e.line.content;
    if content.Some? && content.value.canonicalId.Some? {
      var id := content.value.canonicalId.value;
      assert OccurrenceOfRequest(history, e, bound, cap).Some? ==> IsRequest(e.line, id);
      assert OccurrenceOfResponse(history, e, bound, cap).Some? ==> IsResponse(e.line, id);
    }
  }

  /** The branches of `feed` for a missing canonical id and for two outstanding uses never run. */
  lemma DeadBranches(history: seq<Event>, e: Event, bound: nat, cap: nat)
    requires WellFormed(history + [e])
    ensures var seen := Seen(e.line, bound);
            var d := DirectionAfter(history, PeerSide(e.origin), bound, cap);
            seen != [] && seen[0].Message? ==>
              && (seen[0].message.kind == Request || seen[0].message.kind == Response ==> seen[0].message.canonicalId.Some?)
              && forall id :: id in d.pending ==> |d.pending[id]| <= 1
  {
    assert WellFormed(history) by {
      assert forall k :: 0 <= k < |history| ==> (history + [e])[k] == history[k];
    }
    assert (history + [e])[|history|] == e;
    DirectionInvariant(history, PeerSide(e.origin), bound, cap);
  }

  lemma SplitHistory(history: seq<Event>, n: nat)
    requires n < |history|
    ensures history[..n + 1][..n] == history[..n] && history[..n + 1][n] == history[n]
  {
  }

  /** Loss and exhausted capacity stay, loss freezes the counts, and a full table keeps its ids. */
  predicate Keeps(d: Direction, d': Direction, cap: nat) {
    && (d.lost.Some? ==> d'.lost == d.lost && d'.occurrences == d.occurrences)
    && (d.degradedCapacity ==> d'.degradedCapacity)
    && d.occurrences.Keys <= d'.occurrences.Keys
    && (|d.occurrences| == cap ==> d'.occurrences.Keys == d.occurrences.Keys)
  }

  lemma AcceptingKeeps(d: Direction, id: string, cap: nat)
    requires Bounded(d, cap)
    ensures Keeps(d, AcceptRequest(d, id, cap), cap)
  {
    AcceptingStaysBounded(d, id, cap);
  }

  lemma AnsweringKeeps(d: Direction, item: Item, cap: nat)
    ensures Keeps(d, OppositeStep(d, item), cap)
  {
  }

  lemma StepKeeps(d: Direction, direction: Side, e: Event, bound: nat, cap: nat)
    requires Bounded(d, cap)
    ensures Keeps(d, DirectionStep(d, direction, e, bound, cap), cap)
  {
    var seen := Seen(e.line, bound);
    if seen != [] {
      if e.origin != direction {
        AnsweringKeeps(d, seen[0], cap);
      } else if seen[0].Message? && seen[0].message.kind == Request && seen[0].message.canonicalId.Some? {
        AcceptingKeeps(d, seen[0].message.canonicalId.value, cap);
      }
    }
  }

  /** Loss is permanent and freezes the counts; at capacity the tracked ids never change again. */
  lemma {:induction false} LossAndCapacityArePermanent(history: seq<Event>, n: nat, direction: Side, bound: nat, cap: nat)
    requires WellFormed(history) && n <= |history|
    ensures var earlier := DirectionAfter(history[..n], direction, bound, cap);
            var later := DirectionAfter(history, direction, bound, cap);
            && (earlier.lost.Some? ==> later.lost == earlier.lost && later.occurrences == earlier.occurrences)
            && (earlier.degradedCapacity ==> later.degradedCapacity)
            && earlier.occurrences.Keys <= later.occurrences.Keys
            && (|earlier.occurrences| == cap ==> later.occurrences.Keys == earlier.occurrences.Keys)
    decreases |history| - n
  {
    if n < |history| {
      SplitHistory(history, n);
      assert WellFormed(history[..n]);
      DirectionInvariant(history[..n], direction, bound, cap);
      StepKeeps(DirectionAfter(history[..n], direction, bound, cap), direction, history[n], bound, cap);
      LossAndCapacityArePermanent(history, n + 1, direction, bound, cap);
    } else {
      assert history[..n] == history;
    }
  }

  lemma {:induction false} RequestsGrow(history: seq<Event>, m: nat, n: nat, direction: Side, id: string)
    requires m <= n <= |history|
    ensures Requests(history[..m], direction, id) <= Requests(history[..n], direction, id)
  {
    if m < n {
      RequestsGrow(history, m, n - 1, direction, id);
      SplitHistory(history, n - 1);
    }
  }

  /** Two requests with one id are never given the same occurrence. */
  lemma EachOccurrenceToOneRequest(history: seq<Event>, j: nat, k: nat, id: string, bound: nat, cap: nat)
    requires WellFormed(history) && j < k < |history|
    requires history[j].origin == history[k].origin
    requires IsRequest(history[j].line, id) && IsRequest(history[k].line, id)
    requires OccurrenceOfRequest(history[..j], history[j], bound, cap).Some?
    requires OccurrenceOfRequest(history[..k], history[k], bound, cap).Some?
    ensures OccurrenceOfRequest(history[..j], history[j], bound, cap).value
            < OccurrenceOfRequest(history[..k], history[k], bound, cap).value
  {
    var origin := history[j].origin;
    SplitHistory(history, j);
    SplitHistory(history, k);
    NoFalsePairing(history[..j], history[j], bound, cap);
    NoFalsePairing(history[..k], history[k], bound, cap);
    RequestsGrow(history, j + 1, k, origin, id);
    assert Requests(history[..j + 1], origin, id) == Requests(history[..j], origin, id) + 1;
  }

  lemma StepKeepsConsumed(d: Direction, direction: Side, e: Event, id: string, occurrence: nat, bound: nat, cap: nat)
    requires Bounded(d, cap) && ConsumedBy(d, id, occurrence)
    ensures ConsumedBy(DirectionStep(d, direction, e, bound, cap), id, occurrence)
  {
  }

  /** Once a response has consumed an occurrence nothing can be paired with it again. */
  lemma {:induction false} ConsumedStaysConsumed(history: seq<Event>, n: nat, direction: Side, id: string, occurrence: nat,
                                                 bound: nat, cap: nat)
    requires WellFormed(history) && n <= |history|
    requires ConsumedBy(DirectionAfter(history[..n], direction, bound, cap), id, occurrence)
    ensures ConsumedBy(DirectionAfter(history, direction, bound, cap), id, occurrence)
    decreases |history| - n
  {
    if n < |history| {
      SplitHistory(history, n);
      assert WellFormed(history[..n]);
      DirectionInvariant(history[..n], direction, bound, cap);
      StepKeepsConsumed(DirectionAfter(history[..n], direction, bound, cap), direction, history[n], id, occurrence, bound, cap);
      ConsumedStaysConsumed(history, n + 1, direction, id, occurrence, bound, cap);
    } else {
      assert history[..n] == history;
    }
  }

  ghost predicate ConsumedBy(d: Direction, id: string, occurrence: nat) {
    id in d.occurrences && occurrence <= d.occurrences[id] && (!Outstanding(d, id) || occurrence < d.occurrences[id])
  }

  /** A paired response consumes the occurrence it is given. */
  lemma PairingConsumes(history: seq<Event>, e: Event, id: string, bound: nat, cap: nat)
    requires WellFormed(history) && IsResponse(e.line, id) && OccurrenceOfResponse(history, e, bound, cap).Some?
    ensures ConsumedBy(DirectionStep(DirectionAfter(history, PeerSide(e.origin), bound, cap), PeerSide(e.origin), e, bound, cap),
                       id, OccurrenceOfResponse(history, e, bound, cap).value)
  {
    DirectionInvariant(history, PeerSide(e.origin), bound, cap);
  }

  lemma PairedIsOpen(history: seq<Event>, e: Event, id: string, occurrence: nat, bound: nat, cap: nat)
    requires WellFormed(history) && IsResponse(e.line, id) && OccurrenceOfResponse(history, e, bound, cap).Some?
    requires ConsumedBy(DirectionAfter(history, PeerSide(e.origin), bound, cap), id, occurrence)
    ensures occurrence < OccurrenceOfResponse(history, e, bound, cap).value
  {
    DirectionInvariant(history, PeerSide(e.origin), bound, cap);
  }

  /** Two responses are never paired with the same request. */
  lemma EachOccurrenceToOneResponse(history: seq<Event>, j: nat, k: nat, id: string, bound: nat, cap: nat)
    requires WellFormed(history) && j < k < |history|
    requires history[j].origin == history[k].origin
    requires IsResponse(history[j].line, id) && IsResponse(history[k].line, id)
    requires OccurrenceOfResponse(history[..j], history[j], bound, cap).Some?
    requires OccurrenceOfResponse(history[..k], history[k], bound, cap).Some?
    ensures OccurrenceOfResponse(history[..j], history[j], bound, cap).value
            < OccurrenceOfResponse(history[..k], history[k], bound, cap).value
  {
    var direction, given := PeerSide(history[j].origin), OccurrenceOfResponse(history[..j], history[j], bound, cap).value;
    assert WellFormed(history[..j]) && WellFormed(history[..k]);
    PairingConsumes(history[..j], history[j], id, bound, cap);
    SplitHistory(history, j);
    assert history[..k][..j + 1] == history[..j + 1];
    ConsumedStaysConsumed(history[..k], j + 1, direction, id, given, bound, cap);
    PairedIsOpen(history[..k], history[k], id, given, bound, cap);
  }
}
