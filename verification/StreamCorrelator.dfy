/** Per-stream request/response correlation (stream_evidence.py, StreamCorrelator). */
module StreamCorrelation {
  import opened Common
  import opened MessageClass
  import opened LineFraming

  datatype Side = Win | Wsl

  datatype Flow = Inbound | Outbound

  function PeerSide(side: Side): Side {
    if side == Win then Wsl else Win
  }

  function OppositeFlow(flow: Flow): Flow {
    if flow == Outbound then Inbound else Outbound
  }

  /** A dictionary whose keys are exactly the two flows. */
  datatype PerFlow<T> = PerFlow(inbound: T, outbound: T) {
    function Get(flow: Flow): T {
      if flow == Inbound then inbound else outbound
    }

    function Set(flow: Flow, value: T): PerFlow<T> {
      if flow == Inbound then this.(inbound := value) else this.(outbound := value)
    }
  }

  /** The side that sent what this node sees in `flow`. */
  function OriginSideFor(flow: Flow, side: Side): Side {
    if flow == Outbound then side else PeerSide(side)
  }

  /** SHA-256 over the canonical JSON of these four values is taken to be injective. */
  datatype Alias = Alias(streamId: string, origin: Side, canonicalId: string, occurrence: nat)

  datatype LossReason =
    | OversizedLine
    | LostLine(note: Note)
    | ResponseIdUnreadable
    | ConcurrentReuse

  datatype ObservationNote =
    | Attributed
    | NotCorrelated(note: Note)
    | RequestIdUnbounded
    | ResponseIdUnbounded
    | DirectionDegraded(reason: LossReason)
    | ResponseWithoutObservedRequest

  datatype Observation = Observation(
    kind: Kind,
    correlationId: Option<Alias>,
    flow: Flow,
    messageBytes: nat,
    occurrence: Option<nat>,
    note: ObservationNote)

  /** What a node keeps about the requests of one direction. */
  datatype Direction = Direction(
    occurrences: map<string, nat>,
    pending: map<string, seq<nat>>,
    degradedCapacity: bool,
    lost: Option<LossReason>)

  const FRESH := Direction(map[], map[], false, None)

  // ---------------------------------------------------------------- one direction as an automaton

  function Degrade(d: Direction, reason: LossReason): Direction {
    if d.lost.None? then d.(lost := Some(reason)) else d
  }

  predicate Outstanding(d: Direction, id: string) {
    id in d.pending && d.pending[id] != []
  }

  /** The request is neither suppressed nor beyond the tracking capacity. */
  predicate Tracked(d: Direction, id: string, cap: nat) {
    d.lost.None? && (id in d.occurrences || (!d.degradedCapacity && |d.occurrences| < cap))
  }

  function Ordinal(d: Direction, id: string): nat {
    if id in d.occurrences then d.occurrences[id] else 0
  }

  function AcceptRequest(d: Direction, id: string, cap: nat): Direction {
    if d.lost.Some? then d
    else if !Tracked(d, id, cap) then d.(degradedCapacity := true)
    else if Outstanding(d, id) then Degrade(d, ConcurrentReuse).(pending := map[])
    else
      var occurrence := Ordinal(d, id) + 1;
      d.(occurrences := d.occurrences[id := occurrence], pending := d.pending[id := [occurrence]])
  }

  /** Effect on a direction of an item travelling in that direction. */
  function OwnStep(d: Direction, item: Item, cap: nat): Direction {
    match item
    case FramingLoss(_) => Degrade(d, OversizedLine)
    case Message(m) =>
      if m.kind == Other && m.note != ResponseWithoutScalarId then Degrade(d, LostLine(m.note))
      else if m.kind == Request && m.canonicalId.Some? then AcceptRequest(d, m.canonicalId.value, cap)
      else d
  }

  /** Effect on a direction of an item travelling the other way. */
  function OppositeStep(d: Direction, item: Item): Direction {
    if item.FramingLoss? then d
    else
      var m := item.message;
      if m.kind == Other && m.note == ResponseWithoutScalarId then Degrade(d, ResponseIdUnreadable)
      else if m.kind != Response then d
      else if m.canonicalId.None? then Degrade(d, ResponseIdUnreadable)
      else
        var id := m.canonicalId.value;
        if d.lost.Some? || !Outstanding(d, id) then d
        else if |d.pending[id]| > 1 then Degrade(d, ConcurrentReuse)
        else d.(pending := d.pending[id := d.pending[id][1..]])
  }

  /** The occurrence a request item is given, if it gets an alias. */
  function RequestOccurrence(d: Direction, item: Item, cap: nat): Option<nat> {
    if item.Message? && item.message.kind == Request && item.message.canonicalId.Some?
       && Tracked(d, item.message.canonicalId.value, cap) && !Outstanding(d, item.message.canonicalId.value)
    then Some(Ordinal(d, item.message.canonicalId.value) + 1)
    else None
  }

  /** The occurrence a response item is paired with, if it is paired. */
  function ResponseOccurrence(d: Direction, item: Item): Option<nat> {
    if item.Message? && item.message.kind == Response && item.message.canonicalId.Some?
       && d.lost.None? && Outstanding(d, item.message.canonicalId.value)
       && |d.pending[item.message.canonicalId.value]| == 1
    then Some(d.pending[item.message.canonicalId.value][0])
    else None
  }

  /** The journal rows of one item, given both directions before it. */
  function Observe(own: Direction, opposite: Direction, item: Item, flow: Flow, side: Side,
                   streamId: string, cap: nat): seq<Observation>
  {
    if item.FramingLoss? then []
    else
      var m := item.message;
      var origin := OriginSideFor(flow, side);
      match m.kind
      case Notification => []
      case Other => [Observation(Other, None, flow, m.messageBytes, None, NotCorrelated(m.note))]
      case Request =>
        if m.canonicalId.None? then
          [Observation(Request, None, flow, m.messageBytes, None, RequestIdUnbounded)]
        else if own.lost.Some? then
          [Observation(Request, None, flow, m.messageBytes, None, DirectionDegraded(own.lost.value))]
        else if !Tracked(own, m.canonicalId.value, cap) then []
        else
          var occurrence := RequestOccurrence(own, item, cap);
          if occurrence.None? then
            [Observation(Request, None, flow, m.messageBytes, None, DirectionDegraded(ConcurrentReuse))]
          else
            [Observation(Request, Some(Alias(streamId, origin, m.canonicalId.value, occurrence.value)),
                         flow, m.messageBytes, occurrence, Attributed)]
      case Response =>
        if m.canonicalId.None? then
          [Observation(Response, None, flow, m.messageBytes, None, ResponseIdUnbounded)]
        else if opposite.lost.Some? then
          [Observation(Response, None, flow, m.messageBytes, None, DirectionDegraded(opposite.lost.value))]
        else if !Outstanding(opposite, m.canonicalId.value) then
          [Observation(Response, None, flow, m.messageBytes, None, ResponseWithoutObservedRequest)]
        else
          var occurrence := ResponseOccurrence(opposite, item);
          if occurrence.None? then
            [Observation(Response, None, flow, m.messageBytes, None, DirectionDegraded(ConcurrentReuse))]
          else
            [Observation(Response, Some(Alias(streamId, PeerSide(origin), m.canonicalId.value, occurrence.value)),
                         flow, m.messageBytes, occurrence, Attributed)]
  }

  // ---------------------------------------------------------------- the wire and its history

  /** A line as it crosses the wire: its length and what it says, readable or not. */
  datatype WireLine = WireLine(size: nat, content: Option<CompletedMessage>)

  datatype Event = Event(origin: Side, line: WireLine)

  function Wire(decode: Decoder, line: Bytes): WireLine {
    var body := StripCR(line);
    WireLine(|line|, if body == [] then None else Some(Classify(decode(body), |body|)))
  }

  /** What an observer with the given bound makes of a line. */
  function Seen(line: WireLine, bound: nat): seq<Item> {
    if line.size > bound then [FramingLoss(line.size)]
    else if line.content.None? then []
    else [Message(line.content.value)]
  }

  function EventsOf(decode: Decoder, origin: Side, lines: seq<Bytes>): (events: seq<Event>)
    ensures |events| == |lines|
    ensures forall k :: 0 <= k < |lines| ==> events[k] == Event(origin, Wire(decode, lines[k]))
  {
    if lines == [] then []
    else EventsOf(decode, origin, lines[..|lines| - 1]) + [Event(origin, Wire(decode, lines[|lines| - 1]))]
  }

  function DirectionStep(d: Direction, direction: Side, e: Event, bound: nat, cap: nat): Direction {
    var seen := Seen(e.line, bound);
    if seen == [] then d
    else if e.origin == direction then OwnStep(d, seen[0], cap)
    else OppositeStep(d, seen[0])
  }

  /** The state of the request direction `direction` after a node's history. */
  function DirectionAfter(history: seq<Event>, direction: Side, bound: nat, cap: nat): Direction {
    if history == [] then FRESH
    else
      DirectionStep(DirectionAfter(history[..|history| - 1], direction, bound, cap),
                    direction, history[|history| - 1], bound, cap)
  }

  function ObserveEvent(history: seq<Event>, e: Event, side: Side, streamId: string, bound: nat, cap: nat)
    : seq<Observation>
  {
    var seen := Seen(e.line, bound);
    var flow := if e.origin == side then Outbound else Inbound;
    if seen == [] then []
    else Observe(DirectionAfter(history, e.origin, bound, cap),
                 DirectionAfter(history, PeerSide(e.origin), bound, cap), seen[0], flow, side, streamId, cap)
  }

  /** The rows journalled for a history. */
  function Rows(history: seq<Event>, side: Side, streamId: string, bound: nat, cap: nat): seq<Observation> {
    if history == [] then []
    else
      var front := history[..|history| - 1];
      Rows(front, side, streamId, bound, cap)
      + ObserveEvent(front, history[|history| - 1], side, streamId, bound, cap)
  }

  // Folding over the framer's items is folding over the lines they came from.

  function OwnAfter(d: Direction, items: seq<Item>, cap: nat): Direction {
    if items == [] then d
    else OwnStep(OwnAfter(d, items[..|items| - 1], cap), items[|items| - 1], cap)
  }

  function OppositeAfter(d: Direction, items: seq<Item>): Direction {
    if items == [] then d
    else OppositeStep(OppositeAfter(d, items[..|items| - 1]), items[|items| - 1])
  }

  function ObserveItems(own: Direction, opposite: Direction, items: seq<Item>, flow: Flow, side: Side,
                        streamId: string, cap: nat): seq<Observation>
  {
    if items == [] then []
    else
      var front := items[..|items| - 1];
      ObserveItems(own, opposite, front, flow, side, streamId, cap)
      + Observe(OwnAfter(own, front, cap), OppositeAfter(opposite, front), items[|items| - 1], flow, side, streamId, cap)
  }

  lemma SeenIsLineItems(decode: Decoder, bound: nat, line: Bytes)
    ensures Seen(Wire(decode, line), bound) == LineItems(decode, bound, line)
  {
  }

  lemma OneMoreItem(own: Direction, opposite: Direction, items: seq<Item>, more: seq<Item>, flow: Flow, side: Side,
                    streamId: string, cap: nat)
    requires |more| <= 1
    ensures var o, p := OwnAfter(own, items, cap), OppositeAfter(opposite, items);
            && OwnAfter(own, items + more, cap) == (if more == [] then o else OwnStep(o, more[0], cap))
            && OppositeAfter(opposite, items + more) == (if more == [] then p else OppositeStep(p, more[0]))
            && ObserveItems(own, opposite, items + more, flow, side, streamId, cap)
               == ObserveItems(own, opposite, items, flow, side, streamId, cap)
                  + (if more == [] then [] else Observe(o, p, more[0], flow, side, streamId, cap))
  {
    if more == [] {
      assert items + more == items;
    } else {
      assert (items + more)[..|items + more| - 1] == items;
    }
  }

  lemma HistorySnoc(history: seq<Event>, e: Event, direction: Side, side: Side, streamId: string, bound: nat, cap: nat)
    ensures DirectionAfter(history + [e], direction, bound, cap)
            == DirectionStep(DirectionAfter(history, direction, bound, cap), direction, e, bound, cap)
    ensures Rows(history + [e], side, streamId, bound, cap)
            == Rows(history, side, streamId, bound, cap) + ObserveEvent(history, e, side, streamId, bound, cap)
  {
    assert (history + [e])[..|history|] == history;
  }

  lemma {:induction false} StatesOfLines(history: seq<Event>, decode: Decoder, origin: Side, lines: seq<Bytes>,
                                         bound: nat, cap: nat)
    ensures var items := Items(decode, bound, lines);
            var events := EventsOf(decode, origin, lines);
            && DirectionAfter(history + events, origin, bound, cap)
               == OwnAfter(DirectionAfter(history, origin, bound, cap), items, cap)
            && DirectionAfter(history + events, PeerSide(origin), bound, cap)
               == OppositeAfter(DirectionAfter(history, PeerSide(origin), bound, cap), items)
  {
    if lines == [] {
      assert history + [] == history;
    } else {
      var front, last := lines[..|lines| - 1], lines[|lines| - 1];
      var events, e := EventsOf(decode, origin, front), Event(origin, Wire(decode, last));
      var before := history + events;
      assert before + [e] == history + EventsOf(decode, origin, lines);
      StatesOfLines(history, decode, origin, front, bound, cap);
      HistorySnoc(before, e, origin, origin, "", bound, cap);
      HistorySnoc(before, e, PeerSide(origin), origin, "", bound, cap);
      SeenIsLineItems(decode, bound, last);
      OneMoreItem(DirectionAfter(history, origin, bound, cap), DirectionAfter(history, PeerSide(origin), bound, cap),
                  Items(decode, bound, front), LineItems(decode, bound, last), Outbound, origin, "", cap);
    }
  }

  lemma {:induction false} RowsOfLines(history: seq<Event>, decode: Decoder, flow: Flow, lines: seq<Bytes>,
                                       side: Side, streamId: string, bound: nat, cap: nat)
    ensures var origin := OriginSideFor(flow, side);
            Rows(history + EventsOf(decode, origin, lines), side, streamId, bound, cap)
            == Rows(history, side, streamId, bound, cap)
               + ObserveItems(DirectionAfter(history, origin, bound, cap), DirectionAfter(history, PeerSide(origin), bound, cap),
                              Items(decode, bound, lines), flow, side, streamId, cap)
  {
    var origin := OriginSideFor(flow, side);
    if lines == [] {
      assert history + [] == history;
    } else {
      var front, last := lines[..|lines| - 1], lines[|lines| - 1];
      var events, e := EventsOf(decode, origin, front), Event(origin, Wire(decode, last));
      var before := history + events;
      var own, opposite := DirectionAfter(history, origin, bound, cap), DirectionAfter(history, PeerSide(origin), bound, cap);
      var row := ObserveEvent(before, e, side, streamId, bound, cap);
      var rows := ObserveItems(own, opposite, Items(decode, bound, front), flow, side, streamId, cap);
      assert before + [e] == history + EventsOf(decode, origin, lines) && front + [last] == lines;
      RowsOfLines(history, decode, flow, front, side, streamId, bound, cap);
      assert Rows(before + [e], side, streamId, bound, cap) == Rows(before, side, streamId, bound, cap) + row by {
        HistorySnoc(before, e, origin, side, streamId, bound, cap);
      }
      assert ObserveItems(own, opposite, Items(decode, bound, lines), flow, side, streamId, cap) == rows + row by {
        RowOfLine(history, decode, flow, front, last, side, streamId, bound, cap);
      }
      Regroup(Rows(history, side, streamId, bound, cap), rows, row);
    }
  }

  lemma Regroup<T>(x: seq<T>, y: seq<T>, z: seq<T>)
    ensures (x + y) + z == x + (y + z)
  {
  }

  lemma RowOfLine(history: seq<Event>, decode: Decoder, flow: Flow, front: seq<Bytes>, last: Bytes,
                  side: Side, streamId: string, bound: nat, cap: nat)
    ensures var origin := OriginSideFor(flow, side);
            var own, opposite := DirectionAfter(history, origin, bound, cap), DirectionAfter(history, PeerSide(origin), bound, cap);
            ObserveItems(own, opposite, Items(decode, bound, front + [last]), flow, side, streamId, cap)
            == ObserveItems(own, opposite, Items(decode, bound, front), flow, side, streamId, cap)
               + ObserveEvent(history + EventsOf(decode, origin, front), Event(origin, Wire(decode, last)),
                              side, streamId, bound, cap)
  {
    var origin := OriginSideFor(flow, side);
    StatesOfLines(history, decode, origin, front, bound, cap);
    SeenIsLineItems(decode, bound, last);
    ItemsSnoc(decode, bound, front, last);
    OneMoreItem(DirectionAfter(history, origin, bound, cap), DirectionAfter(history, PeerSide(origin), bound, cap),
                Items(decode, bound, front), LineItems(decode, bound, last), flow, side, streamId, cap);
  }

  // ---------------------------------------------------------------- the correlator

  class StreamCorrelator {
    const side: Side
    const maxTrackedRequestIds: nat
    const inbound: LineFramer
    const outbound: LineFramer
    var occurrences: PerFlow<map<string, nat>>
    var pending: PerFlow<map<string, seq<nat>>>
    var degradedCapacity: PerFlow<bool>
    var lost: PerFlow<Option<LossReason>>
    /** Every line that crossed either way so far, lost lines included. */
    ghost var history: seq<Event>

    ghost const Repr: set<object> := {this, inbound, outbound}

    function View(flow: Flow): Direction
      reads this
    {
      Direction(occurrences.Get(flow), pending.Get(flow), degradedCapacity.Get(flow), lost.Get(flow))
    }

    function FramerFor(flow: Flow): LineFramer
    {
      if flow == Inbound then inbound else outbound
    }

    /** Both directions are functions of the history of wire lines. */
    ghost predicate Valid()
      reads this, inbound, outbound
    {
      && inbound != outbound
      && inbound.Valid() && outbound.Valid()
      && inbound.decode == outbound.decode && inbound.maxMessageBytes == outbound.maxMessageBytes
      && View(Outbound) == DirectionAfter(history, side, inbound.maxMessageBytes, maxTrackedRequestIds)
      && View(Inbound) == DirectionAfter(history, PeerSide(side), inbound.maxMessageBytes, maxTrackedRequestIds)
    }

    constructor (side: Side, decode: Decoder, maxMessageBytes: int, maxTrackedRequestIds: int)
      ensures Valid() && history == [] && fresh(inbound) && fresh(outbound)
      ensures this.side == side && inbound.decode == decode
      ensures inbound.history == [] && outbound.history == []
      ensures inbound.maxMessageBytes == if maxMessageBytes < 1024 then 1024 else maxMessageBytes
      ensures this.maxTrackedRequestIds == if maxTrackedRequestIds < 16 then 16 else maxTrackedRequestIds
    {
      this.side := side;
      this.maxTrackedRequestIds := if maxTrackedRequestIds < 16 then 16 else maxTrackedRequestIds;
      var first := new LineFramer(decode, maxMessageBytes);
      var second := new LineFramer(decode, maxMessageBytes);
      inbound, outbound := first, second;
      occurrences := PerFlow(map[], map[]);
      pending := PerFlow(map[], map[]);
      degradedCapacity := PerFlow(false, false);
      lost := PerFlow(None, None);
      history := [];
    }

    method DegradeFlow(flow: Flow, reason: LossReason)
      modifies `lost
      ensures View(flow) == Degrade(old(View(flow)), reason)
      ensures View(OppositeFlow(flow)) == old(View(OppositeFlow(flow)))
    {
      if lost.Get(flow).None? {
        lost := lost.Set(flow, Some(reason));
      }
    }

    method ProcessRequest(flow: Flow, m: CompletedMessage, streamId: string) returns (rows: seq<Observation>)
      requires m.kind == Request
      modifies `occurrences, `pending, `degradedCapacity, `lost
      ensures View(flow) == OwnStep(old(View(flow)), Message(m), maxTrackedRequestIds)
      ensures View(OppositeFlow(flow)) == OppositeStep(old(View(OppositeFlow(flow))), Message(m))
      ensures rows == Observe(old(View(flow)), old(View(OppositeFlow(flow))), Message(m), flow, side, streamId,
                              maxTrackedRequestIds)
    {
      if m.canonicalId.None? {
        return [Observation(Request, None, flow, m.messageBytes, None, RequestIdUnbounded)];
      }
      var id := m.canonicalId.value;
      if lost.Get(flow).Some? {
        return [Observation(Request, None, flow, m.messageBytes, None, DirectionDegraded(lost.Get(flow).value))];
      }
      if degradedCapacity.Get(flow) {
        if id !in occurrences.Get(flow) {
          return [];
        }
      } else if id !in occurrences.Get(flow) && |occurrences.Get(flow)| >= maxTrackedRequestIds {
        degradedCapacity := degradedCapacity.Set(flow, true);
        return [];
      }
      if id in pending.Get(flow) && pending.Get(flow)[id] != [] {
        DegradeFlow(flow, ConcurrentReuse);
        pending := pending.Set(flow, map[]);
        return [Observation(Request, None, flow, m.messageBytes, None, DirectionDegraded(ConcurrentReuse))];
      }
      var occurrence := (if id in occurrences.Get(flow) then occurrences.Get(flow)[id] else 0) + 1;
      occurrences := occurrences.Set(flow, occurrences.Get(flow)[id := occurrence]);
      pending := pending.Set(flow, pending.Get(flow)[id := [occurrence]]);
      return [Observation(Request, Some(Alias(streamId, OriginSideFor(flow, side), id, occurrence)),
                          flow, m.messageBytes, Some(occurrence), Attributed)];
    }

    method ProcessResponse(flow: Flow, m: CompletedMessage, streamId: string) returns (rows: seq<Observation>)
      requires m.kind == Response
      modifies `pending, `lost
      ensures View(flow) == OwnStep(old(View(flow)), Message(m), maxTrackedRequestIds)
      ensures View(OppositeFlow(flow)) == OppositeStep(old(View(OppositeFlow(flow))), Message(m))
      ensures rows == Observe(old(View(flow)), old(View(OppositeFlow(flow))), Message(m), flow, side, streamId,
                              maxTrackedRequestIds)
    {
      var opposite := OppositeFlow(flow);
      if m.canonicalId.None? {
        DegradeFlow(opposite, ResponseIdUnreadable);
        return [Observation(Response, None, flow, m.messageBytes, None, ResponseIdUnbounded)];
      }
      var id := m.canonicalId.value;
      if lost.Get(opposite).Some? {
        return [Observation(Response, None, flow, m.messageBytes, None, DirectionDegraded(lost.Get(opposite).value))];
      }
      if id !in pending.Get(opposite) || pending.Get(opposite)[id] == [] {
        return [Observation(Response, None, flow, m.messageBytes, None, ResponseWithoutObservedRequest)];
      }
      if |pending.Get(opposite)[id]| > 1 {
        DegradeFlow(opposite, ConcurrentReuse);
        return [Observation(Response, None, flow, m.messageBytes, None, DirectionDegraded(ConcurrentReuse))];
      }
      var occurrence := pending.Get(opposite)[id][0];
      pending := pending.Set(opposite, pending.Get(opposite)[id := pending.Get(opposite)[id][1..]]);
      return [Observation(Response, Some(Alias(streamId, OriginSideFor(opposite, side), id, occurrence)),
                          flow, m.messageBytes, Some(occurrence), Attributed)];
    }

    /** One round of the loop over what the framer emitted. */
    method ProcessItem(flow: Flow, item: Item, streamId: string) returns (rows: seq<Observation>)
      modifies `occurrences, `pending, `degradedCapacity, `lost
      ensures View(flow) == OwnStep(old(View(flow)), item, maxTrackedRequestIds)
      ensures View(OppositeFlow(flow)) == OppositeStep(old(View(OppositeFlow(flow))), item)
      ensures rows == Observe(old(View(flow)), old(View(OppositeFlow(flow))), item, flow, side, streamId,
                              maxTrackedRequestIds)
    {
      if item.FramingLoss? {
        DegradeFlow(flow, OversizedLine);
        return [];
      }
      var m := item.message;
      match m.kind {
        case Notification =>
          return [];
        case Other =>
          if m.note == ResponseWithoutScalarId {
            DegradeFlow(OppositeFlow(flow), ResponseIdUnreadable);
          } else {
            DegradeFlow(flow, LostLine(m.note));
          }
          return [Observation(Other, None, flow, m.messageBytes, None, NotCorrelated(m.note))];
        case Request =>
          rows := ProcessRequest(flow, m, streamId);
        case Response =>
          rows := ProcessResponse(flow, m, streamId);
      }
    }

    method ProcessItems(flow: Flow, items: seq<Item>, streamId: string) returns (rows: seq<Observation>)
      modifies `occurrences, `pending, `degradedCapacity, `lost
      ensures View(flow) == OwnAfter(old(View(flow)), items, maxTrackedRequestIds)
      ensures View(OppositeFlow(flow)) == OppositeAfter(old(View(OppositeFlow(flow))), items)
      ensures rows == ObserveItems(old(View(flow)), old(View(OppositeFlow(flow))), items, flow, side, streamId,
                                   maxTrackedRequestIds)
    {
      rows := [];
      ghost var own, opposite := View(flow), View(OppositeFlow(flow));
      assert items[..0] == [];
      for i := 0 to |items|
        invariant View(flow) == OwnAfter(own, items[..i], maxTrackedRequestIds)
        invariant View(OppositeFlow(flow)) == OppositeAfter(opposite, items[..i])
        invariant rows == ObserveItems(own, opposite, items[..i], flow, side, streamId, maxTrackedRequestIds)
      {
        OneMoreItem(own, opposite, items[..i], [items[i]], flow, side, streamId, maxTrackedRequestIds);
        assert items[..i + 1] == items[..i] + [items[i]];
        var more := ProcessItem(flow, items[i], streamId);
        rows := rows + more;
      }
      assert items[..|items|] == items;
    }

    /** One chunk of one direction: the rows and the new state depend only on the wire lines so far. */
    method Feed(streamId: string, flow: Flow, data: Bytes) returns (observations: seq<Observation>)
      requires Valid()
      modifies Repr
      ensures Valid()
      ensures FramerFor(flow).history == old(FramerFor(flow).history) + data
      ensures FramerFor(OppositeFlow(flow)).history == old(FramerFor(OppositeFlow(flow)).history)
      ensures var events := EventsOf(inbound.decode, OriginSideFor(flow, side),
                                     Lines(old(Tail(FramerFor(flow).history)) + data));
              history == old(history) + events
      ensures Rows(history, side, streamId, inbound.maxMessageBytes, maxTrackedRequestIds)
              == Rows(old(history), side, streamId, inbound.maxMessageBytes, maxTrackedRequestIds) + observations
    {
      ghost var lines := Lines(Tail(FramerFor(flow).history) + data);
      var items := FramerFor(flow).Feed(data);
      StatesOfLines(history, inbound.decode, OriginSideFor(flow, side), lines, inbound.maxMessageBytes, maxTrackedRequestIds);
      RowsOfLines(history, inbound.decode, flow, lines, side, streamId, inbound.maxMessageBytes, maxTrackedRequestIds);
      observations := ProcessItems(flow, items, streamId);
      history := history + EventsOf(inbound.decode, OriginSideFor(flow, side), lines);
    }
  }
}
