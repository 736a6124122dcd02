/** Serialized dispatch with cancellation (legacy_modern_stdio.py): a reader thread and a main loop share the request
    queue, the pending id, the in-flight request and the cancellation markers. */
module Dispatcher {
  import opened Common

  type Id = nat

  /** One stdin frame; a request id of None is JSON null or no scalar, which no cancellation can name. */
  datatype Frame = Request(id: Option<Id>, business: bool) | Cancelled(target: Id) | OtherFrame

  /** The exchange with the backend, under `_state_lock`. */
  datatype Flight = NoFlight | Flight(id: Option<Id>, written: bool)

  /** What the two threads share. The queue holds positions of the input. */
  datatype Shared = Shared(queue: seq<nat>, pending: Option<Id>, flight: Flight, markers: seq<Id>, closed: bool)

  const IDLE := Shared([], None, NoFlight, [], false)

  function IdAt(input: seq<Frame>, k: nat): Option<Id> {
    if k < |input| && input[k].Request? then input[k].id else None
  }

  // ---------------------------------------------------------------- the locked regions

  function Without(markers: seq<Id>, id: Option<Id>): (rest: seq<Id>)
    ensures forall m :: m in rest <==> m in markers && Some(m) != id
    ensures |rest| <= |markers|
  {
    if markers == [] then []
    else Without(markers[..|markers| - 1], id) + if Some(markers[|markers| - 1]) == id then [] else [markers[|markers| - 1]]
  }

  function Purged(input: seq<Frame>, queue: seq<nat>, id: Id): (rest: seq<nat>)
    ensures forall k :: k in rest <==> k in queue && IdAt(input, k) != Some(id)
  {
    if queue == [] then []
    else Purged(input, queue[..|queue| - 1], id)
         + if IdAt(input, queue[|queue| - 1]) == Some(id) then [] else [queue[|queue| - 1]]
  }

  predicate MustForward(flight: Flight, id: Id) {
    flight.Flight? && flight.id == Some(id) && flight.written
  }

  /** The third phase, on a snapshot of the flight. */
  predicate MayMark(s: Shared, flight: Flight, id: Id) {
    s.pending == Some(id) || (flight.Flight? && flight.id == Some(id) && !flight.written)
  }

  function Marked(s: Shared, flight: Flight, id: Id): Shared {
    if MayMark(s, flight, id) && id !in s.markers then s.(markers := s.markers + [id]) else s
  }

  function Unmarked(s: Shared, id: Option<Id>): Shared {
    s.(markers := Without(s.markers, id))
  }

  function Finished(s: Shared, id: Option<Id>): Shared {
    Unmarked(s.(pending := if s.pending == id then None else s.pending), id)
  }

  /** The adapter's shared fields; each method is one locked region. */
  class LegacyModernStdio {
    const input: seq<Frame>
    const capacity: nat
    var queue: seq<nat>
    var pending: Option<Id>
    var flight: Flight
    var markers: seq<Id>
    var closed: bool

    function View(): Shared
      reads this
    {
      Shared(queue, pending, flight, markers, closed)
    }

    constructor (input: seq<Frame>, capacity: nat)
      ensures View() == IDLE && this.input == input && this.capacity == capacity
    {
      this.input, this.capacity := input, capacity;
      queue, pending, flight, markers, closed := [], None, NoFlight, [], false;
    }

    /** A full queue refuses the request, which is never executed. */
    method Enqueue(k: nat) returns (overflow: bool)
      modifies this`queue
      ensures overflow <==> |old(queue)| >= capacity
      ensures View() == if overflow then old(View()) else old(View()).(queue := old(queue) + [k])
    {
      overflow := |queue| >= capacity;
      if !overflow {
        queue := queue + [k];
      }
    }

    method PurgeQueued(id: Id)
      modifies this`queue
      ensures View() == old(View()).(queue := Purged(input, old(queue), id))
    {
      var rest := [];
      for i := 0 to |queue|
        invariant queue == old(queue)
        invariant rest == Purged(input, queue[..i], id)
      {
        assert queue[..i + 1][..i] == queue[..i];
        if IdAt(input, queue[i]) != Some(id) {
          rest := rest + [queue[i]];
        }
      }
      assert queue[..|queue|] == queue;
      queue := rest;
    }

    method MarkIfLive(id: Id, snapshot: Flight)
      modifies this`markers
      ensures View() == Marked(old(View()), snapshot, id)
    {
      if pending == Some(id) || (snapshot.Flight? && snapshot.id == Some(id) && !snapshot.written) {
        if id !in markers {
          markers := markers + [id];
        }
      }
    }

    /** After stdin closed no request is popped, and queued work is dropped. */
    method PopNextRequest() returns (popped: Option<nat>)
      requires queue != [] || closed
      modifies this`queue, this`pending
      ensures popped == if old(closed) then None else Some(old(queue)[0])
      ensures View() == if old(closed) then old(View()).(queue := [])
                        else old(View()).(queue := old(queue)[1..], pending := IdAt(input, old(queue)[0]))
    {
      if closed {
        queue := [];
        return None;
      }
      popped := Some(queue[0]);
      pending := IdAt(input, queue[0]);
      queue := queue[1..];
    }

    method RemoveMarker(id: Option<Id>)
      modifies this`markers
      ensures View() == Unmarked(old(View()), id)
    {
      var rest := [];
      for i := 0 to |markers|
        invariant markers == old(markers)
        invariant rest == Without(markers[..i], id)
      {
        assert markers[..i + 1][..i] == markers[..i];
        if Some(markers[i]) != id {
          rest := rest + [markers[i]];
        }
      }
      assert markers[..|markers|] == markers;
      markers := rest;
    }

    /** A check before the write; a marker is taken away and stops it. */
    method CheckCancelled(id: Option<Id>) returns (cancelled: bool)
      modifies this`markers
      ensures cancelled <==> id.Some? && id.value in old(markers)
      ensures View() == if cancelled then Unmarked(old(View()), id) else old(View())
    {
      cancelled := id.Some? && id.value in markers;
      if cancelled {
        RemoveMarker(id);
      }
    }

    method FinishRequest(id: Option<Id>)
      modifies this`markers, this`pending
      ensures View() == Finished(old(View()), id)
    {
      if pending == id {
        pending := None;
      }
      RemoveMarker(id);
    }
  }

  // ---------------------------------------------------------------- the two threads

  datatype Reader = Reading | Purging(id: Id) | Snapping(id: Id) | Deciding(id: Id, flight: Flight) | Closed

  datatype Ending = WithReply | Stopped | Abandoned

  /** Where the main loop stands with request `k`. */
  datatype Main =
    | Idle
    | Handling(k: nat)
    | Registered(k: nat)
    | Checked(k: nat)
    | Writing(k: nat)
    | Wrote(k: nat)
    | Awaiting(k: nat)
    | Leaving(k: nat, ending: Ending)
    | Unmarking(k: nat, ending: Ending)
    | Replying(k: nat)
    | Finishing(k: nat)
    | Ended

  /** What became of the requests: backend writes in order, and for each of the ways out how often. */
  datatype Log = Log(
    written: seq<nat>,
    replied: multiset<nat>, refused: multiset<nat>, purged: multiset<nat>, stopped: multiset<nat>,
    dropped: multiset<nat>, abandoned: multiset<nat>,
    /** Ids marked after their request was finished, and requests a cancellation was done with before their write. */
    leaked: set<Id>, barred: set<nat>)

  const NO_LOG := Log([], multiset{}, multiset{}, multiset{}, multiset{}, multiset{}, multiset{}, {}, {})

  datatype State = State(shared: Shared, reader: Reader, main: Main, next: nat, log: Log)

  const INITIAL := State(IDLE, Reading, Idle, 0, NO_LOG)

  datatype Move =
    | Read | Purge | Snap | Decide | CancelAtOnce | CloseInput
    | Pop | Answer | Dispatch | Check | Write(delivered: bool) | NoteWritten | Settle(answered: bool) | Leave | Unmark | Reply | Finish

  /** The request the main loop has in hand before its last check. */
  function Unchecked(main: Main): Option<nat> {
    if main.Handling? || main.Registered? || main.Checked? then Some(main.k) else None
  }

  function Barred(input: seq<Frame>, s: State, id: Id): set<nat> {
    match Unchecked(s.main)
    case Some(k) => if IdAt(input, k) == Some(id) then {k} else {}
    case None => {}
  }

  /** The end of a cancellation: forwarded to the backend, marked, or ignored. */
  function Decided(input: seq<Frame>, s: State, id: Id, snapshot: Flight): State {
    var log := s.log.(barred := s.log.barred + Barred(input, s, id));
    if MustForward(snapshot, id) then s.(reader := Reading, log := log)
    else
      s.(reader := Reading, shared := Marked(s.shared, snapshot, id),
         log := log.(leaked := log.leaked + if MayMark(s.shared, snapshot, id) && s.shared.pending != Some(id) then {id} else {}))
  }

  function PurgedNow(input: seq<Frame>, s: State, id: Id): State {
    var rest := Purged(input, s.shared.queue, id);
    s.(shared := s.shared.(queue := rest), log := s.log.(purged := s.log.purged + (multiset(s.shared.queue) - multiset(rest))))
  }

  function ReaderNext(input: seq<Frame>, capacity: nat, s: State, move: Move): Option<State> {
    match move
    case Read =>
      if s.reader.Reading? && s.next < |input| then (
        match input[s.next]
        case Request(_, _) =>
          if |s.shared.queue| >= capacity then
            Some(s.(next := s.next + 1, log := s.log.(refused := s.log.refused + multiset{s.next})))
          else Some(s.(next := s.next + 1, shared := s.shared.(queue := s.shared.queue + [s.next])))
        case Cancelled(id) => Some(s.(next := s.next + 1, reader := Purging(id)))
        case OtherFrame => Some(s.(next := s.next + 1)))
      else None
    case Purge => if s.reader.Purging? then Some(PurgedNow(input, s, s.reader.id).(reader := Snapping(s.reader.id))) else None
    case Snap => if s.reader.Snapping? then Some(s.(reader := Deciding(s.reader.id, s.shared.flight))) else None
    case Decide => if s.reader.Deciding? then Some(Decided(input, s, s.reader.id, s.reader.flight)) else None
    case CancelAtOnce =>
      if s.reader.Reading? && s.next < |input| && input[s.next].Cancelled? then
        var id := input[s.next].target;
        Some(Decided(input, PurgedNow(input, s.(next := s.next + 1), id), id, s.shared.flight))
      else None
    case CloseInput =>
      if s.reader.Reading? then Some(s.(reader := Closed, shared := s.shared.(closed := true))) else None
    case _ => None
  }

  function CheckedFor(input: seq<Frame>, s: State, k: nat, after: Main): State {
    var id := IdAt(input, k);
    if id.Some? && id.value in s.shared.markers then s.(shared := Unmarked(s.shared, id), main := Leaving(k, Stopped))
    else s.(main := after)
  }

  /** `_run_main` and `_dispatch_serialized`. */
  function MainNext(input: seq<Frame>, s: State, move: Move): Option<State> {
    match move
    case Pop =>
      if !s.main.Idle? then None
      else if s.shared.closed then
        Some(s.(main := Ended, shared := s.shared.(queue := []), log := s.log.(dropped := s.log.dropped + multiset(s.shared.queue))))
      else if s.shared.queue == [] then None
      else
        var k := s.shared.queue[0];
        Some(s.(main := Handling(k), shared := s.shared.(queue := s.shared.queue[1..], pending := IdAt(input, k))))
    case Answer => if s.main.Handling? then Some(s.(main := Replying(s.main.k))) else None
    case Dispatch =>
      if s.main.Handling? && s.main.k < |input| && input[s.main.k] == Request(IdAt(input, s.main.k), true) then
        Some(s.(main := Registered(s.main.k), shared := s.shared.(flight := Flight(IdAt(input, s.main.k), false))))
      else None
    case Check =>
      if s.main.Registered? then Some(CheckedFor(input, s, s.main.k, Checked(s.main.k)))
      else if s.main.Checked? then Some(CheckedFor(input, s, s.main.k, Writing(s.main.k)))
      else None
    case Write(delivered) =>
      if s.main.Writing? then
        Some(s.(main := if delivered then Wrote(s.main.k) else Leaving(s.main.k, WithReply),
                log := s.log.(written := s.log.written + [s.main.k])))
      else None
    case NoteWritten =>
      if s.main.Wrote? then
        Some(s.(main := Awaiting(s.main.k), shared := s.shared.(flight := Flight(IdAt(input, s.main.k), true))))
      else None
    case Settle(answered) =>
      if s.main.Awaiting? && (answered || s.shared.closed) then
        Some(s.(main := Leaving(s.main.k, if answered then WithReply else Abandoned)))
      else None
    case Leave =>
      if s.main.Leaving? then
        Some(s.(main := Unmarking(s.main.k, s.main.ending), shared := s.shared.(flight := NoFlight)))
      else None
    case Unmark => if s.main.Unmarking? then Some(Left(s.(shared := Unmarked(s.shared, IdAt(input, s.main.k))), s.main.k, s.main.ending)) else None
    case Reply =>
      if s.main.Replying? then
        Some(s.(main := Finishing(s.main.k), log := s.log.(replied := s.log.replied + multiset{s.main.k})))
      else None
    case Finish => if s.main.Finishing? then Some(s.(main := Idle, shared := Finished(s.shared, IdAt(input, s.main.k)))) else None
    case _ => None
  }

  function Left(s: State, k: nat, ending: Ending): State {
    match ending
    case WithReply => s.(main := Replying(k))
    case Stopped => s.(main := Finishing(k), log := s.log.(stopped := s.log.stopped + multiset{k}))
    case Abandoned => s.(main := Finishing(k), log := s.log.(abandoned := s.log.abandoned + multiset{k}))
  }

  predicate ByReader(move: Move) {
    move.Read? || move.Purge? || move.Snap? || move.Decide? || move.CancelAtOnce? || move.CloseInput?
  }

  function Next(input: seq<Frame>, capacity: nat, s: State, move: Move): Option<State> {
    if ByReader(move) then ReaderNext(input, capacity, s, move) else MainNext(input, s, move)
  }

  /** The state after `moves`, if each was possible. */
  function Run(input: seq<Frame>, capacity: nat, moves: seq<Move>): Option<State> {
    if moves == [] then Some(INITIAL)
    else
      var earlier := Run(input, capacity, moves[..|moves| - 1]);
      if earlier.None? then None else Next(input, capacity, earlier.value, moves[|moves| - 1])
  }

  /** Every cancellation is handled in one step. */
  predicate Atomic(moves: seq<Move>) {
    forall move | move in moves :: !move.Purge? && !move.Snap? && !move.Decide?
  }

  /** Every cancellation is handled in its three phases, as the source does. */
  predicate Split(moves: seq<Move>) {
    forall move | move in moves :: !move.CancelAtOnce?
  }
}
