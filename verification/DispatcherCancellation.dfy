/** What a cancellation may and must do: with cancellations handled at once, or with ids that are never reused. */
module DispatcherCancellation {
  import opened Common
  import opened Dispatcher
  import opened DispatcherSafety

  ghost predicate DistinctIds(input: seq<Frame>) {
    forall j: nat, k: nat | j < k < |input| && IdAt(input, j).Some? :: IdAt(input, j) != IdAt(input, k)
  }

  /** A cancellation naming this request was read after it. */
  ghost predicate CancelledAfter(input: seq<Frame>, k: nat, n: nat) {
    IdAt(input, k).Some? && exists c: nat :: k < c < n && c < |input| && input[c] == Cancelled(IdAt(input, k).value)
  }

  /** Some request with this id was cancelled after it was read. */
  ghost predicate Named(input: seq<Frame>, id: Id, n: nat) {
    exists k: nat :: k < n && IdAt(input, k) == Some(id) && CancelledAfter(input, k, n)
  }

  lemma NamedIsOne(input: seq<Frame>, k: nat, n: nat)
    requires DistinctIds(input) && k < |input| && IdAt(input, k).Some? && Named(input, IdAt(input, k).value, n)
    ensures CancelledAfter(input, k, n)
  {
    var j: nat :| j < n && IdAt(input, j) == IdAt(input, k) && CancelledAfter(input, j, n);
    assert j == k;
  }

  lemma CancelledStays(input: seq<Frame>, k: nat, n: nat, n': nat)
    requires CancelledAfter(input, k, n) && n <= n'
    ensures CancelledAfter(input, k, n')
  {
    var c: nat :| k < c < n && c < |input| && input[c] == Cancelled(IdAt(input, k).value);
    assert k < c < n';
  }

  lemma NamedStays(input: seq<Frame>, id: Id, n: nat, n': nat)
    requires Named(input, id, n) && n <= n'
    ensures Named(input, id, n')
  {
    var k: nat :| k < n && IdAt(input, k) == Some(id) && CancelledAfter(input, k, n);
    CancelledStays(input, k, n, n');
  }

  /** The last frame read cancels any request before it that has its id. */
  lemma LastFrameCancels(input: seq<Frame>, k: nat, n: nat)
    requires k < n && 0 < n <= |input| && IdAt(input, k).Some? && input[n - 1] == Cancelled(IdAt(input, k).value)
    ensures CancelledAfter(input, k, n) && Named(input, IdAt(input, k).value, n)
  {
    assert k != n - 1;
    assert k < n - 1 < n;
  }

  // ---------------------------------------------------------------- what the reader has in hand

  predicate Handled(reader: Reader) {
    reader.Purging? || reader.Snapping? || reader.Deciding?
  }

  function HandledId(reader: Reader): Id
    requires Handled(reader)
  {
    reader.id
  }

  ghost predicate FlightKnown(input: seq<Frame>, n: nat, written: seq<nat>, flight: Flight) {
    match flight
    case NoFlight => true
    case Flight(None, _) => true
    case Flight(Some(id), done) =>
      exists k: nat :: k < n && IdAt(input, k) == Some(id) && (done ==> k in written)
  }

  /** What was read lies below `next`; the request in hand was written when it is past its write. */
  ghost predicate Grounded(input: seq<Frame>, s: State) {
    && s.next <= |input|
    && (forall k | k in s.shared.queue :: k < s.next)
    && (InMain(s.main) ==> s.main.k < s.next)
    && (s.main.Wrote? || s.main.Awaiting? || (s.main.Leaving? && !s.main.ending.Stopped?) ==> s.main.k in s.log.written)
    && (Handled(s.reader) ==> 0 < s.next && input[s.next - 1] == Cancelled(s.reader.id))
    && (s.reader.Deciding? ==> FlightKnown(input, s.next, s.log.written, s.reader.flight))
  }

  lemma FlightIsKnown(input: seq<Frame>, s: State)
    requires Grounded(input, s) && InStep(input, s)
    ensures FlightKnown(input, s.next, s.log.written, s.shared.flight)
  {
    if s.shared.flight.Flight? && s.shared.flight.id.Some? {
      assert IdAt(input, s.main.k) == s.shared.flight.id;
    }
  }

  lemma DecidingKeepsGround(input: seq<Frame>, s: State, id: Id, snapshot: Flight)
    requires Grounded(input, s)
    ensures Grounded(input, Decided(input, s, id, snapshot))
  {
  }

  lemma PurgingKeepsGround(input: seq<Frame>, s: State, id: Id)
    requires Grounded(input, s)
    ensures Grounded(input, PurgedNow(input, s, id))
  {
  }

  lemma ReadingOnKeepsGround(input: seq<Frame>, s: State)
    requires Grounded(input, s) && s.reader.Reading? && s.next < |input|
    ensures Grounded(input, s.(next := s.next + 1))
  {
  }

  lemma ReaderKeepsGround(input: seq<Frame>, capacity: nat, s: State, move: Move)
    requires Grounded(input, s) && InStep(input, s) && ReaderNext(input, capacity, s, move).Some?
    ensures Grounded(input, ReaderNext(input, capacity, s, move).value)
  {
    match move
    case Read => ReadingOnKeepsGround(input, s);
    case Purge => PurgingKeepsGround(input, s, s.reader.id);
    case Snap => FlightIsKnown(input, s);
    case Decide => DecidingKeepsGround(input, s, s.reader.id, s.reader.flight);
    case CancelAtOnce =>
      var id, read := input[s.next].target, s.(next := s.next + 1);
      ReadingOnKeepsGround(input, s);
      PurgingKeepsGround(input, read, id);
      DecidingKeepsGround(input, PurgedNow(input, read, id), id, s.shared.flight);
    case CloseInput =>
  }

  lemma FlightStaysKnown(input: seq<Frame>, n: nat, written: seq<nat>, more: seq<nat>, flight: Flight)
    requires FlightKnown(input, n, written, flight)
    ensures FlightKnown(input, n, written + more, flight)
  {
    if flight.Flight? && flight.id.Some? {
      var k: nat :| k < n && IdAt(input, k) == flight.id && (flight.written ==> k in written);
      assert flight.written ==> k in written + more;
    }
  }

  lemma MainKeepsGround(input: seq<Frame>, s: State, move: Move)
    requires Grounded(input, s) && InStep(input, s) && MainNext(input, s, move).Some?
    ensures Grounded(input, MainNext(input, s, move).value)
  {
    var s' := MainNext(input, s, move).value;
    if move.Write? {
      if s.reader.Deciding? {
        FlightStaysKnown(input, s.next, s.log.written, [s.main.k], s.reader.flight);
      }
      assert s.main.k in s'.log.written;
    } else if move.Pop? && s.shared.queue != [] {
      assert s.shared.queue[0] in s.shared.queue;
      assert forall k | k in s.shared.queue[1..] :: k in s.shared.queue;
    }
  }

  lemma {:induction false} RunIsGrounded(input: seq<Frame>, capacity: nat, moves: seq<Move>)
    requires Run(input, capacity, moves).Some?
    ensures Grounded(input, Run(input, capacity, moves).value) && InStep(input, Run(input, capacity, moves).value)
  {
    RunKeepsStep(input, capacity, moves);
    if moves != [] {
      RunIsGrounded(input, capacity, moves[..|moves| - 1]);
      var earlier := Run(input, capacity, moves[..|moves| - 1]).value;
      if ByReader(moves[|moves| - 1]) {
        ReaderKeepsGround(input, capacity, earlier, moves[|moves| - 1]);
      } else {
        MainKeepsGround(input, earlier, moves[|moves| - 1]);
      }
    }
  }

  // ---------------------------------------------------------------- markers

  lemma {:induction false} WithoutKeepsNoRepeats(markers: seq<Id>, id: Option<Id>)
    requires NoRepeats(markers)
    ensures NoRepeats(Without(markers, id))
  {
    if markers != [] {
      var front := Without(markers[..|markers| - 1], id);
      WithoutKeepsNoRepeats(markers[..|markers| - 1], id);
      assert (front + [markers[|markers| - 1]])[..|front|] == front;
      assert front + [] == front;
    }
  }

  lemma MarkingKeepsMarkers(input: seq<Frame>, s: State, id: Id, snapshot: Flight)
    requires MarkersFollow(input, s) && InStep(input, s)
    ensures MarkersFollow(input, Decided(input, s, id, snapshot))
  {
    assert (s.shared.markers + [id])[..|s.shared.markers|] == s.shared.markers;
  }

  lemma ReaderKeepsMarkers(input: seq<Frame>, capacity: nat, s: State, move: Move)
    requires MarkersFollow(input, s) && InStep(input, s) && ReaderNext(input, capacity, s, move).Some?
    ensures MarkersFollow(input, ReaderNext(input, capacity, s, move).value)
  {
    if move.Decide? {
      MarkingKeepsMarkers(input, s, s.reader.id, s.reader.flight);
    } else if move.CancelAtOnce? {
      var id := input[s.next].target;
      MarkingKeepsMarkers(input, PurgedNow(input, s.(next := s.next + 1), id), id, s.shared.flight);
    }
  }

  /** From one state to the next the markers of the request in hand are taken away, or none; it is let go only then. */
  predicate TakesMarkers(input: seq<Frame>, s: State, s': State) {
    && s'.log.leaked == s.log.leaked
    && (s'.shared.markers == s.shared.markers || (InMain(s.main) && s'.shared.markers == Without(s.shared.markers, IdAt(input, s.main.k))))
    && (InMain(s.main) ==> (InMain(s'.main) && s'.main.k == s.main.k)
                           || s'.shared.markers == Without(s.shared.markers, IdAt(input, s.main.k)))
  }

  lemma MarkerMovesTake(input: seq<Frame>, s: State, move: Move)
    requires MainNext(input, s, move).Some? && (move.Unmark? || move.Finish?)
    ensures TakesMarkers(input, s, MainNext(input, s, move).value)
  {
  }

  lemma CheckTakes(input: seq<Frame>, s: State)
    requires MainNext(input, s, Check).Some?
    ensures TakesMarkers(input, s, MainNext(input, s, Check).value)
  {
  }

  lemma OtherMovesTake(input: seq<Frame>, s: State, move: Move)
    requires MainNext(input, s, move).Some? && !move.Check? && !move.Unmark? && !move.Finish?
    ensures TakesMarkers(input, s, MainNext(input, s, move).value)
  {
  }

  lemma MainKeepsMarkers(input: seq<Frame>, s: State, move: Move)
    requires MarkersFollow(input, s) && MainNext(input, s, move).Some?
    ensures MarkersFollow(input, MainNext(input, s, move).value)
  {
    if move.Check? {
      CheckTakes(input, s);
    } else if move.Unmark? || move.Finish? {
      MarkerMovesTake(input, s, move);
    } else {
      OtherMovesTake(input, s, move);
    }
    if InMain(s.main) {
      WithoutKeepsNoRepeats(s.shared.markers, IdAt(input, s.main.k));
    }
  }

  /** In every run a marker names the request in hand or was left behind by a late third phase. */
  lemma {:induction false} RunKeepsMarkers(input: seq<Frame>, capacity: nat, moves: seq<Move>)
    requires Run(input, capacity, moves).Some?
    ensures MarkersFollow(input, Run(input, capacity, moves).value)
  {
    if moves != [] {
      RunKeepsMarkers(input, capacity, moves[..|moves| - 1]);
      RunKeepsStep(input, capacity, moves[..|moves| - 1]);
      var earlier := Run(input, capacity, moves[..|moves| - 1]).value;
      if ByReader(moves[|moves| - 1]) {
        ReaderKeepsMarkers(input, capacity, earlier, moves[|moves| - 1]);
      } else {
        MainKeepsMarkers(input, earlier, moves[|moves| - 1]);
      }
    }
  }

  lemma AtOnceLeavesNothing(input: seq<Frame>, capacity: nat, s: State, move: Move)
    requires InStep(input, s) && Next(input, capacity, s, move).Some? && !move.Decide?
    ensures Next(input, capacity, s, move).value.log.leaked == s.log.leaked
  {
  }

  lemma EndsDiffer(markers: seq<Id>)
    requires NoRepeats(markers) && |markers| > 1
    ensures exists m, n :: m in markers && n in markers && m != n
  {
    assert markers[0] in markers && markers[|markers| - 1] in markers;
    assert markers[..|markers| - 1][0] in markers[..|markers| - 1];
  }

  lemma OneNameOneMarker(markers: seq<Id>, id: Option<Id>)
    requires NoRepeats(markers) && forall m | m in markers :: Some(m) == id
    ensures |markers| <= 1
  {
    if |markers| > 1 {
      EndsDiffer(markers);
    }
  }

  lemma {:induction false} NothingIsLeaked(input: seq<Frame>, capacity: nat, moves: seq<Move>)
    requires Run(input, capacity, moves).Some? && Atomic(moves)
    ensures Run(input, capacity, moves).value.log.leaked == {}
  {
    if moves != [] {
      NothingIsLeaked(input, capacity, moves[..|moves| - 1]);
      RunKeepsStep(input, capacity, moves[..|moves| - 1]);
      AtOnceLeavesNothing(input, capacity, Run(input, capacity, moves[..|moves| - 1]).value, moves[|moves| - 1]);
    }
  }

  /** When cancellations are handled at once there is never more than one marker, and it names the request in hand:
      none outlives its request. */
  lemma AtMostOneMarker(input: seq<Frame>, capacity: nat, moves: seq<Move>)
    requires Run(input, capacity, moves).Some? && Atomic(moves)
    ensures var s := Run(input, capacity, moves).value;
            && |s.shared.markers| <= 1
            && forall m | m in s.shared.markers :: InMain(s.main) && IdAt(input, s.main.k) == Some(m)
  {
    NothingIsLeaked(input, capacity, moves);
    RunKeepsMarkers(input, capacity, moves);
    var s := Run(input, capacity, moves).value;
    OneNameOneMarker(s.shared.markers, if InMain(s.main) then IdAt(input, s.main.k) else None);
  }

  // ---------------------------------------------------------------- nothing is stopped without its cancellation

  /** Request `k` is on its way out as stopped, or is out. */
  predicate IsStopped(s: State, k: nat) {
    ((s.main.Leaving? || s.main.Unmarking?) && s.main.ending.Stopped? && s.main.k == k) || s.log.stopped[k] > 0
  }

  /** Every marker, and every stopped request, has the id of a request that was cancelled after it was read. */
  ghost predicate Justified(input: seq<Frame>, s: State) {
    && (forall m | m in s.shared.markers :: Named(input, m, s.next))
    && (forall k: nat | IsStopped(s, k) :: IdAt(input, k).Some? && Named(input, IdAt(input, k).value, s.next))
  }

  lemma DecisionIsJustified(input: seq<Frame>, s: State, id: Id, snapshot: Flight)
    requires Grounded(input, s) && InStep(input, s) && MayMark(s.shared, snapshot, id)
    requires 0 < s.next && input[s.next - 1] == Cancelled(id) && FlightKnown(input, s.next, s.log.written, snapshot)
    ensures Named(input, id, s.next)
  {
    if s.shared.pending == Some(id) {
      LastFrameCancels(input, s.main.k, s.next);
    } else {
      var k: nat :| k < s.next && IdAt(input, k) == Some(id);
      LastFrameCancels(input, k, s.next);
    }
  }

  lemma GrowingStaysJustified(input: seq<Frame>, s: State, n: nat)
    requires Justified(input, s) && s.next <= n
    ensures Justified(input, s.(next := n))
  {
    forall m | m in s.shared.markers
      ensures Named(input, m, n)
    {
      NamedStays(input, m, s.next, n);
    }
    forall k: nat | IsStopped(s, k)
      ensures IdAt(input, k).Some? && Named(input, IdAt(input, k).value, n)
    {
      NamedStays(input, IdAt(input, k).value, s.next, n);
    }
  }

  lemma DecidedIsJustified(input: seq<Frame>, s: State, id: Id, snapshot: Flight)
    requires Justified(input, s) && (MayMark(s.shared, snapshot, id) ==> Named(input, id, s.next))
    ensures Justified(input, Decided(input, s, id, snapshot))
  {
    var s' := Decided(input, s, id, snapshot);
    assert forall k: nat :: IsStopped(s', k) <==> IsStopped(s, k);
  }

  lemma PurgingStaysJustified(input: seq<Frame>, s: State, id: Id)
    requires Justified(input, s)
    ensures Justified(input, PurgedNow(input, s, id))
  {
    assert forall k: nat :: IsStopped(PurgedNow(input, s, id), k) <==> IsStopped(s, k);
  }

  lemma ReadAndPurgedIsJustified(input: seq<Frame>, s: State, id: Id)
    requires Justified(input, s)
    ensures Justified(input, PurgedNow(input, s.(next := s.next + 1), id))
  {
    GrowingStaysJustified(input, s, s.next + 1);
    PurgingStaysJustified(input, s.(next := s.next + 1), id);
  }

  lemma AtOnceIsJustified(input: seq<Frame>, s: State, id: Id)
    requires Justified(input, s) && InStep(input, s) && (InMain(s.main) ==> s.main.k < s.next)
    requires s.next < |input| && input[s.next] == Cancelled(id)
    ensures Justified(input, Decided(input, PurgedNow(input, s.(next := s.next + 1), id), id, s.shared.flight))
  {
    ReadAndPurgedIsJustified(input, s, id);
    if MayMark(s.shared, s.shared.flight, id) {
      LastFrameCancels(input, s.main.k, s.next + 1);
    }
    DecidedIsJustified(input, PurgedNow(input, s.(next := s.next + 1), id), id, s.shared.flight);
  }

  lemma ReaderStaysJustified(input: seq<Frame>, capacity: nat, s: State, move: Move)
    requires Justified(input, s) && Grounded(input, s) && InStep(input, s) && ReaderNext(input, capacity, s, move).Some?
    ensures Justified(input, ReaderNext(input, capacity, s, move).value)
  {
    match move
    case CancelAtOnce => AtOnceIsJustified(input, s, input[s.next].target);
    case Decide =>
      if MayMark(s.shared, s.reader.flight, s.reader.id) {
        DecisionIsJustified(input, s, s.reader.id, s.reader.flight);
      }
      DecidedIsJustified(input, s, s.reader.id, s.reader.flight);
    case Purge => PurgingStaysJustified(input, s, s.reader.id);
    case Read =>
      GrowingStaysJustified(input, s, s.next + 1);
      assert forall k: nat :: IsStopped(ReaderNext(input, capacity, s, Read).value, k) <==> IsStopped(s, k);
    case Snap => assert forall k: nat :: IsStopped(ReaderNext(input, capacity, s, Snap).value, k) <==> IsStopped(s, k);
    case CloseInput => assert forall k: nat :: IsStopped(ReaderNext(input, capacity, s, CloseInput).value, k) <==> IsStopped(s, k);
  }

  /** Only a check that finds the marker stops a request, and main moves add no marker. */
  lemma StoppedByAMarker(input: seq<Frame>, s: State, move: Move, k: nat)
    requires MainNext(input, s, move).Some?
    requires IsStopped(MainNext(input, s, move).value, k) && !IsStopped(s, k)
    ensures InMain(s.main) && s.main.k == k && IdAt(input, k).Some? && IdAt(input, k).value in s.shared.markers
  {
  }

  lemma MainAddsNoMarker(input: seq<Frame>, s: State, move: Move)
    requires MainNext(input, s, move).Some?
    ensures forall m | m in MainNext(input, s, move).value.shared.markers :: m in s.shared.markers
    ensures MainNext(input, s, move).value.next == s.next
  {
  }

  lemma MainStaysJustified(input: seq<Frame>, s: State, move: Move)
    requires Justified(input, s) && MainNext(input, s, move).Some?
    ensures Justified(input, MainNext(input, s, move).value)
  {
    var s' := MainNext(input, s, move).value;
    MainAddsNoMarker(input, s, move);
    forall k: nat | IsStopped(s', k)
      ensures IdAt(input, k).Some? && Named(input, IdAt(input, k).value, s'.next)
    {
      if !IsStopped(s, k) {
        StoppedByAMarker(input, s, move, k);
      }
    }
  }

  lemma {:induction false} RunStaysJustified(input: seq<Frame>, capacity: nat, moves: seq<Move>)
    requires Run(input, capacity, moves).Some?
    ensures Justified(input, Run(input, capacity, moves).value)
  {
    if moves != [] {
      RunStaysJustified(input, capacity, moves[..|moves| - 1]);
      RunIsGrounded(input, capacity, moves[..|moves| - 1]);
      var earlier := Run(input, capacity, moves[..|moves| - 1]).value;
      if ByReader(moves[|moves| - 1]) {
        ReaderStaysJustified(input, capacity, earlier, moves[|moves| - 1]);
      } else {
        MainStaysJustified(input, earlier, moves[|moves| - 1]);
      }
    }
  }

  /** With cancellations handled at once a marker was set for the request in hand itself. */
  ghost predicate JustifiedAtOnce(input: seq<Frame>, s: State) {
    && (forall m | m in s.shared.markers :: InMain(s.main) && IdAt(input, s.main.k) == Some(m) && CancelledAfter(input, s.main.k, s.next))
    && (forall k: nat | IsStopped(s, k) :: CancelledAfter(input, k, s.next))
  }

  lemma ReaderStaysAtOnce(input: seq<Frame>, capacity: nat, s: State, move: Move)
    requires JustifiedAtOnce(input, s) && Grounded(input, s) && InStep(input, s) && ReaderNext(input, capacity, s, move).Some?
    requires !move.Decide?
    ensures JustifiedAtOnce(input, ReaderNext(input, capacity, s, move).value)
  {
    var s' := ReaderNext(input, capacity, s, move).value;
    forall m | m in s'.shared.markers
      ensures InMain(s'.main) && IdAt(input, s'.main.k) == Some(m) && CancelledAfter(input, s'.main.k, s'.next)
    {
      if m in s.shared.markers {
        CancelledStays(input, s.main.k, s.next, s'.next);
      } else {
        assert move.CancelAtOnce? && m == input[s.next].target;
        LastFrameCancels(input, s.main.k, s'.next);
      }
    }
    forall k: nat | IsStopped(s', k)
      ensures CancelledAfter(input, k, s'.next)
    {
      assert IsStopped(s, k);
      CancelledStays(input, k, s.next, s'.next);
    }
  }

  lemma MainKeepsMarkersAtOnce(input: seq<Frame>, s: State, move: Move, m: Id)
    requires MainNext(input, s, move).Some? && m in MainNext(input, s, move).value.shared.markers
    requires InMain(s.main) && IdAt(input, s.main.k) == Some(m)
    ensures InMain(MainNext(input, s, move).value.main) && MainNext(input, s, move).value.main.k == s.main.k
  {
  }

  lemma MainStaysAtOnce(input: seq<Frame>, s: State, move: Move)
    requires JustifiedAtOnce(input, s) && MainNext(input, s, move).Some?
    ensures JustifiedAtOnce(input, MainNext(input, s, move).value)
  {
    var s' := MainNext(input, s, move).value;
    MainAddsNoMarker(input, s, move);
    forall m | m in s'.shared.markers
      ensures InMain(s'.main) && IdAt(input, s'.main.k) == Some(m) && CancelledAfter(input, s'.main.k, s'.next)
    {
      MainKeepsMarkersAtOnce(input, s, move, m);
    }
    forall k: nat | IsStopped(s', k)
      ensures CancelledAfter(input, k, s'.next)
    {
      if !IsStopped(s, k) {
        StoppedByAMarker(input, s, move, k);
      }
    }
  }

  lemma {:induction false} RunStaysAtOnce(input: seq<Frame>, capacity: nat, moves: seq<Move>)
    requires Run(input, capacity, moves).Some? && Atomic(moves)
    ensures JustifiedAtOnce(input, Run(input, capacity, moves).value)
  {
    if moves != [] {
      RunStaysAtOnce(input, capacity, moves[..|moves| - 1]);
      RunIsGrounded(input, capacity, moves[..|moves| - 1]);
      var earlier := Run(input, capacity, moves[..|moves| - 1]).value;
      if ByReader(moves[|moves| - 1]) {
        ReaderStaysAtOnce(input, capacity, earlier, moves[|moves| - 1]);
      } else {
        MainStaysAtOnce(input, earlier, moves[|moves| - 1]);
      }
    }
  }

  // ---------------------------------------------------------------- what else ends a request

  ghost predicate EndedForAReason(input: seq<Frame>, s: State, k: nat) {
    && (s.log.purged[k] > 0 ==> CancelledAfter(input, k, s.next))
    && (s.log.dropped[k] + s.log.abandoned[k] > 0 ==> s.shared.closed)
    && ((s.main.Leaving? || s.main.Unmarking?) && s.main.ending.Abandoned? ==> s.shared.closed)
  }

  lemma PurgedWasQueued(input: seq<Frame>, s: State, id: Id, k: nat)
    requires PurgedNow(input, s, id).log.purged[k] > s.log.purged[k]
    ensures k in s.shared.queue && IdAt(input, k) == Some(id)
  {
    PurgedCount(input, s.shared.queue, id, k);
    assert k in multiset(s.shared.queue);
  }

  lemma PurgingHasAReason(input: seq<Frame>, s: State, id: Id, k: nat)
    requires 0 < s.next <= |input| && input[s.next - 1] == Cancelled(id)
    requires (forall q | q in s.shared.queue :: q < s.next) && EndedForAReason(input, s, k)
    ensures EndedForAReason(input, PurgedNow(input, s, id), k)
  {
    if PurgedNow(input, s, id).log.purged[k] > s.log.purged[k] {
      PurgedWasQueued(input, s, id, k);
      LastFrameCancels(input, k, s.next);
    }
  }

  lemma ReadingHasAReason(input: seq<Frame>, s: State, k: nat)
    requires EndedForAReason(input, s, k)
    ensures EndedForAReason(input, s.(next := s.next + 1), k)
  {
    if s.log.purged[k] > 0 {
      CancelledStays(input, k, s.next, s.next + 1);
    }
  }

  lemma DecidedHasAReason(input: seq<Frame>, s: State, id: Id, snapshot: Flight, k: nat)
    requires EndedForAReason(input, s, k)
    ensures EndedForAReason(input, Decided(input, s, id, snapshot), k)
  {
  }

  lemma ReadAndPurgedHasAReason(input: seq<Frame>, s: State, id: Id, k: nat)
    requires EndedForAReason(input, s, k) && Grounded(input, s) && s.next < |input| && input[s.next] == Cancelled(id)
    ensures EndedForAReason(input, PurgedNow(input, s.(next := s.next + 1), id), k)
  {
    ReadingHasAReason(input, s, k);
    PurgingHasAReason(input, s.(next := s.next + 1), id, k);
  }

  lemma AtOnceHasAReason(input: seq<Frame>, s: State, id: Id, k: nat)
    requires EndedForAReason(input, s, k) && Grounded(input, s) && s.next < |input| && input[s.next] == Cancelled(id)
    ensures EndedForAReason(input, Decided(input, PurgedNow(input, s.(next := s.next + 1), id), id, s.shared.flight), k)
  {
    ReadAndPurgedHasAReason(input, s, id, k);
    DecidedHasAReason(input, PurgedNow(input, s.(next := s.next + 1), id), id, s.shared.flight, k);
  }

  lemma ReaderHasAReason(input: seq<Frame>, capacity: nat, s: State, move: Move, k: nat)
    requires EndedForAReason(input, s, k) && Grounded(input, s) && ReaderNext(input, capacity, s, move).Some?
    ensures EndedForAReason(input, ReaderNext(input, capacity, s, move).value, k)
  {
    match move
    case Purge => PurgingHasAReason(input, s, s.reader.id, k);
    case CancelAtOnce => AtOnceHasAReason(input, s, input[s.next].target, k);
    case Decide => DecidedHasAReason(input, s, s.reader.id, s.reader.flight, k);
    case Read => ReadingHasAReason(input, s, k);
    case _ =>
  }

  lemma MainHasAReason(input: seq<Frame>, s: State, move: Move, k: nat)
    requires EndedForAReason(input, s, k) && MainNext(input, s, move).Some?
    ensures EndedForAReason(input, MainNext(input, s, move).value, k)
  {
  }

  lemma {:induction false} RunHasReasons(input: seq<Frame>, capacity: nat, moves: seq<Move>, k: nat)
    requires Run(input, capacity, moves).Some?
    ensures EndedForAReason(input, Run(input, capacity, moves).value, k)
  {
    if moves != [] {
      RunHasReasons(input, capacity, moves[..|moves| - 1], k);
      RunIsGrounded(input, capacity, moves[..|moves| - 1]);
      var earlier := Run(input, capacity, moves[..|moves| - 1]).value;
      if ByReader(moves[|moves| - 1]) {
        ReaderHasAReason(input, capacity, earlier, moves[|moves| - 1], k);
      } else {
        MainHasAReason(input, earlier, moves[|moves| - 1], k);
      }
    }
  }

  /** With cancellations handled at once, or with ids that are never reused, every request that was read is waiting, in
      hand, or answered exactly once, unless it was never written and a cancellation naming it was read after it, or stdin
      was closed. */
  lemma EveryRequestIsAnsweredOnce(input: seq<Frame>, capacity: nat, moves: seq<Move>, k: nat)
    requires Run(input, capacity, moves).Some? && (Atomic(moves) || DistinctIds(input))
    requires k < Run(input, capacity, moves).value.next && k < |input| && input[k].Request?
    ensures var s := Run(input, capacity, moves).value;
            || s.log.replied[k] + s.log.refused[k] == 1
            || k in s.shared.queue || InHand(s.main, k) == 1
            || (k !in s.log.written && CancelledAfter(input, k, s.next)) || s.shared.closed
  {
    var s := Run(input, capacity, moves).value;
    RequestsAreConserved(input, capacity, moves, k);
    WrittenIsNeverDiscarded(input, capacity, moves, k);
    RunHasReasons(input, capacity, moves, k);
    if s.log.stopped[k] > 0 {
      assert IsStopped(s, k);
      if Atomic(moves) {
        RunStaysAtOnce(input, capacity, moves);
      } else {
        RunStaysJustified(input, capacity, moves);
        NamedIsOne(input, k, s.next);
      }
    }
    assert k in multiset(s.shared.queue) ==> k in s.shared.queue;
  }

  // ---------------------------------------------------------------- a cancellation in time stops the write

  /** A cancellation that was done with before the last check of a request keeps it from being written. */
  predicate IsBarred(input: seq<Frame>, s: State, k: nat) {
    && k < s.next && k !in s.shared.queue && k !in s.log.written
    && (InMain(s.main) && s.main.k == k ==>
          && !s.main.Writing? && !s.main.Wrote?
          && (Unchecked(s.main).Some? ==> IdAt(input, k).Some? && IdAt(input, k).value in s.shared.markers))
  }

  ghost predicate Bars(input: seq<Frame>, s: State) {
    forall k | k in s.log.barred :: IsBarred(input, s, k)
  }

  /** A written flight is not mistaken for a later request with the same id. */
  ghost predicate ForwardsRightly(input: seq<Frame>, s: State, id: Id, snapshot: Flight) {
    MustForward(snapshot, id) ==> Barred(input, s, id) == {}
  }

  lemma UncheckedIsNowhereElse(s: State)
    requires Ordered(s) && Unchecked(s.main).Some?
    ensures s.main.k < s.next && s.main.k !in s.log.written && s.main.k !in s.shared.queue
  {
    IncreasingByPosition(Pipeline(s));
    var at := |s.log.written|;
    assert Pipeline(s)[at] == s.main.k && s.main.k in Pipeline(s);
    assert forall i | 0 <= i < at :: Pipeline(s)[i] == s.log.written[i];
    assert forall i | 0 <= i < |s.shared.queue| :: Pipeline(s)[at + 1 + i] == s.shared.queue[i];
  }

  lemma DistinctForwardsRightly(input: seq<Frame>, s: State, id: Id, snapshot: Flight)
    requires DistinctIds(input) && Grounded(input, s) && Ordered(s) && FlightKnown(input, s.next, s.log.written, snapshot)
    ensures ForwardsRightly(input, s, id, snapshot)
  {
    if Unchecked(s.main).Some? {
      UncheckedIsNowhereElse(s);
    }
  }

  lemma CurrentForwardsRightly(input: seq<Frame>, s: State, id: Id)
    requires InStep(input, s)
    ensures ForwardsRightly(input, s, id, s.shared.flight)
  {
  }

  lemma DecidingBars(input: seq<Frame>, s: State, id: Id, snapshot: Flight)
    requires Bars(input, s) && InStep(input, s) && Ordered(s) && ForwardsRightly(input, s, id, snapshot)
    ensures Bars(input, Decided(input, s, id, snapshot))
  {
    if Barred(input, s, id) != {} {
      UncheckedIsNowhereElse(s);
    }
  }

  lemma PurgingBars(input: seq<Frame>, s: State, id: Id)
    requires Bars(input, s)
    ensures Bars(input, PurgedNow(input, s, id))
  {
  }

  lemma DecidingNowBars(input: seq<Frame>, s: State, id: Id)
    requires Bars(input, s) && InStep(input, s) && Ordered(s)
    ensures Bars(input, Decided(input, s, id, s.shared.flight))
  {
    CurrentForwardsRightly(input, s, id);
    DecidingBars(input, s, id, s.shared.flight);
  }

  lemma ReadAndPurgedBars(input: seq<Frame>, s: State, id: Id)
    requires Bars(input, s) && InStep(input, s) && Ordered(s)
    ensures var s' := PurgedNow(input, s.(next := s.next + 1), id);
            Bars(input, s') && InStep(input, s') && Ordered(s') && s'.shared.flight == s.shared.flight
  {
    PurgingBars(input, s.(next := s.next + 1), id);
    PurgedKeepsOrdered(input, s, PurgedNow(input, s.(next := s.next + 1), id), id);
  }

  lemma AtOnceBars(input: seq<Frame>, s: State, id: Id)
    requires Bars(input, s) && InStep(input, s) && Ordered(s)
    ensures Bars(input, Decided(input, PurgedNow(input, s.(next := s.next + 1), id), id, s.shared.flight))
  {
    ReadAndPurgedBars(input, s, id);
    DecidingNowBars(input, PurgedNow(input, s.(next := s.next + 1), id), id);
  }

  lemma ReadingBars(input: seq<Frame>, capacity: nat, s: State, move: Move)
    requires Bars(input, s) && ReaderNext(input, capacity, s, move).Some? && (move.Read? || move.Snap? || move.CloseInput?)
    ensures Bars(input, ReaderNext(input, capacity, s, move).value)
  {
  }

  lemma ReaderBars(input: seq<Frame>, capacity: nat, s: State, move: Move)
    requires Bars(input, s) && InStep(input, s) && Ordered(s) && ReaderNext(input, capacity, s, move).Some?
    requires move.Decide? ==> ForwardsRightly(input, s, s.reader.id, s.reader.flight)
    ensures Bars(input, ReaderNext(input, capacity, s, move).value)
  {
    match move
    case Decide => DecidingBars(input, s, s.reader.id, s.reader.flight);
    case Purge => PurgingBars(input, s, s.reader.id);
    case CancelAtOnce => AtOnceBars(input, s, input[s.next].target);
    case _ => ReadingBars(input, capacity, s, move);
  }

  lemma PoppingBars(input: seq<Frame>, s: State)
    requires Bars(input, s) && MainNext(input, s, Pop).Some?
    ensures Bars(input, MainNext(input, s, Pop).value)
  {
    if s.shared.queue != [] {
      assert s.shared.queue[0] in s.shared.queue;
      assert forall k | k in s.shared.queue[1..] :: k in s.shared.queue;
    }
  }

  lemma MainKeepsBarred(input: seq<Frame>, s: State, move: Move, k: nat)
    requires IsBarred(input, s, k) && MainNext(input, s, move).Some? && !move.Pop?
    ensures IsBarred(input, MainNext(input, s, move).value, k)
  {
  }

  lemma MainBars(input: seq<Frame>, s: State, move: Move)
    requires Bars(input, s) && MainNext(input, s, move).Some? && !move.Pop?
    ensures Bars(input, MainNext(input, s, move).value)
  {
    assert MainNext(input, s, move).value.log.barred == s.log.barred;
    forall k | k in s.log.barred
      ensures IsBarred(input, MainNext(input, s, move).value, k)
    {
      MainKeepsBarred(input, s, move, k);
    }
  }

  /** A cancellation that was done with while its request was taken from the queue but not yet past its last check
      keeps it from ever being written, when cancellations are handled at once or ids are never reused. */
  lemma {:induction false} CancelledInTimeIsNeverWritten(input: seq<Frame>, capacity: nat, moves: seq<Move>)
    requires Run(input, capacity, moves).Some? && (Atomic(moves) || DistinctIds(input))
    ensures Bars(input, Run(input, capacity, moves).value)
  {
    if moves != [] {
      CancelledInTimeIsNeverWritten(input, capacity, moves[..|moves| - 1]);
      RunIsGrounded(input, capacity, moves[..|moves| - 1]);
      WritesKeepArrivalOrder(input, capacity, moves[..|moves| - 1]);
      var earlier, move := Run(input, capacity, moves[..|moves| - 1]).value, moves[|moves| - 1];
      if ByReader(move) {
        if move.Decide? {
          DistinctForwardsRightly(input, earlier, earlier.reader.id, earlier.reader.flight);
        }
        ReaderBars(input, capacity, earlier, move);
      } else if move.Pop? {
        PoppingBars(input, earlier);
      } else {
        MainBars(input, earlier, move);
      }
    }
  }
}
