/** A cancellation in three phases can leave its marker behind. */
module DispatcherExamples {
  import opened Common
  import opened Dispatcher

  /** A call, its cancellation, and a later call that reuses the id. */
  const REUSE: seq<Frame> := [Request(Some(5), true), Cancelled(5), Request(Some(5), true)]

  lemma Then(moves: seq<Move>, s: State, move: Move) returns (longer: seq<Move>, s': State)
    requires Run(REUSE, 8, moves) == Some(s) && Next(REUSE, 8, s, move).Some?
    ensures longer == moves + [move] && Run(REUSE, 8, longer) == Some(s') && s' == Next(REUSE, 8, s, move).value
    ensures Split(moves) && !move.CancelAtOnce? ==> Split(longer)
  {
    longer, s' := moves + [move], Next(REUSE, 8, s, move).value;
    assert longer[..|longer| - 1] == moves;
  }

  /** The first call is registered but not written when the cancellation looks at it. */
  const SEEN := State(Shared([], Some(5), Flight(Some(5), false), [], false), Deciding(5, Flight(Some(5), false)), Registered(0), 2, NO_LOG)
  const CANCELLING := SEEN.(reader := Purging(5))

  lemma StartFirst() returns (moves: seq<Move>)
    ensures Run(REUSE, 8, moves) == Some(CANCELLING) && Split(moves)
  {
    var s;
    moves, s := Then([], INITIAL, Read);
    moves, s := Then(moves, s, Pop);
    moves, s := Then(moves, s, Dispatch);
    moves, s := Then(moves, s, Read);
    assert s.shared.queue == [];
  }

  lemma PurgeFindsNothing()
    ensures Next(REUSE, 8, CANCELLING, Purge) == Some(SEEN.(reader := Snapping(5)))
  {
    assert Purged(REUSE, [], 5) == [];
    assert CANCELLING.log.purged + (multiset(CANCELLING.shared.queue) - multiset(Purged(REUSE, [], 5))) == multiset{};
  }

  lemma LookTooEarly() returns (moves: seq<Move>)
    ensures Run(REUSE, 8, moves) == Some(SEEN) && Split(moves)
  {
    moves := StartFirst();
    PurgeFindsNothing();
    var s;
    moves, s := Then(moves, CANCELLING, Purge);
    moves, s := Then(moves, s, Snap);
  }

  const WRITTEN := SEEN.(main := Wrote(0), log := NO_LOG.(written := [0]))

  lemma WriteFirst() returns (moves: seq<Move>)
    ensures Run(REUSE, 8, moves) == Some(WRITTEN) && Split(moves)
  {
    moves := LookTooEarly();
    var s;
    moves, s := Then(moves, SEEN, Check);
    moves, s := Then(moves, s, Check);
    moves, s := Then(moves, s, Write(true));
    assert s.log.written == [0];
  }

  const LEFT := WRITTEN.(main := Leaving(0, WithReply), shared := WRITTEN.shared.(flight := Flight(Some(5), true)))

  lemma AnswerFirst() returns (moves: seq<Move>)
    ensures Run(REUSE, 8, moves) == Some(LEFT) && Split(moves)
  {
    moves := WriteFirst();
    var s;
    moves, s := Then(moves, WRITTEN, NoteWritten);
    moves, s := Then(moves, s, Settle(true));
  }

  /** By the time it decides the call has been written, answered and finished. */
  const FINISHED := SEEN.(shared := IDLE, main := Idle, log := NO_LOG.(written := [0], replied := multiset{0}))

  lemma FinishFirst() returns (moves: seq<Move>)
    ensures Run(REUSE, 8, moves) == Some(FINISHED) && Split(moves)
  {
    moves := AnswerFirst();
    assert Without([], Some(5)) == [];
    var s;
    moves, s := Then(moves, LEFT, Leave);
    moves, s := Then(moves, s, Unmark);
    moves, s := Then(moves, s, Reply);
    moves, s := Then(moves, s, Finish);
    assert s.shared == IDLE && s.log == FINISHED.log;
  }

  const LEAKED := FINISHED.(shared := IDLE.(markers := [5]), reader := Reading, log := FINISHED.log.(leaked := {5}))

  /** The marker outlives its request. */
  lemma MarkerOutlivesItsRequest() returns (moves: seq<Move>)
    ensures Run(REUSE, 8, moves) == Some(LEAKED) && Split(moves)
    ensures LEAKED.main.Idle? && LEAKED.log.replied[0] == 1 && LEAKED.shared.markers == [5]
  {
    moves := FinishFirst();
    LateDecision();
    var s;
    moves, s := Then(moves, FINISHED, Decide);
  }

  lemma LateDecision()
    ensures Next(REUSE, 8, FINISHED, Decide) == Some(LEAKED)
  {
    assert Barred(REUSE, FINISHED, 5) == {};
    assert FINISHED.log.barred + Barred(REUSE, FINISHED, 5) == {};
    assert FINISHED.log.leaked + {5} == {5};
    assert FINISHED.shared.markers + [5] == [5];
    assert Decided(REUSE, FINISHED, 5, FINISHED.reader.flight) == LEAKED;
  }

  const REUSED := LEAKED.(shared := Shared([], Some(5), Flight(Some(5), false), [5], false), main := Registered(2), next := 3)
  const POISONED := REUSED.(shared := IDLE, main := Idle, log := LEAKED.log.(stopped := multiset{2}))

  lemma ReuseTheId() returns (moves: seq<Move>)
    ensures Run(REUSE, 8, moves) == Some(REUSED) && Split(moves)
  {
    moves := MarkerOutlivesItsRequest();
    var s;
    moves, s := Then(moves, LEAKED, Read);
    moves, s := Then(moves, s, Pop);
    assert s.shared.queue == [];
    moves, s := Then(moves, s, Dispatch);
  }

  const STOPPED := REUSED.(shared := REUSED.shared.(markers := []), main := Leaving(2, Stopped))

  lemma MarkerStops()
    ensures Next(REUSE, 8, REUSED, Check) == Some(STOPPED)
  {
    assert [5][..0] == [];
    assert Without([5], Some(5)) == [];
  }

  const OUT := STOPPED.(shared := STOPPED.shared.(flight := NoFlight), main := Finishing(2), log := POISONED.log)

  lemma StoppedLeaves()
    ensures Next(REUSE, 8, STOPPED.(shared := OUT.shared, main := Unmarking(2, Stopped)), Unmark) == Some(OUT)
    ensures Next(REUSE, 8, OUT, Finish) == Some(POISONED)
  {
    assert Without([], Some(5)) == [];
    assert STOPPED.log.stopped + multiset{2} == multiset{2};
  }

  /** And a later call with the same id, which nobody cancelled, is stopped without a reply and without a write. */
  lemma ReuseIsPoisoned() returns (moves: seq<Move>)
    ensures Run(REUSE, 8, moves) == Some(POISONED) && Split(moves)
    ensures POISONED.log.stopped[2] == 1 && POISONED.log.replied[2] == 0 && 2 !in POISONED.log.written
    ensures forall c | 2 < c < |REUSE| :: REUSE[c] != Cancelled(5)
  {
    moves := ReuseTheId();
    MarkerStops();
    StoppedLeaves();
    var s;
    moves, s := Then(moves, REUSED, Check);
    moves, s := Then(moves, STOPPED, Leave);
    moves, s := Then(moves, s, Unmark);
    moves, s := Then(moves, OUT, Finish);
  }
}
