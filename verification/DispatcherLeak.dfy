/** Exactly when the three-phase cancellation leaves a marker behind, and what the marker does to a later request. */
module DispatcherLeak {
  import opened Common
  import opened Dispatcher
  import opened DispatcherSafety
  import opened DispatcherCancellation

  /** A marker that names no request in hand. */
  predicate LeftOver(input: seq<Frame>, s: State, m: Id) {
    m in s.shared.markers && !(InMain(s.main) && IdAt(input, s.main.k) == Some(m))
  }

  /** A third phase whose snapshot saw a request with this id before its write, when that request is in hand no more. */
  predicate LeavesBehind(s: State, move: Move, m: Id) {
    move.Decide? && s.reader == Deciding(m, Flight(Some(m), false)) && s.shared.pending != Some(m)
  }

  /** The main loop takes this request from the queue. */
  predicate Takes(s: State, move: Move, k: nat) {
    move.Pop? && s.main.Idle? && !s.shared.closed && s.shared.queue != [] && s.shared.queue[0] == k
  }

  predicate TakesId(input: seq<Frame>, s: State, move: Move, m: Id) {
    s.shared.queue != [] && Takes(s, move, s.shared.queue[0]) && IdAt(input, s.shared.queue[0]) == Some(m)
  }

  // ---------------------------------------------------------------- one step

  lemma DecidedLeftOver(input: seq<Frame>, s: State, id: Id, snapshot: Flight, m: Id)
    requires InStep(input, s)
    ensures LeftOver(input, Decided(input, s, id, snapshot), m)
            <==> LeftOver(input, s, m) || (m == id && snapshot == Flight(Some(m), false) && s.shared.pending != Some(m))
  {
  }

  lemma ReaderLeftOver(input: seq<Frame>, capacity: nat, s: State, move: Move, m: Id)
    requires InStep(input, s) && ReaderNext(input, capacity, s, move).Some?
    ensures LeftOver(input, ReaderNext(input, capacity, s, move).value, m) <==> LeftOver(input, s, m) || LeavesBehind(s, move, m)
  {
    match move
    case Decide => DecidedLeftOver(input, s, s.reader.id, s.reader.flight, m);
    case CancelAtOnce =>
      DecidedLeftOver(input, PurgedNow(input, s.(next := s.next + 1), input[s.next].target), input[s.next].target, s.shared.flight, m);
    case _ =>
  }

  lemma MainLeftOver(input: seq<Frame>, s: State, move: Move, m: Id)
    requires InStep(input, s) && MainNext(input, s, move).Some?
    ensures LeftOver(input, MainNext(input, s, move).value, m) <==> LeftOver(input, s, m) && !TakesId(input, s, move, m)
  {
  }

  /** A marker is left over after a step exactly when the step left it behind, or it was left over before and no request
      with its id was taken up. */
  lemma NextLeftOver(input: seq<Frame>, capacity: nat, s: State, move: Move, m: Id)
    requires InStep(input, s) && Next(input, capacity, s, move).Some?
    ensures LeftOver(input, Next(input, capacity, s, move).value, m)
            <==> LeavesBehind(s, move, m) || (LeftOver(input, s, m) && !TakesId(input, s, move, m))
  {
    if ByReader(move) {
      ReaderLeftOver(input, capacity, s, move, m);
    } else {
      MainLeftOver(input, s, move, m);
    }
  }

  /** In every run a third phase makes a marker that names no request in hand if and only if its snapshot saw the id
      before the write, no marker and no pending request has the id now. */
  lemma NewMarkerIsLeftOverExactly(input: seq<Frame>, capacity: nat, moves: seq<Move>, move: Move, m: Id)
    requires Run(input, capacity, moves).Some? && Next(input, capacity, Run(input, capacity, moves).value, move).Some?
    ensures var s := Run(input, capacity, moves).value;
            var s' := Next(input, capacity, s, move).value;
            m !in s.shared.markers && LeftOver(input, s', m)
            <==> m !in s.shared.markers && s.shared.pending != Some(m)
                 && move.Decide? && s.reader.id == m && s.reader.flight == Flight(Some(m), false)
  {
    RunKeepsStep(input, capacity, moves);
    NextLeftOver(input, capacity, Run(input, capacity, moves).value, move, m);
  }

  // ---------------------------------------------------------------- whole runs

  predicate LeavesBehindAt(input: seq<Frame>, capacity: nat, moves: seq<Move>, j: nat, m: Id)
    requires j < |moves|
  {
    var earlier := Run(input, capacity, moves[..j]);
    earlier.Some? && LeavesBehind(earlier.value, moves[j], m)
  }

  predicate TakesIdAt(input: seq<Frame>, capacity: nat, moves: seq<Move>, j: nat, m: Id)
    requires j < |moves|
  {
    var earlier := Run(input, capacity, moves[..j]);
    earlier.Some? && TakesId(input, earlier.value, moves[j], m)
  }

  /** The marker was left behind here and no request with its id was taken up since. */
  ghost predicate LeftSince(input: seq<Frame>, capacity: nat, moves: seq<Move>, j: nat, m: Id)
    requires j < |moves|
  {
    LeavesBehindAt(input, capacity, moves, j, m)
    && forall i: nat | j < i < |moves| :: !TakesIdAt(input, capacity, moves, i, m)
  }

  lemma LeftSinceGrows(input: seq<Frame>, capacity: nat, front: seq<Move>, move: Move, j: nat, m: Id)
    requires j < |front| && Run(input, capacity, front).Some?
    ensures LeftSince(input, capacity, front + [move], j, m)
            <==> LeftSince(input, capacity, front, j, m) && !TakesId(input, Run(input, capacity, front).value, move, m)
  {
    var moves := front + [move];
    forall i: nat | i < |front|
      ensures TakesIdAt(input, capacity, moves, i, m) <==> TakesIdAt(input, capacity, front, i, m)
      ensures LeavesBehindAt(input, capacity, moves, i, m) <==> LeavesBehindAt(input, capacity, front, i, m)
    {
      assert moves[..i] == front[..i];
    }
    assert moves[..|front|] == front;
    assert TakesIdAt(input, capacity, moves, |front|, m) <==> TakesId(input, Run(input, capacity, front).value, move, m);
  }

  /** In every run a marker is left over if and only if a late third phase left it behind and no request with its id was
      taken up since. */
  lemma {:induction false} LeftOverExactly(input: seq<Frame>, capacity: nat, moves: seq<Move>, m: Id)
    requires Run(input, capacity, moves).Some?
    ensures LeftOver(input, Run(input, capacity, moves).value, m)
            <==> exists j: nat :: j < |moves| && LeftSince(input, capacity, moves, j, m)
  {
    if moves != [] {
      var front, move := moves[..|moves| - 1], moves[|moves| - 1];
      assert moves == front + [move];
      LeftOverExactly(input, capacity, front, m);
      RunKeepsStep(input, capacity, front);
      NextLeftOver(input, capacity, Run(input, capacity, front).value, move, m);
      forall j: nat | j < |front|
        ensures LeftSince(input, capacity, moves, j, m)
                <==> LeftSince(input, capacity, front, j, m) && !TakesId(input, Run(input, capacity, front).value, move, m)
      {
        LeftSinceGrows(input, capacity, front, move, j, m);
      }
      assert LeftSince(input, capacity, moves, |front|, m) <==> LeavesBehind(Run(input, capacity, front).value, move, m);
    }
  }

  // ---------------------------------------------------------------- the request that meets the marker

  /** At this move the request was taken from the queue while a marker with its id was left over. */
  predicate MeetsAt(input: seq<Frame>, capacity: nat, moves: seq<Move>, j: nat, k: nat)
    requires j < |moves|
  {
    var earlier := Run(input, capacity, moves[..j]);
    earlier.Some? && Takes(earlier.value, moves[j], k) && IdAt(input, k).Some? && LeftOver(input, earlier.value, IdAt(input, k).value)
  }

  ghost predicate MetAMarker(input: seq<Frame>, capacity: nat, moves: seq<Move>, k: nat) {
    exists j: nat :: j < |moves| && MeetsAt(input, capacity, moves, j, k)
  }

  lemma MetStays(input: seq<Frame>, capacity: nat, front: seq<Move>, move: Move, k: nat)
    requires MetAMarker(input, capacity, front, k)
    ensures MetAMarker(input, capacity, front + [move], k)
  {
    var j: nat :| j < |front| && MeetsAt(input, capacity, front, j, k);
    assert (front + [move])[..j] == front[..j];
    assert MeetsAt(input, capacity, front + [move], j, k);
  }

  ghost predicate Excused(input: seq<Frame>, k: nat, n: nat, met: iset<nat>) {
    CancelledAfter(input, k, n) || k in met
  }

  predicate HasMarker(input: seq<Frame>, s: State, k: nat) {
    IdAt(input, k).Some? && IdAt(input, k).value in s.shared.markers
  }

  /** A marker on the request in hand, and a stop, have one of two reasons. */
  ghost predicate Explained(input: seq<Frame>, s: State, met: iset<nat>) {
    && (InMain(s.main) && HasMarker(input, s, s.main.k) ==> Excused(input, s.main.k, s.next, met))
    && (forall k: nat | IsStopped(s, k) :: Excused(input, k, s.next, met))
  }

  lemma ReaderStopsNothing(input: seq<Frame>, capacity: nat, s: State, move: Move)
    requires Grounded(input, s) && ReaderNext(input, capacity, s, move).Some?
    ensures var s' := ReaderNext(input, capacity, s, move).value;
            s'.main == s.main && s'.log.stopped == s.log.stopped && s.next <= s'.next <= |input|
  {
  }

  lemma ReaderMarksTheLast(input: seq<Frame>, capacity: nat, s: State, move: Move, m: Id)
    requires Grounded(input, s) && ReaderNext(input, capacity, s, move).Some?
    requires m in ReaderNext(input, capacity, s, move).value.shared.markers && m !in s.shared.markers
    ensures var n := ReaderNext(input, capacity, s, move).value.next;
            0 < n <= |input| && input[n - 1] == Cancelled(m)
  {
    match move
    case Decide =>
    case CancelAtOnce =>
  }

  /** The reader moves on and may mark the last frame's id. */
  lemma MarkingKeepsExplained(input: seq<Frame>, s: State, s': State, met: iset<nat>)
    requires Explained(input, s, met) && (InMain(s.main) ==> s.main.k < s.next)
    requires s'.main == s.main && s'.log.stopped == s.log.stopped && s.next <= s'.next <= |input|
    requires forall m | m in s'.shared.markers && m !in s.shared.markers :: 0 < s'.next && input[s'.next - 1] == Cancelled(m)
    ensures Explained(input, s', met)
  {
    forall k: nat | Excused(input, k, s.next, met)
      ensures Excused(input, k, s'.next, met)
    {
      if CancelledAfter(input, k, s.next) {
        CancelledStays(input, k, s.next, s'.next);
      }
    }
    if InMain(s.main) && HasMarker(input, s', s.main.k) && !HasMarker(input, s, s.main.k) {
      LastFrameCancels(input, s.main.k, s'.next);
    }
  }

  lemma ReaderKeepsExplained(input: seq<Frame>, capacity: nat, s: State, move: Move, met: iset<nat>)
    requires Explained(input, s, met) && Grounded(input, s) && ReaderNext(input, capacity, s, move).Some?
    ensures Explained(input, ReaderNext(input, capacity, s, move).value, met)
  {
    var s' := ReaderNext(input, capacity, s, move).value;
    ReaderStopsNothing(input, capacity, s, move);
    forall m | m in s'.shared.markers && m !in s.shared.markers
      ensures 0 < s'.next && input[s'.next - 1] == Cancelled(m)
    {
      ReaderMarksTheLast(input, capacity, s, move, m);
    }
    MarkingKeepsExplained(input, s, s', met);
  }

  lemma MainKeepsTheRequest(input: seq<Frame>, s: State, move: Move)
    requires MainNext(input, s, move).Some? && !move.Pop? && InMain(MainNext(input, s, move).value.main)
    ensures InMain(s.main) && MainNext(input, s, move).value.main.k == s.main.k
  {
  }

  lemma MainKeepsExplained(input: seq<Frame>, s: State, move: Move, met: iset<nat>)
    requires Explained(input, s, met) && MainNext(input, s, move).Some?
    requires forall k: nat | Takes(s, move, k) && HasMarker(input, s, k) :: k in met
    ensures Explained(input, MainNext(input, s, move).value, met)
  {
    var s' := MainNext(input, s, move).value;
    MainAddsNoMarker(input, s, move);
    forall k: nat | IsStopped(s', k)
      ensures Excused(input, k, s'.next, met)
    {
      if !IsStopped(s, k) {
        StoppedByAMarker(input, s, move, k);
      }
    }
    if InMain(s'.main) {
      if move.Pop? {
        assert Takes(s, move, s'.main.k);
      } else {
        MainKeepsTheRequest(input, s, move);
      }
    }
  }

  ghost function Met(input: seq<Frame>, capacity: nat, moves: seq<Move>): iset<nat> {
    iset k: nat | MetAMarker(input, capacity, moves, k)
  }

  lemma ExplainedByMore(input: seq<Frame>, s: State, met: iset<nat>, more: iset<nat>)
    requires Explained(input, s, met) && met <= more
    ensures Explained(input, s, more)
  {
  }

  lemma {:induction false} RunIsExplained(input: seq<Frame>, capacity: nat, moves: seq<Move>)
    requires Run(input, capacity, moves).Some?
    ensures Explained(input, Run(input, capacity, moves).value, Met(input, capacity, moves))
  {
    if moves != [] {
      var front, move := moves[..|moves| - 1], moves[|moves| - 1];
      var earlier, met := Run(input, capacity, front).value, Met(input, capacity, moves);
      assert moves == front + [move];
      RunIsExplained(input, capacity, front);
      RunIsGrounded(input, capacity, front);
      forall k: nat | MetAMarker(input, capacity, front, k) ensures MetAMarker(input, capacity, moves, k) {
        MetStays(input, capacity, front, move, k);
      }
      ExplainedByMore(input, earlier, Met(input, capacity, front), met);
      if ByReader(move) {
        ReaderKeepsExplained(input, capacity, earlier, move, met);
      } else {
        forall k: nat | Takes(earlier, move, k) && HasMarker(input, earlier, k)
          ensures k in met
        {
          assert MeetsAt(input, capacity, moves, |front|, k);
        }
        MainKeepsExplained(input, earlier, move, met);
      }
    }
  }

  /** In every run a stopped request was cancelled after it was read, or met a marker left over from an earlier request
      with its id. */
  lemma StoppedForOneOfTwoReasons(input: seq<Frame>, capacity: nat, moves: seq<Move>, k: nat)
    requires Run(input, capacity, moves).Some? && IsStopped(Run(input, capacity, moves).value, k)
    ensures CancelledAfter(input, k, Run(input, capacity, moves).value.next) || MetAMarker(input, capacity, moves, k)
  {
    RunIsExplained(input, capacity, moves);
  }

  // ---------------------------------------------------------------- it is never written

  lemma DecidingKeepsBarred(input: seq<Frame>, s: State, id: Id, snapshot: Flight, k: nat)
    requires IsBarred(input, s, k)
    ensures IsBarred(input, Decided(input, s, id, snapshot), k)
  {
  }

  lemma PurgingKeepsBarred(input: seq<Frame>, s: State, id: Id, k: nat)
    requires IsBarred(input, s, k)
    ensures IsBarred(input, PurgedNow(input, s.(next := s.next + 1), id), k) && IsBarred(input, PurgedNow(input, s, id), k)
  {
  }

  lemma ReaderKeepsBarred(input: seq<Frame>, capacity: nat, s: State, move: Move, k: nat)
    requires IsBarred(input, s, k) && ReaderNext(input, capacity, s, move).Some?
    ensures IsBarred(input, ReaderNext(input, capacity, s, move).value, k)
  {
    match move
    case Purge => PurgingKeepsBarred(input, s, s.reader.id, k);
    case Decide => DecidingKeepsBarred(input, s, s.reader.id, s.reader.flight, k);
    case CancelAtOnce =>
      var id := input[s.next].target;
      PurgingKeepsBarred(input, s, id, k);
      DecidingKeepsBarred(input, PurgedNow(input, s.(next := s.next + 1), id), id, s.shared.flight, k);
    case _ =>
  }

  lemma PoppingKeepsBarred(input: seq<Frame>, s: State, k: nat)
    requires IsBarred(input, s, k) && MainNext(input, s, Pop).Some?
    ensures IsBarred(input, MainNext(input, s, Pop).value, k)
  {
    if s.shared.queue != [] {
      assert s.shared.queue[0] in s.shared.queue;
      assert forall q | q in s.shared.queue[1..] :: q in s.shared.queue;
    }
  }

  lemma NextKeepsBarred(input: seq<Frame>, capacity: nat, s: State, move: Move, k: nat)
    requires IsBarred(input, s, k) && Next(input, capacity, s, move).Some?
    ensures IsBarred(input, Next(input, capacity, s, move).value, k)
  {
    if ByReader(move) {
      ReaderKeepsBarred(input, capacity, s, move, k);
    } else if move.Pop? {
      PoppingKeepsBarred(input, s, k);
    } else {
      MainKeepsBarred(input, s, move, k);
    }
  }

  lemma OneMoreKeepsBarred(input: seq<Frame>, capacity: nat, front: seq<Move>, move: Move, k: nat)
    requires Run(input, capacity, front).Some? && IsBarred(input, Run(input, capacity, front).value, k)
    requires Run(input, capacity, front + [move]).Some?
    ensures IsBarred(input, Run(input, capacity, front + [move]).value, k)
  {
    assert (front + [move])[..|front|] == front;
    NextKeepsBarred(input, capacity, Run(input, capacity, front).value, move, k);
  }

  lemma MeetingBars(input: seq<Frame>, capacity: nat, front: seq<Move>, k: nat)
    requires Run(input, capacity, front).Some? && Takes(Run(input, capacity, front).value, Pop, k)
    requires HasMarker(input, Run(input, capacity, front).value, k)
    ensures Run(input, capacity, front + [Pop]).Some? && IsBarred(input, Run(input, capacity, front + [Pop]).value, k)
  {
    assert (front + [Pop])[..|front|] == front;
    WritesKeepArrivalOrder(input, capacity, front + [Pop]);
    UncheckedIsNowhereElse(Run(input, capacity, front + [Pop]).value);
  }

  predicate BarredAt(input: seq<Frame>, capacity: nat, moves: seq<Move>, n: nat, k: nat)
    requires n <= |moves|
  {
    var s := Run(input, capacity, moves[..n]);
    s.Some? ==> IsBarred(input, s.value, k)
  }

  lemma MeetsBars(input: seq<Frame>, capacity: nat, moves: seq<Move>, j: nat, k: nat)
    requires j < |moves| && MeetsAt(input, capacity, moves, j, k)
    ensures BarredAt(input, capacity, moves, j + 1, k)
  {
    assert moves[..j + 1] == moves[..j] + [Pop];
    MeetingBars(input, capacity, moves[..j], k);
  }

  lemma StaysBarred(input: seq<Frame>, capacity: nat, moves: seq<Move>, n: nat, k: nat)
    requires n < |moves| && BarredAt(input, capacity, moves, n, k)
    ensures BarredAt(input, capacity, moves, n + 1, k)
  {
    var front := moves[..n];
    assert moves[..n + 1] == front + [moves[n]] && (front + [moves[n]])[..n] == front;
    if Run(input, capacity, front + [moves[n]]).Some? {
      OneMoreKeepsBarred(input, capacity, front, moves[n], k);
    }
  }

  lemma {:induction false} BarredToTheEnd(input: seq<Frame>, capacity: nat, moves: seq<Move>, n: nat, k: nat)
    requires n <= |moves| && BarredAt(input, capacity, moves, n, k)
    ensures BarredAt(input, capacity, moves, |moves|, k)
    decreases |moves| - n
  {
    if n < |moves| {
      StaysBarred(input, capacity, moves, n, k);
      BarredToTheEnd(input, capacity, moves, n + 1, k);
    }
  }

  /** In every run a request that met a marker left over is never written, whatever happens afterwards: its next check
      stops it, although nobody need have cancelled it. */
  lemma MetMarkerIsNeverWritten(input: seq<Frame>, capacity: nat, moves: seq<Move>, k: nat)
    requires Run(input, capacity, moves).Some? && MetAMarker(input, capacity, moves, k)
    ensures IsBarred(input, Run(input, capacity, moves).value, k)
  {
    assert moves[..|moves|] == moves;
    assert BarredAt(input, capacity, moves, |moves|, k) by {
      var j: nat :| j < |moves| && MeetsAt(input, capacity, moves, j, k);
      MeetsBars(input, capacity, moves, j, k);
      BarredToTheEnd(input, capacity, moves, j + 1, k);
    }
  }
}
