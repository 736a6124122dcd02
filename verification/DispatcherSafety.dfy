/** What every interleaving of the reader with the main loop keeps. */
module DispatcherSafety {
  import opened Common
  import opened Dispatcher

  predicate InMain(main: Main) {
    !main.Idle? && !main.Ended?
  }

  // ---------------------------------------------------------------- arrival order

  predicate AllBelow(ks: seq<nat>, k: nat) {
    forall w | w in ks :: w < k
  }

  predicate Increasing(ks: seq<nat>) {
    ks == [] || (Increasing(ks[..|ks| - 1]) && AllBelow(ks[..|ks| - 1], ks[|ks| - 1]))
  }

  lemma {:induction false} IncreasingByPosition(ks: seq<nat>)
    requires Increasing(ks)
    ensures forall i, j | 0 <= i < j < |ks| :: ks[i] < ks[j]
  {
    if ks != [] {
      var front := ks[..|ks| - 1];
      IncreasingByPosition(front);
      forall i, j | 0 <= i < j < |ks|
        ensures ks[i] < ks[j]
      {
        assert ks[i] == front[i];
        assert j < |ks| - 1 ==> ks[j] == front[j];
        assert front[i] in front;
      }
    }
  }

  lemma Snoc(ks: seq<nat>, k: nat)
    ensures Increasing(ks + [k]) <==> Increasing(ks) && AllBelow(ks, k)
  {
    assert (ks + [k])[..|ks|] == ks;
  }

  /** The request in hand has not been written yet. */
  predicate Unwritten(main: Main) {
    main.Handling? || main.Registered? || main.Checked? || main.Writing?
  }

  /** What was written, then what is about to be, then what waits. */
  function Pipeline(s: State): seq<nat> {
    s.log.written + (if Unwritten(s.main) then [s.main.k] else []) + s.shared.queue
  }

  ghost predicate Ordered(s: State) {
    Increasing(Pipeline(s)) && AllBelow(Pipeline(s), s.next)
  }

  lemma Regroup(a: seq<nat>, b: seq<nat>, k: nat)
    ensures a + (b + [k]) == (a + b) + [k]
  {
  }

  lemma {:induction false} PurgedIsThere(input: seq<Frame>, queue: seq<nat>, id: Id)
    ensures forall k | k in Purged(input, queue, id) :: k in queue
  {
    if queue != [] {
      PurgedIsThere(input, queue[..|queue| - 1], id);
    }
  }

  /** Thinning out the queue keeps the order. */
  lemma {:induction false} PurgeKeepsOrder(input: seq<Frame>, front: seq<nat>, queue: seq<nat>, id: Id)
    requires Increasing(front + queue)
    ensures Increasing(front + Purged(input, queue, id))
  {
    if queue == [] {
      assert front + queue == front && front + Purged(input, queue, id) == front;
    } else {
      var shorter, last := queue[..|queue| - 1], queue[|queue| - 1];
      var kept := Purged(input, shorter, id);
      assert queue == shorter + [last];
      Regroup(front, shorter, last);
      Regroup(front, kept, last);
      Snoc(front + shorter, last);
      PurgeKeepsOrder(input, front, shorter, id);
      PurgedIsThere(input, shorter, id);
      assert forall k | k in front + kept :: k in front + shorter;
      Snoc(front + kept, last);
      assert Purged(input, queue, id) == kept + (if IdAt(input, last) == Some(id) then [] else [last]);
      assert kept + [] == kept;
    }
  }

  lemma {:induction false} PrefixKeepsOrder(a: seq<nat>, b: seq<nat>)
    requires Increasing(a + b)
    ensures Increasing(a)
  {
    if b == [] {
      assert a + b == a;
    } else {
      assert b == b[..|b| - 1] + [b[|b| - 1]];
      Regroup(a, b[..|b| - 1], b[|b| - 1]);
      Snoc(a + b[..|b| - 1], b[|b| - 1]);
      PrefixKeepsOrder(a, b[..|b| - 1]);
    }
  }

  /** Taking out the request in hand keeps the order of the rest. */
  lemma {:induction false} DroppingKeepsOrder(written: seq<nat>, k: nat, queue: seq<nat>)
    requires Increasing(written + [k] + queue)
    ensures Increasing(written + queue)
  {
    if queue == [] {
      assert written + [k] + queue == written + [k] && written + queue == written;
      Snoc(written, k);
    } else {
      var shorter, last := queue[..|queue| - 1], queue[|queue| - 1];
      assert queue == shorter + [last];
      Regroup(written + [k], shorter, last);
      Regroup(written, shorter, last);
      Snoc(written + [k] + shorter, last);
      DroppingKeepsOrder(written, k, shorter);
      assert forall w | w in written + shorter :: w in written + [k] + shorter;
      Snoc(written + shorter, last);
    }
  }

  function Front(s: State): seq<nat> {
    s.log.written + if Unwritten(s.main) then [s.main.k] else []
  }

  lemma ReaderLeavesFront(input: seq<Frame>, capacity: nat, s: State, move: Move)
    requires ReaderNext(input, capacity, s, move).Some?
    ensures var s' := ReaderNext(input, capacity, s, move).value;
            s'.log.written == s.log.written && s'.main == s.main && s'.next >= s.next
  {
  }

  lemma ReaderMovesQueue(input: seq<Frame>, capacity: nat, s: State, move: Move)
    requires ReaderNext(input, capacity, s, move).Some?
    ensures var s' := ReaderNext(input, capacity, s, move).value;
            match move
            case Purge => s'.shared.queue == Purged(input, s.shared.queue, s.reader.id)
            case CancelAtOnce => s'.shared.queue == Purged(input, s.shared.queue, input[s.next].target)
            case _ => s'.shared.queue == s.shared.queue || (s'.shared.queue == s.shared.queue + [s.next] && s'.next == s.next + 1)
  {
  }

  lemma PurgedKeepsOrdered(input: seq<Frame>, s: State, s': State, id: Id)
    requires Ordered(s) && Front(s') == Front(s) && s'.next >= s.next && s'.shared.queue == Purged(input, s.shared.queue, id)
    ensures Ordered(s')
  {
    PurgeKeepsOrder(input, Front(s), s.shared.queue, id);
    assert forall k | k in Pipeline(s') :: k in Pipeline(s);
  }

  lemma ReaderKeepsOrder(input: seq<Frame>, capacity: nat, s: State, move: Move)
    requires Ordered(s) && ReaderNext(input, capacity, s, move).Some?
    ensures Ordered(ReaderNext(input, capacity, s, move).value)
  {
    var s' := ReaderNext(input, capacity, s, move).value;
    ReaderLeavesFront(input, capacity, s, move);
    ReaderMovesQueue(input, capacity, s, move);
    if move.Purge? {
      PurgedKeepsOrdered(input, s, s', s.reader.id);
    } else if move.CancelAtOnce? {
      PurgedKeepsOrdered(input, s, s', input[s.next].target);
    } else if s'.shared.queue != s.shared.queue {
      Regroup(Front(s), s.shared.queue, s.next);
      Snoc(Front(s) + s.shared.queue, s.next);
    }
  }

  lemma PopMovesPipeline(input: seq<Frame>, s: State)
    requires MainNext(input, s, Pop).Some?
    ensures var s' := MainNext(input, s, Pop).value;
            && s'.next == s.next
            && (if s.shared.closed then Pipeline(s') == s.log.written && Pipeline(s) == s.log.written + s.shared.queue
                else Pipeline(s') == Pipeline(s))
  {
    if s.shared.queue != [] {
      assert s.shared.queue == [s.shared.queue[0]] + s.shared.queue[1..];
    }
  }

  /** Any other main move leaves the pipeline alone or takes the request in hand out of it. */
  lemma MainMovesPipeline(input: seq<Frame>, s: State, move: Move)
    requires MainNext(input, s, move).Some? && !move.Pop?
    ensures var s' := MainNext(input, s, move).value;
            && s'.next == s.next && s'.shared.queue == s.shared.queue
            && (Front(s') == Front(s) || (Unwritten(s.main) && Front(s') == s.log.written))
  {
    assert Unwritten(s.main) ==> Front(s) == s.log.written + [s.main.k];
  }

  lemma MainKeepsOrder(input: seq<Frame>, s: State, move: Move)
    requires Ordered(s) && MainNext(input, s, move).Some?
    ensures Ordered(MainNext(input, s, move).value)
  {
    var s' := MainNext(input, s, move).value;
    if move.Pop? {
      PopMovesPipeline(input, s);
      if s.shared.closed {
        PrefixKeepsOrder(s.log.written, s.shared.queue);
      }
    } else {
      MainMovesPipeline(input, s, move);
      if Front(s') != Front(s) {
        DroppingKeepsOrder(s.log.written, s.main.k, s.shared.queue);
      }
    }
    assert forall w | w in Pipeline(s') :: w in Pipeline(s);
  }

  /** Backend writes are in arrival order, so no request is ever written twice. */
  lemma {:induction false} WritesKeepArrivalOrder(input: seq<Frame>, capacity: nat, moves: seq<Move>)
    requires Run(input, capacity, moves).Some?
    ensures Ordered(Run(input, capacity, moves).value)
    ensures var written := Run(input, capacity, moves).value.log.written;
            forall i, j | 0 <= i < j < |written| :: written[i] < written[j]
  {
    if moves != [] {
      WritesKeepArrivalOrder(input, capacity, moves[..|moves| - 1]);
      var earlier := Run(input, capacity, moves[..|moves| - 1]).value;
      if ByReader(moves[|moves| - 1]) {
        ReaderKeepsOrder(input, capacity, earlier, moves[|moves| - 1]);
      } else {
        MainKeepsOrder(input, earlier, moves[|moves| - 1]);
      }
    }
    var s := Run(input, capacity, moves).value;
    PrefixKeepsOrder(Front(s), s.shared.queue);
    PrefixKeepsOrder(s.log.written, if Unwritten(s.main) then [s.main.k] else []);
    IncreasingByPosition(s.log.written);
  }

  // ---------------------------------------------------------------- every request is in one place

  function InHand(main: Main, k: nat): nat {
    if InMain(main) && !main.Finishing? && main.k == k then 1 else 0
  }

  function Places(s: State, k: nat): nat {
    multiset(s.shared.queue)[k] + InHand(s.main, k) + s.log.replied[k] + s.log.refused[k] + s.log.purged[k]
    + s.log.stopped[k] + s.log.dropped[k] + s.log.abandoned[k]
  }

  /** A request that was read is queued, in hand, answered once, refused, purged, stopped, dropped or abandoned. */
  ghost predicate Accounted(input: seq<Frame>, s: State, k: nat) {
    Places(s, k) == if k < s.next && k < |input| && input[k].Request? then 1 else 0
  }

  lemma {:induction false} PurgedCount(input: seq<Frame>, queue: seq<nat>, id: Id, k: nat)
    ensures multiset(Purged(input, queue, id))[k] == if IdAt(input, k) == Some(id) then 0 else multiset(queue)[k]
  {
    if queue != [] {
      PurgedCount(input, queue[..|queue| - 1], id, k);
      assert queue == queue[..|queue| - 1] + [queue[|queue| - 1]];
    }
  }

  lemma PurgeKeepsAccount(input: seq<Frame>, s: State, id: Id, k: nat)
    ensures Places(PurgedNow(input, s, id), k) == Places(s, k)
    ensures IdAt(input, k) != Some(id) ==> PurgedNow(input, s, id).log.purged[k] == s.log.purged[k]
  {
    PurgedCount(input, s.shared.queue, id, k);
  }

  lemma DecisionKeepsPlaces(input: seq<Frame>, s: State, id: Id, snapshot: Flight, k: nat)
    ensures Places(Decided(input, s, id, snapshot), k) == Places(s, k)
  {
  }

  lemma ReadKeepsAccount(input: seq<Frame>, capacity: nat, s: State, k: nat)
    requires Accounted(input, s, k) && ReaderNext(input, capacity, s, Read).Some?
    ensures Accounted(input, ReaderNext(input, capacity, s, Read).value, k)
  {
  }

  lemma CancelAtOnceKeepsPlaces(input: seq<Frame>, capacity: nat, s: State, k: nat)
    requires ReaderNext(input, capacity, s, CancelAtOnce).Some?
    ensures var s' := ReaderNext(input, capacity, s, CancelAtOnce).value;
            Places(s', k) == Places(s, k) && s'.next == s.next + 1 && input[s.next].Cancelled?
  {
    var id, read := input[s.next].target, s.(next := s.next + 1);
    PurgeKeepsAccount(input, read, id, k);
    DecisionKeepsPlaces(input, PurgedNow(input, read, id), id, s.shared.flight, k);
    assert Places(read, k) == Places(s, k);
  }

  lemma PhasesKeepPlaces(input: seq<Frame>, capacity: nat, s: State, move: Move, k: nat)
    requires ReaderNext(input, capacity, s, move).Some? && !move.Read? && !move.CancelAtOnce?
    ensures var s' := ReaderNext(input, capacity, s, move).value;
            Places(s', k) == Places(s, k) && s'.next == s.next
  {
    if move.Purge? {
      PurgeKeepsAccount(input, s, s.reader.id, k);
    } else if move.Decide? {
      DecisionKeepsPlaces(input, s, s.reader.id, s.reader.flight, k);
    }
  }

  lemma PopKeepsPlaces(input: seq<Frame>, s: State, k: nat)
    requires MainNext(input, s, Pop).Some?
    ensures Places(MainNext(input, s, Pop).value, k) == Places(s, k) && MainNext(input, s, Pop).value.next == s.next
  {
    if s.shared.queue != [] {
      assert s.shared.queue == [s.shared.queue[0]] + s.shared.queue[1..];
    }
  }

  lemma UnmarkingKeepsPlaces(input: seq<Frame>, s: State, k: nat)
    requires MainNext(input, s, Unmark).Some?
    ensures Places(MainNext(input, s, Unmark).value, k) == Places(s, k) && MainNext(input, s, Unmark).value.next == s.next
  {
  }

  lemma ReplyingKeepsPlaces(input: seq<Frame>, s: State, k: nat)
    requires MainNext(input, s, Reply).Some?
    ensures Places(MainNext(input, s, Reply).value, k) == Places(s, k) && MainNext(input, s, Reply).value.next == s.next
  {
  }

  lemma OthersKeepPlaces(input: seq<Frame>, s: State, move: Move, k: nat)
    requires MainNext(input, s, move).Some? && !move.Pop? && !move.Unmark? && !move.Reply?
    ensures Places(MainNext(input, s, move).value, k) == Places(s, k) && MainNext(input, s, move).value.next == s.next
  {
    var s' := MainNext(input, s, move).value;
    assert s'.log.(written := s.log.written) == s.log && s'.shared.queue == s.shared.queue && InHand(s'.main, k) == InHand(s.main, k);
  }

  lemma SameAccount(input: seq<Frame>, s: State, s': State, k: nat)
    requires Accounted(input, s, k) && Places(s', k) == Places(s, k)
    requires s'.next == s.next || (s'.next == s.next + 1 && s.next < |input| && !input[s.next].Request?)
    ensures Accounted(input, s', k)
  {
  }

  lemma ReaderKeepsAccount(input: seq<Frame>, capacity: nat, s: State, move: Move, k: nat)
    requires Accounted(input, s, k) && ReaderNext(input, capacity, s, move).Some?
    ensures Accounted(input, ReaderNext(input, capacity, s, move).value, k)
  {
    if move.Read? {
      ReadKeepsAccount(input, capacity, s, k);
    } else {
      if move.CancelAtOnce? {
        CancelAtOnceKeepsPlaces(input, capacity, s, k);
      } else {
        PhasesKeepPlaces(input, capacity, s, move, k);
      }
      SameAccount(input, s, ReaderNext(input, capacity, s, move).value, k);
    }
  }

  lemma MainKeepsAccount(input: seq<Frame>, s: State, move: Move, k: nat)
    requires Accounted(input, s, k) && MainNext(input, s, move).Some?
    ensures Accounted(input, MainNext(input, s, move).value, k)
  {
    if move.Pop? {
      PopKeepsPlaces(input, s, k);
    } else if move.Unmark? {
      UnmarkingKeepsPlaces(input, s, k);
    } else if move.Reply? {
      ReplyingKeepsPlaces(input, s, k);
    } else {
      OthersKeepPlaces(input, s, move, k);
    }
    SameAccount(input, s, MainNext(input, s, move).value, k);
  }

  lemma {:induction false} RequestsAreConserved(input: seq<Frame>, capacity: nat, moves: seq<Move>, k: nat)
    requires Run(input, capacity, moves).Some?
    ensures Accounted(input, Run(input, capacity, moves).value, k)
  {
    if moves != [] {
      RequestsAreConserved(input, capacity, moves[..|moves| - 1], k);
      var earlier := Run(input, capacity, moves[..|moves| - 1]).value;
      if ByReader(moves[|moves| - 1]) {
        ReaderKeepsAccount(input, capacity, earlier, moves[|moves| - 1], k);
      } else {
        MainKeepsAccount(input, earlier, moves[|moves| - 1], k);
      }
    }
  }

  /** So no request gets two replies, and one that gets a reply was neither refused, purged, stopped nor dropped. */
  lemma AtMostOneReply(input: seq<Frame>, capacity: nat, moves: seq<Move>, k: nat)
    requires Run(input, capacity, moves).Some?
    ensures var log := Run(input, capacity, moves).value.log;
            log.replied[k] + log.refused[k] + log.purged[k] + log.stopped[k] + log.dropped[k] + log.abandoned[k] <= 1
  {
    RequestsAreConserved(input, capacity, moves, k);
  }

  // ---------------------------------------------------------------- what was written

  /** The request in hand was written, and is not on its way out as stopped. */
  predicate PastWrite(main: Main) {
    main.Wrote? || main.Awaiting? || main.Replying? || ((main.Leaving? || main.Unmarking?) && !main.ending.Stopped?)
  }

  ghost predicate WrittenIsAlive(s: State, k: nat) {
    k in s.log.written ==> (PastWrite(s.main) && s.main.k == k) || s.log.replied[k] + s.log.abandoned[k] > 0
  }

  lemma ReaderKeepsWritten(input: seq<Frame>, capacity: nat, s: State, move: Move, k: nat)
    requires WrittenIsAlive(s, k) && ReaderNext(input, capacity, s, move).Some?
    ensures WrittenIsAlive(ReaderNext(input, capacity, s, move).value, k)
  {
  }

  lemma MainKeepsWritten(input: seq<Frame>, s: State, move: Move, k: nat)
    requires WrittenIsAlive(s, k) && MainNext(input, s, move).Some?
    ensures WrittenIsAlive(MainNext(input, s, move).value, k)
  {
  }

  lemma NextKeepsWritten(input: seq<Frame>, capacity: nat, s: State, move: Move, k: nat)
    requires WrittenIsAlive(s, k) && Next(input, capacity, s, move).Some?
    ensures WrittenIsAlive(Next(input, capacity, s, move).value, k)
  {
    if ByReader(move) {
      ReaderKeepsWritten(input, capacity, s, move, k);
    } else {
      MainKeepsWritten(input, s, move, k);
    }
  }

  /** A request that was refused, purged, stopped or dropped is never written, before or after. */
  lemma {:induction false} WrittenIsNeverDiscarded(input: seq<Frame>, capacity: nat, moves: seq<Move>, k: nat)
    requires Run(input, capacity, moves).Some?
    ensures WrittenIsAlive(Run(input, capacity, moves).value, k)
    ensures var log := Run(input, capacity, moves).value.log;
            log.refused[k] + log.purged[k] + log.stopped[k] + log.dropped[k] > 0 ==> k !in log.written
  {
    if moves != [] {
      WrittenIsNeverDiscarded(input, capacity, moves[..|moves| - 1], k);
      NextKeepsWritten(input, capacity, Run(input, capacity, moves[..|moves| - 1]).value, moves[|moves| - 1], k);
    }
    RequestsAreConserved(input, capacity, moves, k);
  }

  /** Of the requests written to the backend at most one still waits for its answer. */
  lemma AtMostOneOutstanding(input: seq<Frame>, capacity: nat, moves: seq<Move>, j: nat, k: nat)
    requires Run(input, capacity, moves).Some?
    requires var log := Run(input, capacity, moves).value.log;
             && j in log.written && log.replied[j] + log.abandoned[j] == 0
             && k in log.written && log.replied[k] + log.abandoned[k] == 0
    ensures j == k
  {
    WrittenIsNeverDiscarded(input, capacity, moves, j);
    WrittenIsNeverDiscarded(input, capacity, moves, k);
  }

  // ---------------------------------------------------------------- markers

  /** The flight and the pending id follow the main loop. */
  ghost predicate InStep(input: seq<Frame>, s: State) {
    && (InMain(s.main) ==> s.shared.pending == IdAt(input, s.main.k))
    && (!InMain(s.main) ==> s.shared.pending == None)
    && match s.shared.flight
       case NoFlight => !InMain(s.main) || s.main.Handling? || s.main.Replying? || s.main.Finishing? || s.main.Unmarking?
       case Flight(id, written) =>
         && InMain(s.main) && id == IdAt(input, s.main.k)
         && (s.main.Registered? || s.main.Checked? || s.main.Writing? || s.main.Wrote? || s.main.Awaiting? || s.main.Leaving?)
         && (written ==> s.main.Awaiting? || (s.main.Leaving? && !s.main.ending.Stopped?))
  }

  lemma ReaderLeavesMain(input: seq<Frame>, capacity: nat, s: State, move: Move)
    requires ReaderNext(input, capacity, s, move).Some?
    ensures var s' := ReaderNext(input, capacity, s, move).value;
            s'.main == s.main && s'.shared.pending == s.shared.pending && s'.shared.flight == s.shared.flight
  {
  }

  lemma MainKeepsStep(input: seq<Frame>, s: State, move: Move)
    requires InStep(input, s) && MainNext(input, s, move).Some?
    ensures InStep(input, MainNext(input, s, move).value)
  {
  }

  lemma NextKeepsStep(input: seq<Frame>, capacity: nat, s: State, move: Move)
    requires InStep(input, s) && Next(input, capacity, s, move).Some?
    ensures InStep(input, Next(input, capacity, s, move).value)
  {
    if ByReader(move) {
      ReaderLeavesMain(input, capacity, s, move);
    } else {
      MainKeepsStep(input, s, move);
    }
  }

  lemma {:induction false} RunKeepsStep(input: seq<Frame>, capacity: nat, moves: seq<Move>)
    requires Run(input, capacity, moves).Some?
    ensures InStep(input, Run(input, capacity, moves).value)
  {
    if moves != [] {
      RunKeepsStep(input, capacity, moves[..|moves| - 1]);
      NextKeepsStep(input, capacity, Run(input, capacity, moves[..|moves| - 1]).value, moves[|moves| - 1]);
    }
  }

  predicate NoRepeats(markers: seq<Id>) {
    markers == [] || (NoRepeats(markers[..|markers| - 1]) && markers[|markers| - 1] !in markers[..|markers| - 1])
  }

  /** A marker names the request in hand, or was left behind; none is there twice. */
  ghost predicate MarkersFollow(input: seq<Frame>, s: State) {
    && (forall m | m in s.shared.markers :: (InMain(s.main) && IdAt(input, s.main.k) == Some(m)) || m in s.log.leaked)
    && NoRepeats(s.shared.markers)
  }
}
