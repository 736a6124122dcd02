/** Recovery from a lost downstream session by several threads at once (streamable_http_stdio.py,
    StreamableHttpClient.post, _recover_session_loss, reinitialize_session, initialize). */
module SessionRecovery {
  import opened Common

  type Session = nat

  /** The fields guarded by `_lock`. A session id is never the empty string. */
  datatype Shared = Shared(sessionId: Option<Session>, initialized: bool, generation: nat)

  const FRESH_CLIENT := Shared(None, false, 0)

  // ---------------------------------------------------------------- the locked regions

  predicate NewerSessionLive(s: Shared, failed: Option<Session>) {
    s.initialized && s.sessionId.Some? && s.sessionId != failed
  }

  function Invalidate(s: Shared): Shared {
    Shared(None, false, s.generation + 1)
  }

  function InvalidateIfFailed(s: Shared, failed: Option<Session>): Shared {
    if s.sessionId == failed || !s.initialized then Invalidate(s) else s
  }

  predicate Live(s: Shared) {
    s.initialized && s.sessionId.Some?
  }

  function Guard(s: Shared): Shared {
    if Live(s) then s else Invalidate(s)
  }

  function Install(s: Shared, issued: Option<Session>): Shared {
    if issued.Some? then Shared(issued, true, s.generation + 1) else s.(initialized := true)
  }

  /** The client object; each method is one `with self._lock` region. */
  class StreamableHttpClient {
    var sessionId: Option<Session>
    var initialized: bool
    var generation: nat

    function View(): Shared
      reads this
    {
      Shared(sessionId, initialized, generation)
    }

    constructor ()
      ensures View() == FRESH_CLIENT
    {
      sessionId, initialized, generation := None, false, 0;
    }

    /** Whether a session is live that clearing after the failed one would leave in place. */
    method CheckNewerSession(failed: Option<Session>) returns (live: bool)
      ensures live <==> NewerSessionLive(View(), failed)
      ensures live <==> Live(InvalidateIfFailed(View(), failed))
    {
      var current := sessionId;
      live := initialized && current.Some? && current != failed;
    }

    method ClearFailedSession(failed: Option<Session>)
      modifies this
      ensures View() == InvalidateIfFailed(old(View()), failed)
    {
      if sessionId == failed || !initialized {
        sessionId := None;
        initialized := false;
        generation := generation + 1;
      }
    }

    method GuardReinitialize() returns (live: bool)
      modifies this
      ensures live <==> Live(old(View()))
      ensures View() == Guard(old(View()))
    {
      if initialized && sessionId.Some? {
        return true;
      }
      sessionId := None;
      initialized := false;
      generation := generation + 1;
      return false;
    }

    method InstallSession(issued: Option<Session>)
      modifies this
      ensures View() == Install(old(View()), issued)
    {
      if issued.Some? {
        sessionId := issued;
        generation := generation + 1;
      }
      initialized := true;
    }
  }

  // ---------------------------------------------------------------- threads

  type Thread = nat

  datatype Outcome = Answered | Failed

  /** Where a thread stands. `Want...` waits for `_lock` (or, in WantReinit, for `_reinit_lock`);
      the bare name is inside the region. `request` calls are retried once, notifications never. */
  datatype Pc =
    | Idle
    | WantSnapshot(request: bool, mayRetry: bool)
    | InSnapshot(request: bool, mayRetry: bool)
    | Posting(request: bool, mayRetry: bool, used: Option<Session>)
    | WantCheck(request: bool, failed: Option<Session>)
    | InCheck(request: bool, failed: Option<Session>)
    | WantClear(request: bool, failed: Option<Session>)
    | InClear(request: bool, failed: Option<Session>)
    | WantReinit(request: bool)
    | WantGuard(request: bool)
    | InGuard(request: bool)
    | Probing(request: bool)
    | WantInstall(request: bool, issued: Option<Session>)
    | InInstall(request: bool, issued: Option<Session>)
    | Unwinding(request: bool, recovered: bool)
    | LocalProbing
    | WantLocalInstall(issued: Option<Session>)
    | InLocalInstall(issued: Option<Session>)
    | Done(outcome: Outcome)

  datatype PostAnswer = Accepted | SessionNotFound | OtherError

  datatype ProbeAnswer = Result(issued: Option<Session>) | NoResult

  datatype State = State(
    shared: Shared,
    lock: Option<Thread>,
    reinitLock: Option<Thread>,
    pcs: map<Thread, Pc>,
    /** POSTs of the current call of each thread. */
    posts: map<Thread, nat>,
    /** Probe `initialize` requests sent; sessions installed; live sessions cleared. */
    probes: nat,
    installed: nat,
    cleared: nat)

  datatype Move =
    | StartPost(thread: Thread, request: bool)
    | StartInitialize(thread: Thread)
    | Advance(thread: Thread)
    | PostAnswered(thread: Thread, answer: PostAnswer)
    | ProbeAnswered(thread: Thread, result: ProbeAnswer)

  function PcOf(s: State, t: Thread): Pc {
    if t in s.pcs then s.pcs[t] else Idle
  }

  function PostsOf(s: State, t: Thread): nat {
    if t in s.posts then s.posts[t] else 0
  }

  predicate HoldsLock(pc: Pc) {
    pc.InSnapshot? || pc.InCheck? || pc.InClear? || pc.InGuard? || pc.InInstall? || pc.InLocalInstall?
  }

  predicate WantsLock(pc: Pc) {
    pc.WantSnapshot? || pc.WantCheck? || pc.WantClear? || pc.WantGuard? || pc.WantInstall? || pc.WantLocalInstall?
  }

  predicate HoldsReinitLock(pc: Pc) {
    pc.WantGuard? || pc.InGuard? || pc.Probing? || pc.WantInstall? || pc.InInstall? || pc.Unwinding?
  }

  /** Entering the region a thread waits for. */
  function Enter(pc: Pc): Pc
    requires WantsLock(pc)
  {
    match pc
    case WantSnapshot(request, mayRetry) => InSnapshot(request, mayRetry)
    case WantCheck(request, failed) => InCheck(request, failed)
    case WantClear(request, failed) => InClear(request, failed)
    case WantGuard(request) => InGuard(request)
    case WantInstall(request, issued) => InInstall(request, issued)
    case WantLocalInstall(issued) => InLocalInstall(issued)
  }

  /** What `_recover_session_loss` returning does to the call. */
  function Recovered(request: bool, recovered: bool): Pc {
    if !request then Done(Answered)
    else if recovered then WantSnapshot(request, false)
    else Done(Failed)
  }

  /** Leaving a region: its effect on the shared fields and where the thread goes. */
  function Leave(pc: Pc, shared: Shared): (Shared, Pc)
    requires HoldsLock(pc)
  {
    match pc
    case InSnapshot(request, mayRetry) => (shared, Posting(request, mayRetry, shared.sessionId))
    case InCheck(request, failed) =>
      (shared, if NewerSessionLive(shared, failed) then Recovered(request, true) else WantClear(request, failed))
    case InClear(request, failed) => (InvalidateIfFailed(shared, failed), WantReinit(request))
    case InGuard(request) => (Guard(shared), if Live(shared) then Unwinding(request, true) else Probing(request))
    case InInstall(request, issued) => (Install(shared, issued), Unwinding(request, true))
    case InLocalInstall(issued) => (Install(shared, issued), Done(Answered))
  }

  function Goes(s: State, t: Thread, pc: Pc): State {
    s.(pcs := s.pcs[t := pc])
  }

  function Next(s: State, move: Move): Option<State> {
    var t := move.thread;
    var pc := PcOf(s, t);
    match move
    case StartPost(_, request) =>
      if pc.Idle? || pc.Done? then Some(Goes(s, t, WantSnapshot(request, true)).(posts := s.posts[t := 0])) else None
    case StartInitialize(_) =>
      if pc.Idle? || pc.Done? then Some(Goes(s, t, LocalProbing).(posts := s.posts[t := 0])) else None
    case Advance(_) =>
      if WantsLock(pc) then
        if s.lock.None? then Some(Goes(s, t, Enter(pc)).(lock := Some(t))) else None
      else if HoldsLock(pc) then
        var (shared, next) := Leave(pc, s.shared);
        Some(Goes(s, t, next).(
          shared := shared,
          lock := None,
          probes := s.probes + if next.Probing? then 1 else 0,
          posts := if next.Posting? then s.posts[t := PostsOf(s, t) + 1] else s.posts,
          installed := s.installed + if (pc.InInstall? || pc.InLocalInstall?) && pc.issued.Some? then 1 else 0,
          cleared := s.cleared + if s.shared.sessionId.Some? && shared.sessionId.None? then 1 else 0))
      else if pc.WantReinit? then
        if s.reinitLock.None? then Some(Goes(s, t, WantGuard(pc.request)).(reinitLock := Some(t))) else None
      else if pc.Unwinding? then Some(Goes(s, t, Recovered(pc.request, pc.recovered)).(reinitLock := None))
      else None
    case PostAnswered(_, answer) =>
      if !pc.Posting? then None
      else
        Some(Goes(s, t, match answer
                        case Accepted => Done(Answered)
                        case SessionNotFound =>
                          if !pc.request || pc.mayRetry then WantCheck(pc.request, pc.used) else Done(Failed)
                        case OtherError => if pc.request then Done(Failed) else Done(Answered)))
    case ProbeAnswered(_, result) =>
      if pc.Probing? then
        Some(Goes(s, t, if result.Result? then WantInstall(pc.request, result.issued) else Unwinding(pc.request, false)))
      else if pc.LocalProbing? then
        Some(Goes(s, t, if result.Result? then WantLocalInstall(result.issued) else Done(Failed)))
      else None
  }

  const INITIAL := State(FRESH_CLIENT, None, None, map[], map[], 0, 0, 0)

  /** The state after `moves`, if each was possible. */
  function Run(s: State, moves: seq<Move>): Option<State> {
    if moves == [] then Some(s)
    else
      var earlier := Run(s, moves[..|moves| - 1]);
      if earlier.None? then None else Next(earlier.value, moves[|moves| - 1])
  }

  // ---------------------------------------------------------------- the invariant

  ghost predicate LocksAgree(s: State) {
    && (forall t: Thread :: HoldsLock(PcOf(s, t)) <==> s.lock == Some(t))
    && (forall t: Thread :: HoldsReinitLock(PcOf(s, t)) <==> s.reinitLock == Some(t))
  }

  /** A call on its first try has posted at most once, on its retry at most twice. */
  predicate PostsFit(pc: Pc, posts: nat) {
    match pc
    case Idle => posts == 0
    case WantSnapshot(_, mayRetry) => posts == if mayRetry then 0 else 1
    case InSnapshot(_, mayRetry) => posts == if mayRetry then 0 else 1
    case Posting(_, mayRetry, _) => posts == if mayRetry then 1 else 2
    case Done(_) => posts <= 2
    case LocalProbing => posts == 0
    case WantLocalInstall(_) => posts == 0
    case InLocalInstall(_) => posts == 0
    case _ => posts == 1
  }

  ghost predicate Inv(s: State) {
    && LocksAgree(s)
    && (s.shared.sessionId.Some? ==> s.shared.initialized)
    && (forall t: Thread :: PostsFit(PcOf(s, t), PostsOf(s, t)))
    && (forall t: Thread :: RetriesOnlyRequests(PcOf(s, t)))
  }

  predicate RetriesOnlyRequests(pc: Pc) {
    pc.WantSnapshot? || pc.InSnapshot? || pc.Posting? ==> pc.request || pc.mayRetry
  }

  /** A move touches nothing of the other threads. */
  lemma OthersStay(s: State, move: Move, t: Thread)
    requires Next(s, move).Some? && t != move.thread
    ensures PcOf(Next(s, move).value, t) == PcOf(s, t) && PostsOf(Next(s, move).value, t) == PostsOf(s, t)
  {
  }

  /** What a step does to its own thread and to the locks. */
  predicate MovedWell(s: State, s': State, t: Thread) {
    var pc, pc' := PcOf(s, t), PcOf(s', t);
    && PostsFit(pc', PostsOf(s', t))
    && RetriesOnlyRequests(pc')
    && s'.lock == (if HoldsLock(pc') then Some(t) else if HoldsLock(pc) then None else s.lock)
    && s'.reinitLock == (if HoldsReinitLock(pc') then Some(t) else if HoldsReinitLock(pc) then None else s.reinitLock)
    && (HoldsLock(pc') ==> HoldsLock(pc) || s.lock.None?)
    && (HoldsReinitLock(pc') ==> HoldsReinitLock(pc) || s.reinitLock.None?)
    && (s'.shared.sessionId.Some? ==> s'.shared.initialized)
  }

  lemma LeavingMovesWell(s: State, t: Thread)
    requires Inv(s) && HoldsLock(PcOf(s, t))
    ensures Next(s, Advance(t)).Some? && MovedWell(s, Next(s, Advance(t)).value, t)
  {
    assert RetriesOnlyRequests(PcOf(s, t)) && PostsFit(PcOf(s, t), PostsOf(s, t));
  }

  lemma WaitingMovesWell(s: State, t: Thread)
    requires Inv(s) && !HoldsLock(PcOf(s, t)) && Next(s, Advance(t)).Some?
    ensures MovedWell(s, Next(s, Advance(t)).value, t)
  {
    assert RetriesOnlyRequests(PcOf(s, t)) && PostsFit(PcOf(s, t), PostsOf(s, t));
  }

  lemma MoverFits(s: State, move: Move)
    requires Inv(s) && Next(s, move).Some?
    ensures MovedWell(s, Next(s, move).value, move.thread)
  {
    var t := move.thread;
    if HoldsLock(PcOf(s, t)) {
      LeavingMovesWell(s, t);
    } else if move.Advance? {
      WaitingMovesWell(s, t);
    } else {
      assert RetriesOnlyRequests(PcOf(s, t)) && PostsFit(PcOf(s, t), PostsOf(s, t));
    }
  }

  lemma NextKeepsInv(s: State, move: Move)
    requires Inv(s) && Next(s, move).Some?
    ensures Inv(Next(s, move).value)
  {
    var s' := Next(s, move).value;
    MoverFits(s, move);
    forall t: Thread
      ensures HoldsLock(PcOf(s', t)) <==> s'.lock == Some(t)
      ensures HoldsReinitLock(PcOf(s', t)) <==> s'.reinitLock == Some(t)
      ensures PostsFit(PcOf(s', t), PostsOf(s', t)) && RetriesOnlyRequests(PcOf(s', t))
    {
      if t != move.thread {
        OthersStay(s, move, t);
        assert PostsFit(PcOf(s, t), PostsOf(s, t)) && RetriesOnlyRequests(PcOf(s, t));
      }
    }
  }

  lemma {:induction false} RunKeepsInv(s: State, moves: seq<Move>)
    requires Inv(s) && Run(s, moves).Some?
    ensures Inv(Run(s, moves).value)
  {
    if moves != [] {
      RunKeepsInv(s, moves[..|moves| - 1]);
      NextKeepsInv(Run(s, moves[..|moves| - 1]).value, moves[|moves| - 1]);
    }
  }

  lemma InitialInv()
    ensures Inv(INITIAL)
  {
  }

  /** No call posts its message more than twice, and only a retried request posts it twice. */
  lemma AtMostTwoPosts(moves: seq<Move>, t: Thread)
    requires Run(INITIAL, moves).Some?
    ensures PostsOf(Run(INITIAL, moves).value, t) <= 2
    ensures var s := Run(INITIAL, moves).value;
            PcOf(s, t).Posting? && PostsOf(s, t) == 2 ==> PcOf(s, t).request && !PcOf(s, t).mayRetry
  {
    InitialInv();
    RunKeepsInv(INITIAL, moves);
    var s := Run(INITIAL, moves).value;
    assert PostsFit(PcOf(s, t), PostsOf(s, t)) && RetriesOnlyRequests(PcOf(s, t));
  }

  /** A live session is cleared only by a thread whose own request failed on that very session;
      otherwise it can only be replaced by a newly issued one. */
  lemma OnlyTheFailedSessionIsCleared(moves: seq<Move>, move: Move, x: Session)
    requires Run(INITIAL, moves).Some? && Next(Run(INITIAL, moves).value, move).Some?
    requires Run(INITIAL, moves).value.shared.sessionId == Some(x)
    requires Next(Run(INITIAL, moves).value, move).value.shared.sessionId != Some(x)
    ensures var s, s' := Run(INITIAL, moves).value, Next(Run(INITIAL, moves).value, move).value;
            var pc := PcOf(s, move.thread);
            if s'.shared.sessionId.None? then pc.InClear? && pc.failed == Some(x)
            else (pc.InInstall? || pc.InLocalInstall?) && pc.issued == s'.shared.sessionId
  {
    InitialInv();
    RunKeepsInv(INITIAL, moves);
  }

  // ---------------------------------------------------------------- no deadlock, and every call returns

  predicate Busy(pc: Pc) {
    !pc.Idle? && !pc.Done?
  }

  /** Own steps a thread may still take, at most. */
  function Rank(pc: Pc): nat {
    match pc
    case Idle => 0
    case Done(_) => 0
    case WantSnapshot(_, mayRetry) => if mayRetry then 19 else 3
    case InSnapshot(_, mayRetry) => if mayRetry then 18 else 2
    case Posting(request, mayRetry, _) => if mayRetry || !request then 17 else 1
    case WantCheck(_, _) => 16
    case InCheck(_, _) => 15
    case WantClear(_, _) => 14
    case InClear(_, _) => 13
    case WantReinit(_) => 12
    case WantGuard(_) => 11
    case InGuard(_) => 10
    case Probing(_) => 9
    case WantInstall(_, _) => 8
    case InInstall(_, _) => 7
    case Unwinding(_, _) => 6
    case LocalProbing => 3
    case WantLocalInstall(_) => 2
    case InLocalInstall(_) => 1
  }

  predicate Starts(move: Move) {
    move.StartPost? || move.StartInitialize?
  }

  /** Whatever the schedule, some thread can go on while any is busy. */
  lemma NoDeadlock(s: State, t: Thread) returns (move: Move)
    requires Inv(s) && Busy(PcOf(s, t))
    ensures !Starts(move) && Next(s, move).Some?
  {
    if s.lock.Some? {
      assert HoldsLock(PcOf(s, s.lock.value));
      move := Advance(s.lock.value);
    } else {
      var u := if s.reinitLock.Some? then s.reinitLock.value else t;
      assert s.reinitLock.Some? ==> HoldsReinitLock(PcOf(s, u));
      var pc := PcOf(s, u);
      assert !HoldsLock(pc);
      move := if pc.Posting? then PostAnswered(u, Accepted)
              else if pc.Probing? || pc.LocalProbing? then ProbeAnswered(u, NoResult)
              else Advance(u);
    }
  }

  /** The steps the threads below `n` may still take. */
  function TotalRank(s: State, n: nat): nat {
    if n == 0 then 0 else TotalRank(s, n - 1) + Rank(PcOf(s, n - 1))
  }

  lemma {:induction false} OneThreadMoves(s: State, s': State, n: nat, t: Thread)
    requires forall u: Thread :: u != t ==> PcOf(s', u) == PcOf(s, u)
    requires Rank(PcOf(s', t)) < Rank(PcOf(s, t))
    ensures if t < n then TotalRank(s', n) < TotalRank(s, n) else TotalRank(s', n) == TotalRank(s, n)
  {
    if n > 0 {
      OneThreadMoves(s, s', n - 1, t);
    }
  }

  lemma EnteringLowersRank(pc: Pc)
    requires WantsLock(pc)
    ensures Rank(Enter(pc)) < Rank(pc)
  {
  }

  lemma LeavingLowersRank(pc: Pc, shared: Shared)
    requires HoldsLock(pc) && RetriesOnlyRequests(pc)
    ensures Rank(Leave(pc, shared).1) < Rank(pc)
  {
  }

  lemma AdvanceLowersRank(s: State, t: Thread)
    requires Inv(s) && Next(s, Advance(t)).Some?
    ensures Rank(PcOf(Next(s, Advance(t)).value, t)) < Rank(PcOf(s, t))
  {
    var pc := PcOf(s, t);
    assert RetriesOnlyRequests(pc);
    if WantsLock(pc) {
      EnteringLowersRank(pc);
    } else if HoldsLock(pc) {
      LeavingLowersRank(pc, s.shared);
    }
  }

  lemma OwnStepLowersRank(s: State, move: Move)
    requires Inv(s) && !Starts(move) && Next(s, move).Some?
    ensures Rank(PcOf(Next(s, move).value, move.thread)) < Rank(PcOf(s, move.thread))
  {
    if move.Advance? {
      AdvanceLowersRank(s, move.thread);
    }
  }

  /** Every step that starts no call brings the calls under way strictly closer to their end. */
  lemma EveryStepIsProgress(s: State, move: Move, n: nat)
    requires Inv(s) && !Starts(move) && Next(s, move).Some? && move.thread < n
    ensures TotalRank(Next(s, move).value, n) < TotalRank(s, n)
  {
    OwnStepLowersRank(s, move);
    forall u: Thread | u != move.thread ensures PcOf(Next(s, move).value, u) == PcOf(s, u) {
      OthersStay(s, move, u);
    }
    OneThreadMoves(s, Next(s, move).value, n, move.thread);
  }

  /** From any reachable state the calls under way can only run for so many steps, and where they stop,
      every call has returned: recovery never blocks for ever. */
  lemma {:induction false} EveryCallReturns(s: State, moves: seq<Move>, n: nat)
    requires Inv(s) && Run(s, moves).Some?
    requires forall k :: 0 <= k < |moves| ==> !Starts(moves[k]) && moves[k].thread < n
    ensures |moves| + TotalRank(Run(s, moves).value, n) <= TotalRank(s, n)
    ensures (forall move :: !Starts(move) ==> Next(Run(s, moves).value, move).None?) ==>
              forall t: Thread :: !Busy(PcOf(Run(s, moves).value, t))
  {
    RunKeepsInv(s, moves);
    var last := Run(s, moves).value;
    if moves != [] {
      var front := moves[..|moves| - 1];
      EveryCallReturns(s, front, n);
      RunKeepsInv(s, front);
      EveryStepIsProgress(Run(s, front).value, moves[|moves| - 1], n);
    }
    forall t: Thread | Busy(PcOf(last, t)) ensures exists move :: !Starts(move) && Next(last, move).Some? {
      var move := NoDeadlock(last, t);
    }
  }

  // ---------------------------------------------------------------- one loss, one initialize

  /** Sessions are conserved: without local initializes, every installed session but the live one was cleared. */
  ghost predicate Conserved(s: State) {
    && s.installed == s.cleared + (if s.shared.sessionId.Some? then 1 else 0)
    && (forall t: Thread :: PcOf(s, t).Probing? || PcOf(s, t).WantInstall? || PcOf(s, t).InInstall? ==> s.shared.sessionId.None?)
    && (forall t: Thread :: !PcOf(s, t).LocalProbing? && !PcOf(s, t).WantLocalInstall? && !PcOf(s, t).InLocalInstall?)
  }

  predicate ConservesFor(s: State, s': State, t: Thread) {
    var pc := PcOf(s', t);
    && s'.installed == s'.cleared + (if s'.shared.sessionId.Some? then 1 else 0)
    && (pc.Probing? || pc.WantInstall? || pc.InInstall? ==> s'.shared.sessionId.None?)
    && !pc.LocalProbing? && !pc.WantLocalInstall? && !pc.InLocalInstall?
    && (s'.shared.sessionId.Some? && s.shared.sessionId.None? ==> HoldsReinitLock(PcOf(s, t)))
  }

  lemma LeavingConserves(s: State, t: Thread)
    requires Inv(s) && Conserved(s) && HoldsLock(PcOf(s, t))
    ensures Next(s, Advance(t)).Some? && ConservesFor(s, Next(s, Advance(t)).value, t)
  {
    assert !PcOf(s, t).InLocalInstall?;
  }

  lemma MoverConserves(s: State, move: Move)
    requires Inv(s) && Conserved(s) && !move.StartInitialize? && Next(s, move).Some?
    ensures ConservesFor(s, Next(s, move).value, move.thread)
  {
    if HoldsLock(PcOf(s, move.thread)) {
      LeavingConserves(s, move.thread);
    } else {
      assert !PcOf(s, move.thread).InLocalInstall?;
    }
  }

  lemma NextConserves(s: State, move: Move)
    requires Inv(s) && Conserved(s) && !move.StartInitialize? && Next(s, move).Some?
    ensures Conserved(Next(s, move).value)
  {
    var s' := Next(s, move).value;
    MoverConserves(s, move);
    forall t: Thread
      ensures PcOf(s', t).Probing? || PcOf(s', t).WantInstall? || PcOf(s', t).InInstall? ==> s'.shared.sessionId.None?
      ensures !PcOf(s', t).LocalProbing? && !PcOf(s', t).WantLocalInstall? && !PcOf(s', t).InLocalInstall?
    {
      if t != move.thread {
        OthersStay(s, move, t);
        assert !PcOf(s, t).LocalProbing?;
        if HoldsReinitLock(PcOf(s, t)) {
          assert s.reinitLock == Some(t);
        }
      }
    }
  }

  /** When no local initialize interferes, a session is installed only over an empty slot, and the number of
      installed sessions exceeds the number of cleared ones by exactly the live one. */
  lemma {:induction false} SessionsAreConserved(moves: seq<Move>)
    requires Run(INITIAL, moves).Some? && forall k :: 0 <= k < |moves| ==> !moves[k].StartInitialize?
    ensures Conserved(Run(INITIAL, moves).value)
  {
    if moves != [] {
      var front := moves[..|moves| - 1];
      SessionsAreConserved(front);
      InitialInv();
      RunKeepsInv(INITIAL, front);
      NextConserves(Run(INITIAL, front).value, moves[|moves| - 1]);
    }
  }

  /** The session a request used: the lost one, or none while none was live. */
  predicate LostOrNone(used: Option<Session>, x: Session) {
    used == None || used == Some(x)
  }

  /** Where a call can be while session `x` is lost and replaced. */
  predicate OnSession(pc: Pc, x: Session) {
    match pc
    case WantCheck(_, failed) => LostOrNone(failed, x)
    case InCheck(_, failed) => LostOrNone(failed, x)
    case WantClear(_, failed) => LostOrNone(failed, x)
    case InClear(_, failed) => LostOrNone(failed, x)
    case WantInstall(_, issued) => issued.Some? && issued != Some(x)
    case InInstall(_, issued) => issued.Some? && issued != Some(x)
    case Unwinding(_, recovered) => recovered
    case LocalProbing => false
    case WantLocalInstall(_) => false
    case InLocalInstall(_) => false
    case _ => true
  }

  /** A call that got HTTP 404 and has not yet cleared the session. */
  predicate Noticing(pc: Pc) {
    pc.WantCheck? || pc.InCheck? || pc.WantClear? || pc.InClear?
  }

  /** Every request under way used session `x`. */
  predicate UsesOnly(pc: Pc, x: Session) {
    && (pc.Posting? && pc.mayRetry ==> pc.used == Some(x))
    && (Noticing(pc) ==> pc.failed == Some(x))
  }

  /** Past the clearing region: such a thread exists only after the loss was noticed. */
  predicate PastClear(pc: Pc) {
    pc.WantReinit? || HoldsReinitLock(pc)
  }

  predicate InProbe(pc: Pc) {
    pc.Probing? || pc.WantInstall? || pc.InInstall?
  }

  /** Phase 1: session `x` is still in place and no thread has cleared it. */
  ghost predicate StillLive(s: State, x: Session) {
    s.shared.sessionId == Some(x) && s.probes == 0 && forall t: Thread :: !PastClear(PcOf(s, t)) && UsesOnly(PcOf(s, t), x)
  }

  /** Phase 2: the slot is empty, somebody is on the way to fill it, and only the lock holder may have probed. */
  ghost predicate BeingReplaced(s: State) {
    && s.shared.sessionId.None? && !s.shared.initialized
    && (exists t: Thread :: PastClear(PcOf(s, t)))
    && (forall t: Thread :: !PcOf(s, t).Unwinding?)
    && s.probes == if s.reinitLock.Some? && InProbe(PcOf(s, s.reinitLock.value)) then 1 else 0
  }

  /** Phase 3: a fresh session is live. */
  ghost predicate Replaced(s: State, x: Session) {
    && s.shared.sessionId.Some? && s.shared.sessionId != Some(x)
    && s.probes == 1 && forall t: Thread :: !InProbe(PcOf(s, t))
  }

  ghost predicate OneLoss(s: State, x: Session) {
    && Inv(s) && (forall t: Thread :: OnSession(PcOf(s, t), x))
    && (StillLive(s, x) || BeingReplaced(s) || Replaced(s, x))
  }

  /** Some call has received the 404. */
  ghost predicate Noticed(s: State, x: Session) {
    BeingReplaced(s) || Replaced(s, x) || exists t: Thread :: Noticing(PcOf(s, t))
  }

  /** A 404 for the first try of a request, or for a notification. */
  predicate Loses(s: State, move: Move) {
    && move.PostAnswered? && move.answer.SessionNotFound?
    && PcOf(s, move.thread).Posting? && (!PcOf(s, move.thread).request || PcOf(s, move.thread).mayRetry)
  }

  /** Only session `x` is lost: a 404 answers a request that used it or none, and every probe is answered with another
      session id. Calls may start at any time; local initializes may not. */
  predicate Cooperative(s: State, move: Move, x: Session) {
    && !move.StartInitialize?
    && (Loses(s, move) ==> LostOrNone(PcOf(s, move.thread).used, x))
    && (move.ProbeAnswered? ==> move.result.Result? && move.result.issued.Some? && move.result.issued != Some(x))
  }

  lemma MoverStaysOnSession(s: State, move: Move, x: Session)
    requires Inv(s) && OnSession(PcOf(s, move.thread), x) && Cooperative(s, move, x) && Next(s, move).Some?
    requires s.shared.sessionId.Some? || !s.shared.initialized
    ensures OnSession(PcOf(Next(s, move).value, move.thread), x)
  {
  }

  /** What a thread can do while session `x` is in place. */
  predicate StepsWhileLive(s: State, s': State, t: Thread, x: Session) {
    var pc, pc' := PcOf(s, t), PcOf(s', t);
    && s'.probes == 0
    && (if pc.InClear? then s'.shared.sessionId.None? && !s'.shared.initialized && pc'.WantReinit?
        else s'.shared.sessionId == Some(x) && !PastClear(pc') && UsesOnly(pc', x))
  }

  lemma MoverWhileLive(s: State, move: Move, x: Session)
    requires Cooperative(s, move, x) && Next(s, move).Some? && s.shared.sessionId == Some(x) && s.shared.initialized && s.probes == 0
    requires !PastClear(PcOf(s, move.thread)) && UsesOnly(PcOf(s, move.thread), x) && OnSession(PcOf(s, move.thread), x)
    requires RetriesOnlyRequests(PcOf(s, move.thread))
    ensures StepsWhileLive(s, Next(s, move).value, move.thread, x)
  {
  }

  lemma StepFromStillLive(s: State, s': State, t: Thread, x: Session)
    requires LocksAgree(s') && StillLive(s, x) && StepsWhileLive(s, s', t, x)
    requires forall u: Thread | u != t :: PcOf(s', u) == PcOf(s, u)
    ensures if PcOf(s, t).InClear? then BeingReplaced(s') else StillLive(s', x)
  {
    if PcOf(s, t).InClear? {
      assert PastClear(PcOf(s', t));
      assert forall u: Thread | u != t :: !PastClear(PcOf(s, u));
      assert forall u: Thread :: HoldsReinitLock(PcOf(s', u)) <==> s'.reinitLock == Some(u);
    } else {
      assert forall u: Thread | u != t :: !PastClear(PcOf(s, u)) && UsesOnly(PcOf(s, u), x);
    }
  }

  /** What a thread can do while the slot is empty. */
  predicate StepsWhileReplaced(s: State, s': State, t: Thread, x: Session) {
    var pc, pc' := PcOf(s, t), PcOf(s', t);
    if pc.InInstall? then
      s'.shared.sessionId.Some? && s'.shared.sessionId != Some(x) && s'.probes == s.probes && !InProbe(pc')
    else
      && s'.shared.sessionId.None? && !s'.shared.initialized && !pc'.Unwinding?
      && (PastClear(pc) ==> PastClear(pc')) && (InProbe(pc) ==> InProbe(pc'))
      && (InProbe(pc') && !InProbe(pc) ==> HoldsReinitLock(pc))
      && s'.probes == s.probes + if InProbe(pc') && !InProbe(pc) then 1 else 0
  }

  lemma MoverWhileReplaced(s: State, move: Move, x: Session)
    requires Cooperative(s, move, x) && Next(s, move).Some? && s.shared.sessionId.None? && !s.shared.initialized
    requires OnSession(PcOf(s, move.thread), x) && !PcOf(s, move.thread).Unwinding?
    ensures StepsWhileReplaced(s, Next(s, move).value, move.thread, x)
  {
  }

  lemma StepFromBeingReplaced(s: State, s': State, t: Thread, x: Session)
    requires LocksAgree(s) && LocksAgree(s') && BeingReplaced(s) && StepsWhileReplaced(s, s', t, x)
    requires forall u: Thread | u != t :: PcOf(s', u) == PcOf(s, u)
    ensures BeingReplaced(s') || Replaced(s', x)
  {
    assert HoldsReinitLock(PcOf(s, t)) <==> s.reinitLock == Some(t);
    if PcOf(s, t).InInstall? {
      assert forall u: Thread | u != t :: !HoldsReinitLock(PcOf(s, u));
    } else {
      var w: Thread :| PastClear(PcOf(s, w));
      assert PastClear(PcOf(s', w));
    }
  }

  lemma NextFromReplaced(s: State, move: Move, x: Session)
    requires OneLoss(s, x) && Replaced(s, x) && Cooperative(s, move, x) && Next(s, move).Some?
    ensures Replaced(Next(s, move).value, x)
  {
    var s' := Next(s, move).value;
    assert OnSession(PcOf(s, move.thread), x) && !InProbe(PcOf(s, move.thread));
    forall u: Thread | u != move.thread ensures PcOf(s', u) == PcOf(s, u) {
      OthersStay(s, move, u);
    }
  }

  lemma NextKeepsPhase(s: State, move: Move, x: Session)
    requires OneLoss(s, x) && Cooperative(s, move, x) && Next(s, move).Some?
    ensures var s' := Next(s, move).value;
            if StillLive(s, x) && !PcOf(s, move.thread).InClear? then StillLive(s', x) else BeingReplaced(s') || Replaced(s', x)
  {
    var s' := Next(s, move).value;
    assert OnSession(PcOf(s, move.thread), x);
    NextKeepsInv(s, move);
    forall u: Thread | u != move.thread ensures PcOf(s', u) == PcOf(s, u) {
      OthersStay(s, move, u);
    }
    if StillLive(s, x) {
      assert !PastClear(PcOf(s, move.thread)) && UsesOnly(PcOf(s, move.thread), x) && RetriesOnlyRequests(PcOf(s, move.thread));
      MoverWhileLive(s, move, x);
      StepFromStillLive(s, s', move.thread, x);
    } else if BeingReplaced(s) {
      MoverWhileReplaced(s, move, x);
      StepFromBeingReplaced(s, s', move.thread, x);
    } else {
      NextFromReplaced(s, move, x);
    }
  }

  lemma NextKeepsOneLoss(s: State, move: Move, x: Session)
    requires OneLoss(s, x) && Cooperative(s, move, x) && Next(s, move).Some?
    ensures OneLoss(Next(s, move).value, x)
  {
    var s' := Next(s, move).value;
    NextKeepsInv(s, move);
    NextKeepsPhase(s, move, x);
    assert OnSession(PcOf(s, move.thread), x);
    MoverStaysOnSession(s, move, x);
    forall t: Thread ensures OnSession(PcOf(s', t), x) {
      if t != move.thread {
        OthersStay(s, move, t);
        assert OnSession(PcOf(s, t), x);
      }
    }
  }

  /** While session `x` is in place a thread begins or goes on noticing its loss as its own answers say. */
  lemma MoverNotices(s: State, move: Move, x: Session)
    requires Next(s, move).Some? && s.shared.sessionId == Some(x) && UsesOnly(PcOf(s, move.thread), x)
    requires !PastClear(PcOf(s, move.thread))
    ensures Noticing(PcOf(Next(s, move).value, move.thread))
            <==> Loses(s, move) || (Noticing(PcOf(s, move.thread)) && !PcOf(s, move.thread).InClear?)
  {
  }

  /** The loss is noticed exactly by the calls that receive the 404, and is never forgotten. */
  lemma NextNotices(s: State, move: Move, x: Session)
    requires OneLoss(s, x) && Cooperative(s, move, x) && Next(s, move).Some?
    ensures Noticed(Next(s, move).value, x) <==> Noticed(s, x) || Loses(s, move)
  {
    var s', m := Next(s, move).value, move.thread;
    NextKeepsPhase(s, move, x);
    if StillLive(s, x) && !PcOf(s, m).InClear? {
      assert !PastClear(PcOf(s, m)) && UsesOnly(PcOf(s, m), x);
      MoverNotices(s, move, x);
      forall t: Thread | t != m ensures PcOf(s', t) == PcOf(s, t) {
        OthersStay(s, move, t);
      }
      assert forall t: Thread | t != m :: Noticing(PcOf(s', t)) <==> Noticing(PcOf(s, t));
      if t: Thread :| Noticing(PcOf(s, t)) {
        assert Noticing(PcOf(s', t));
      }
    } else {
      assert Noticing(PcOf(s, m)) || !StillLive(s, x);
    }
  }

  /** Every move of the run was one of a single loss. */
  ghost predicate CooperativeRun(s: State, moves: seq<Move>, x: Session) {
    moves == []
    || (CooperativeRun(s, moves[..|moves| - 1], x) && Run(s, moves[..|moves| - 1]).Some?
        && Cooperative(Run(s, moves[..|moves| - 1]).value, moves[|moves| - 1], x))
  }

  predicate LostAt(s: State, moves: seq<Move>, k: nat)
    requires k < |moves|
  {
    var earlier := Run(s, moves[..k]);
    earlier.Some? && Loses(earlier.value, moves[k])
  }

  /** Some call received the 404 during the run. */
  ghost predicate LossSeen(s: State, moves: seq<Move>) {
    exists k: nat :: k < |moves| && LostAt(s, moves, k)
  }

  lemma LostAtPrefix(s: State, moves: seq<Move>, more: seq<Move>, k: nat)
    requires k < |moves|
    ensures LostAt(s, moves + more, k) <==> LostAt(s, moves, k)
  {
    assert (moves + more)[..k] == moves[..k];
  }

  lemma LossSeenSnoc(s: State, front: seq<Move>, move: Move)
    requires Run(s, front).Some?
    ensures LossSeen(s, front + [move]) <==> LossSeen(s, front) || Loses(Run(s, front).value, move)
  {
    var moves := front + [move];
    assert moves[..|front|] == front;
    assert LostAt(s, moves, |front|) <==> Loses(Run(s, front).value, move);
    forall k: nat | k < |front| ensures LostAt(s, moves, k) <==> LostAt(s, front, k) {
      LostAtPrefix(s, front, [move], k);
    }
    if k: nat :| k < |front| && LostAt(s, front, k) {
      assert LostAt(s, moves, k);
    }
  }

  lemma {:induction false} LossIsNoticedExactlyWhenSeen(s: State, moves: seq<Move>, x: Session)
    requires OneLoss(s, x) && !Noticed(s, x) && Run(s, moves).Some? && CooperativeRun(s, moves, x)
    ensures OneLoss(Run(s, moves).value, x)
    ensures Noticed(Run(s, moves).value, x) <==> LossSeen(s, moves)
  {
    if moves != [] {
      var earlier := Run(s, moves[..|moves| - 1]).value;
      LossIsNoticedExactlyWhenSeen(s, moves[..|moves| - 1], x);
      NextKeepsOneLoss(earlier, moves[|moves| - 1], x);
      NextNotices(earlier, moves[|moves| - 1], x);
      LossSeenSnoc(s, moves[..|moves| - 1], moves[|moves| - 1]);
      assert moves == moves[..|moves| - 1] + [moves[|moves| - 1]];
    }
  }

  /** However many calls use one session, start and interleave while it is lost, at most one fresh `initialize` is sent.
      When all calls have returned, exactly one was sent and its session is live if any call received the 404, and
      none was sent and `x` is in place if none did. */
  lemma OneLossOneInitialize(s: State, moves: seq<Move>, x: Session)
    requires OneLoss(s, x) && !Noticed(s, x) && Run(s, moves).Some? && CooperativeRun(s, moves, x)
    ensures Run(s, moves).value.probes <= 1
    ensures var last := Run(s, moves).value;
            (forall t: Thread :: !Busy(PcOf(last, t))) ==>
              if LossSeen(s, moves) then last.probes == 1 && last.shared.sessionId.Some? && last.shared.sessionId != Some(x)
              else last.probes == 0 && last.shared.sessionId == Some(x)
  {
    LossIsNoticedExactlyWhenSeen(s, moves, x);
    var last := Run(s, moves).value;
    if forall t: Thread :: !Busy(PcOf(last, t)) {
      assert forall t: Thread :: !PastClear(PcOf(last, t)) && !Noticing(PcOf(last, t));
    }
  }

  /** Any requests and notifications in flight on a live session `x` are such a group. */
  lemma CallsInFlight(generation: nat, calls: set<Thread>, requests: set<Thread>, x: Session)
    ensures var s := State(Shared(Some(x), true, generation), None, None,
                           map t | t in calls :: Posting(t in requests, true, Some(x)), map t | t in calls :: 1, 0, 0, 0);
            OneLoss(s, x) && !Noticed(s, x)
  {
  }
}
