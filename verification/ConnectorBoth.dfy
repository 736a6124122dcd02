/** Exactly when a call gets both its answer and an error. */
module ConnectorBoth {
  import opened Common
  import opened ConnectorEngine
  import opened ConnectorRuns
  import opened ConnectorSafety
  import opened ConnectorGaps

  predicate IsRequest(input: seq<AgentLine>, k: nat, id: JsonId) {
    k < |input| && RoleOf(input[k]) == Request(id)
  }

  /** The request was written and is not remembered yet. */
  predicate Unremembered(s: State, k: nat) {
    (s.writer.Checking? || s.writer.Noting?) && s.writer.k == k
  }

  /** The loss of some session has taken the id for failed, and its error is written or about to be. */
  predicate TakenForLost(s: State, id: JsonId) {
    HeldByReaders(s.readers, id) > 0 || CountErrors(s.log.errors, id) > 0
  }

  predicate SomeLosing(s: State) {
    exists i: nat :: i < |s.readers| && s.readers[i].pc.Losing?
  }

  // ---------------------------------------------------------------- where a written request is

  lemma NotAnInitialize(input: seq<AgentLine>, q: nat, k: nat, id: JsonId)
    requires UniqueCalls(input) && IsRequest(input, k, id) && q < |input| && RoleOf(input[q]).Initialize?
    ensures CallId(input[q]) != Some(id)
  {
    assert q != k && CallId(input[k]) == Some(id);
  }

  lemma {:induction false} OnlyInitializeWaits(input: seq<AgentLine>, queue: seq<nat>, n: nat, k: nat, id: JsonId)
    requires UniqueCalls(input) && IsRequest(input, k, id)
    requires forall q | q in queue :: Fits(input, n, q)
    ensures Queued(input, queue, id) == 0
  {
    if queue != [] {
      assert Fits(input, n, queue[0]);
      NotAnInitialize(input, queue[0], k, id);
      OnlyInitializeWaits(input, queue[1..], n, k, id);
    }
  }

  lemma {:induction false} ReadCallsCount(input: seq<AgentLine>, n: nat, k: nat, id: JsonId)
    requires n <= |input| && k < n && CallId(input[k]) == Some(id)
    ensures CallsRead(input, n, id) > 0
  {
    if k < n - 1 {
      ReadCallsCount(input, n - 1, k, id);
    }
  }

  lemma HeldIsTheRequest(input: seq<AgentLine>, s: State, k: nat, id: JsonId)
    requires UniqueCalls(input) && Shaped(input, s) && IsRequest(input, k, id)
    requires s.log.offered[k] > 0 && s.log.offered[k] + Unoffered(s.writer, k) <= 1
    ensures HeldByWriter(input, s.writer, id) > 0 ==> Unremembered(s, k)
    ensures HeldByMain(input, s.main, id) == 0
  {
    if HeldByWriter(input, s.writer, id) > 0 {
      assert CallId(input[s.writer.k]) == CallId(input[k]);
    }
    if s.main.Handing? || s.main.NotingQueued? {
      NotAnInitialize(input, s.main.k, k, id);
    }
  }

  /** A request that was written is unremembered, outstanding, taken for lost, answered or forgotten, and only one of
      these. */
  lemma WrittenIsInOnePlace(input: seq<AgentLine>, events: seq<Event>, k: nat, id: JsonId)
    requires UniqueCalls(input) && Run(input, events).Some? && IsRequest(input, k, id)
    requires Run(input, events).value.log.offered[k] > 0
    ensures var s := Run(input, events).value;
            && k < s.next
            && (if Unremembered(s, k) then 1 else 0) + Outstanding(s.policy, id) + HeldByReaders(s.readers, id)
               + CountErrors(s.log.errors, id) + s.log.answered[id] + s.log.forgotten[id] == 1
            && (id in s.policy.failed ==> CountErrors(s.log.errors, id) > 0)
  {
    var s := Run(input, events).value;
    CallsAreConserved(input, events, id);
    RunKeepsShape(input, events);
    NoLineIsOfferedTwice(input, events, k);
    HeldIsTheRequest(input, s, k, id);
    OnlyInitializeWaits(input, s.queue, s.next, k, id);
    ReadCallsCount(input, s.next, k, id);
    OneCallPerId(input, s.next, id);
  }

  // ---------------------------------------------------------------- the tallies only grow

  predicate TalliesGrow(s: State, s': State, k: nat, id: JsonId) {
    && s'.log.answered[id] >= s.log.answered[id] && s'.log.forgotten[id] >= s.log.forgotten[id]
    && s'.log.offered[k] >= s.log.offered[k]
  }

  lemma NextGrowsTallies(input: seq<AgentLine>, s: State, e: Event, k: nat, id: JsonId)
    requires Next(input, s, e).Some?
    ensures TalliesGrow(s, Next(input, s, e).value, k, id)
  {
    match e
    case OfWriter(w) => WriterGrowsTallies(input, s, w, k, id);
    case OfMain(m) => MainGrowsTallies(input, s, m, k, id);
    case OfReader(sock, r) => ReaderGrowsTallies(s, sock, r, k, id);
  }

  lemma WriterGrowsTallies(input: seq<AgentLine>, s: State, move: WriterMove, k: nat, id: JsonId)
    requires WriterNext(input, s, move).Some?
    ensures TalliesGrow(s, WriterNext(input, s, move).value, k, id)
  {
  }

  lemma MainGrowsTallies(input: seq<AgentLine>, s: State, move: MainMove, k: nat, id: JsonId)
    requires MainNext(input, s, move).Some?
    ensures TalliesGrow(s, MainNext(input, s, move).value, k, id)
  {
  }

  lemma ReaderGrowsTallies(s: State, sock: nat, move: ReaderMove, k: nat, id: JsonId)
    requires ReaderNext(s, sock, move).Some?
    ensures TalliesGrow(s, ReaderNext(s, sock, move).value, k, id)
  {
  }

  lemma {:induction false} RunGrowsTallies(input: seq<AgentLine>, before: seq<Event>, after: seq<Event>, k: nat, id: JsonId)
    requires Run(input, before + after).Some?
    ensures Run(input, before).Some? && TalliesGrow(Run(input, before).value, Run(input, before + after).value, k, id)
  {
    if after == [] {
      assert before + after == before;
    } else {
      var shorter := after[..|after| - 1];
      assert (before + after)[..|before + after| - 1] == before + shorter;
      RunGrowsTallies(input, before, shorter, k, id);
      NextGrowsTallies(input, Run(input, before + shorter).value, (before + after)[|before + after| - 1], k, id);
    }
  }

  // ---------------------------------------------------------------- no error follows

  /** No session can be lost any more, and the request is on its way past the bookkeeping. */
  ghost predicate Safe(input: seq<AgentLine>, s: State, k: nat, id: JsonId) {
    && s.link.graceful && !SomeLosing(s) && !TakenForLost(s, id)
    && k < s.next && (!s.writer.Waiting? && s.writer.k == k ==> Unremembered(s, k))
  }

  lemma WriterStaysSafe(input: seq<AgentLine>, s: State, move: WriterMove, k: nat, id: JsonId)
    requires UniqueCalls(input) && IsRequest(input, k, id) && Safe(input, s, k, id) && WriterNext(input, s, move).Some?
    ensures Safe(input, WriterNext(input, s, move).value, k, id)
  {
    if s.writer.Down? && s.writer.k < |input| && RoleOf(input[s.writer.k]).Request? {
      var other := RoleOf(input[s.writer.k]).id;
      assert CallId(input[s.writer.k]) != CallId(input[k]);
      ErrorsPerId(s.policy.failed, [other], false, id);
      CountErrorsAppend(s.log.errors, ErrorsOf(s.policy.failed, [other], false), id);
    }
  }

  lemma OtherMovesLeaveReaders(input: seq<AgentLine>, s: State, move: MainMove)
    requires MainNext(input, s, move).Some? && !move.Open? && !move.Replay?
    ensures var s' := MainNext(input, s, move).value;
            && s'.readers == s.readers && s'.log.errors == s.log.errors && s'.writer == s.writer && s'.next == s.next
            && (s.link.graceful ==> s'.link.graceful)
  {
  }

  lemma OpeningStaysSafe(input: seq<AgentLine>, s: State, k: nat, id: JsonId)
    requires Safe(input, s, k, id) && MainNext(input, s, Open).Some?
    ensures Safe(input, MainNext(input, s, Open).value, k, id)
  {
    NewReaderHoldsNothing(s.readers, id);
  }

  lemma ReplayingStaysSafe(input: seq<AgentLine>, s: State, delivered: bool, k: nat, id: JsonId)
    requires Safe(input, s, k, id) && MainNext(input, s, Replay(delivered)).Some? && AllSound(s)
    ensures Safe(input, MainNext(input, s, Replay(delivered)).value, k, id)
  {
    var s' := MainNext(input, s, Replay(delivered)).value;
    ReaderUpdate(s.readers, s.main.sock, s'.readers[s.main.sock], id);
  }

  lemma MainStaysSafe(input: seq<AgentLine>, s: State, move: MainMove, k: nat, id: JsonId)
    requires Safe(input, s, k, id) && MainNext(input, s, move).Some? && AllSound(s)
    ensures Safe(input, MainNext(input, s, move).value, k, id)
  {
    match move
    case Open => OpeningStaysSafe(input, s, k, id);
    case Replay(delivered) => ReplayingStaysSafe(input, s, delivered, k, id);
    case _ => OtherMovesLeaveReaders(input, s, move);
  }

  lemma ReaderStaysSafe(input: seq<AgentLine>, s: State, sock: nat, move: ReaderMove, k: nat, id: JsonId)
    requires Safe(input, s, k, id) && ReaderNext(s, sock, move).Some?
    ensures Safe(input, ReaderNext(s, sock, move).value, k, id)
  {
    var s' := ReaderNext(s, sock, move).value;
    assert !s.readers[sock].pc.Losing?;
    ReaderUpdate(s.readers, sock, s'.readers[sock], id);
    ReaderBound(s.readers, sock, id);
    if move.Fail? {
      ErrorsPerId(s.policy.failed, s.readers[sock].pc.ids, true, id);
      CountErrorsAppend(s.log.errors, ErrorsOf(s.policy.failed, s.readers[sock].pc.ids, true), id);
    }
  }

  lemma {:induction false} SafeToTheEnd(input: seq<AgentLine>, before: seq<Event>, after: seq<Event>, k: nat, id: JsonId)
    requires UniqueCalls(input) && IsRequest(input, k, id) && Run(input, before + after).Some?
    requires Run(input, before).Some? && Safe(input, Run(input, before).value, k, id)
    ensures Safe(input, Run(input, before + after).value, k, id)
  {
    if after == [] {
      assert before + after == before;
    } else {
      var shorter, e := after[..|after| - 1], after[|after| - 1];
      assert (before + after)[..|before + after| - 1] == before + shorter && (before + after)[|before + after| - 1] == e;
      SafeToTheEnd(input, before, shorter, k, id);
      NodeLinesKeepTheirOrder(input, before + shorter);
      var s := Run(input, before + shorter).value;
      match e
      case OfWriter(w) => WriterStaysSafe(input, s, w, k, id);
      case OfMain(m) => MainStaysSafe(input, s, m, k, id);
      case OfReader(sock, r) => ReaderStaysSafe(input, s, sock, r, k, id);
    }
  }

  // ---------------------------------------------------------------- an error follows

  lemma RememberIt(input: seq<AgentLine>, events: seq<Event>, k: nat, id: JsonId) returns (longer: seq<Event>)
    requires Run(input, events).Some? && Unremembered(Run(input, events).value, k) && IsRequest(input, k, id)
    requires id !in Run(input, events).value.policy.failed
    ensures events <= longer && Run(input, longer).Some?
    ensures var s, s' := Run(input, events).value, Run(input, longer).value;
            && s'.readers == s.readers && s'.link == s.link && s'.log == s.log && s'.policy.failed == s.policy.failed
            && Outstanding(s'.policy, id) > 0
  {
    var s := Run(input, events).value;
    longer := events;
    if s.writer.Checking? {
      longer, s := Then(input, longer, s, OfWriter(Check));
    }
    longer, s := Then(input, longer, s, OfWriter(Remember));
  }

  lemma {:induction false} Listed(ids: set<JsonId>) returns (list: seq<JsonId>)
    ensures multiset(list) == multiset(ids)
  {
    if ids == {} {
      list := [];
    } else {
      var id :| id in ids;
      var rest := Listed(ids - {id});
      list := rest + [id];
      assert ids == (ids - {id}) + {id};
    }
  }

  /** The other sessions are untouched, and what this one forwarded is too. */
  predicate OthersSame(s: State, s': State, sock: nat)
    requires sock < |s.readers|
  {
    && |s'.readers| == |s.readers| && s'.readers[sock].forwarded == s.readers[sock].forwarded
    && forall i | 0 <= i < |s.readers| && i != sock :: s'.readers[i] == s.readers[i]
  }

  lemma CollectIt(input: seq<AgentLine>, events: seq<Event>, sock: nat, id: JsonId) returns (longer: seq<Event>)
    requires Run(input, events).Some? && sock < |Run(input, events).value.readers|
    requires Run(input, events).value.readers[sock].pc.Losing?
    requires Outstanding(Run(input, events).value.policy, id) > 0 && id !in Run(input, events).value.policy.failed
    ensures Run(input, longer).Some? && events <= longer && OthersSame(Run(input, events).value, Run(input, longer).value, sock)
    ensures CountErrors(Run(input, longer).value.log.errors, id) > 0
  {
    var s := Run(input, events).value;
    var pending := Listed(s.policy.pending);
    var uncertain := Listed(s.policy.uncertain);
    CollectingMoves(s, pending + uncertain, id);
    longer, s := Then(input, events, s, OfReader(sock, Collect(pending + uncertain)));
    longer := FailIt(input, longer, sock, id);
    assert events <= longer;
  }

  lemma FailIt(input: seq<AgentLine>, events: seq<Event>, sock: nat, id: JsonId) returns (longer: seq<Event>)
    requires Run(input, events).Some? && sock < |Run(input, events).value.readers|
    requires ReaderHolds(Run(input, events).value.readers[sock], id) > 0 && id !in Run(input, events).value.policy.failed
    ensures Run(input, longer).Some? && events <= longer && OthersSame(Run(input, events).value, Run(input, longer).value, sock)
    ensures CountErrors(Run(input, longer).value.log.errors, id) > 0
  {
    var s := Run(input, events).value;
    ErrorsPerId(s.policy.failed, s.readers[sock].pc.ids, true, id);
    CountErrorsAppend(s.log.errors, ErrorsOf(s.policy.failed, s.readers[sock].pc.ids, true), id);
    longer, s := Then(input, events, s, OfReader(sock, Fail));
  }

  lemma {:induction false} HolderOf(readers: seq<Reader>, id: JsonId) returns (sock: nat)
    requires HeldByReaders(readers, id) > 0
    ensures sock < |readers| && ReaderHolds(readers[sock], id) > 0
  {
    if ReaderHolds(readers[|readers| - 1], id) > 0 {
      sock := |readers| - 1;
    } else {
      sock := HolderOf(readers[..|readers| - 1], id);
    }
  }

  lemma LoseIt(input: seq<AgentLine>, events: seq<Event>, sock: nat, id: JsonId) returns (longer: seq<Event>)
    requires Run(input, events).Some? && sock < |Run(input, events).value.readers|
    requires Run(input, events).value.readers[sock].pc.Running? && !Run(input, events).value.link.graceful
    requires Outstanding(Run(input, events).value.policy, id) > 0 && id !in Run(input, events).value.policy.failed
    ensures Run(input, longer).Some? && events <= longer && OthersSame(Run(input, events).value, Run(input, longer).value, sock)
    ensures CountErrors(Run(input, longer).value.log.errors, id) > 0
  {
    var s := Run(input, events).value;
    var lost;
    lost, s := Then(input, events, s, OfReader(sock, Lose));
    longer := CollectIt(input, lost, sock, id);
    assert events <= lost <= longer;
  }

  // ---------------------------------------------------------------- both

  /** What the Agent has been given for a call: an error, and its answer on some session. */
  predicate GotBoth(s: State, sock: nat, line: NodeLine, id: JsonId) {
    CountErrors(s.log.errors, id) > 0 && sock < |s.readers| && line in s.readers[sock].forwarded
  }

  ghost predicate BothFollows(input: seq<AgentLine>, answered: seq<Event>, sock: nat, line: NodeLine, id: JsonId) {
    exists longer :: answered <= longer && Run(input, longer).Some? && GotBoth(Run(input, longer).value, sock, line, id)
  }

  predicate MayBeLost(s: State) {
    !s.link.graceful || SomeLosing(s)
  }

  /** What hearing an answer leaves as it was. */
  lemma HearingLeaves(input: seq<AgentLine>, events: seq<Event>, e: Event, k: nat, id: JsonId)
    requires Run(input, events).Some? && Answers(Run(input, events).value, e, id) && IsRequest(input, k, id)
    ensures Run(input, events + [e]).Some?
    ensures var s, s' := Run(input, events).value, Run(input, events + [e]).value;
            && s'.writer == s.writer && s'.link == s.link && s'.policy.failed == s.policy.failed && s'.next == s.next
            && s'.log.errors == s.log.errors && s'.log.offered == s.log.offered && s'.log.forgotten == s.log.forgotten
            && s'.log.answered[id] == s.log.answered[id] + Outstanding(s.policy, id)
            && |s'.readers| == |s.readers| && s'.readers[e.sock].pc.Running? && e.r.line in s'.readers[e.sock].forwarded
            && (SomeLosing(s') <==> SomeLosing(s)) && HeldByReaders(s'.readers, id) == HeldByReaders(s.readers, id)
  {
    var s := Run(input, events).value;
    var longer, s' := Then(input, events, s, e);
    ReaderUpdate(s.readers, e.sock, s'.readers[e.sock], id);
    assert forall i | 0 <= i < |s.readers| && i != e.sock :: s'.readers[i] == s.readers[i];
  }

  lemma ErrorCanFollow(input: seq<AgentLine>, events: seq<Event>, e: Event, k: nat, id: JsonId) returns (longer: seq<Event>)
    requires UniqueCalls(input) && IsRequest(input, k, id) && Run(input, events).Some?
    requires Answers(Run(input, events).value, e, id) && Run(input, events).value.log.offered[k] > 0
    requires var s := Run(input, events).value; TakenForLost(s, id) || (Unremembered(s, k) && MayBeLost(s))
    ensures events + [e] <= longer && Run(input, longer).Some? && GotBoth(Run(input, longer).value, e.sock, e.r.line, id)
  {
    HearingLeaves(input, events, e, k, id);
    var heard := events + [e];
    var s := Run(input, heard).value;
    WrittenIsInOnePlace(input, heard, k, id);
    if CountErrors(s.log.errors, id) > 0 {
      longer := heard;
    } else if HeldByReaders(s.readers, id) > 0 {
      var sock := HolderOf(s.readers, id);
      longer := FailIt(input, heard, sock, id);
    } else {
      var noted := RememberIt(input, heard, k, id);
      if !s.link.graceful {
        longer := LoseIt(input, noted, e.sock, id);
      } else {
        var i: nat :| i < |s.readers| && s.readers[i].pc.Losing?;
        longer := CollectIt(input, noted, i, id);
      }
      assert heard <= noted <= longer;
    }
  }

  lemma NoErrorCanFollow(input: seq<AgentLine>, events: seq<Event>, e: Event, k: nat, id: JsonId, longer: seq<Event>)
    requires UniqueCalls(input) && IsRequest(input, k, id) && Run(input, events).Some?
    requires Answers(Run(input, events).value, e, id) && Run(input, events).value.log.offered[k] > 0
    requires var s := Run(input, events).value; !TakenForLost(s, id) && !(Unremembered(s, k) && MayBeLost(s))
    requires events + [e] <= longer && Run(input, longer).Some?
    ensures CountErrors(Run(input, longer).value.log.errors, id) == 0
  {
    var heard := events + [e];
    var after := longer[|heard|..];
    assert heard + after == longer;
    HearingLeaves(input, events, e, k, id);
    WrittenIsInOnePlace(input, events, k, id);
    if Unremembered(Run(input, events).value, k) {
      SafeToTheEnd(input, heard, after, k, id);
    } else {
      RunGrowsTallies(input, heard, after, k, id);
      WrittenIsInOnePlace(input, longer, k, id);
    }
  }

  /** When an answer is heard for a request that was written, an error for the same request follows in some run if and
      only if the request is already taken for lost, or is not remembered yet and some session may still be lost. */
  lemma BothFollowsExactly(input: seq<AgentLine>, events: seq<Event>, e: Event, k: nat, id: JsonId)
    requires UniqueCalls(input) && IsRequest(input, k, id) && Run(input, events).Some?
    requires Answers(Run(input, events).value, e, id) && Run(input, events).value.log.offered[k] > 0
    ensures var s := Run(input, events).value;
            BothFollows(input, events + [e], e.sock, e.r.line, id)
            <==> TakenForLost(s, id) || (Unremembered(s, k) && MayBeLost(s))
  {
    var s := Run(input, events).value;
    if TakenForLost(s, id) || (Unremembered(s, k) && MayBeLost(s)) {
      var longer := ErrorCanFollow(input, events, e, k, id);
    } else if longer :| events + [e] <= longer && Run(input, longer).Some? && GotBoth(Run(input, longer).value, e.sock, e.r.line, id) {
      NoErrorCanFollow(input, events, e, k, id, longer);
    }
  }

  /** So in every run that ends with an error for a request, each answer heard for it came while it was taken for lost or
      not remembered yet. */
  lemma BothOnlyThen(input: seq<AgentLine>, before: seq<Event>, e: Event, events: seq<Event>, k: nat, id: JsonId)
    requires UniqueCalls(input) && IsRequest(input, k, id) && Run(input, before).Some?
    requires Answers(Run(input, before).value, e, id) && Run(input, before).value.log.offered[k] > 0
    requires before + [e] <= events && Run(input, events).Some? && CountErrors(Run(input, events).value.log.errors, id) > 0
    ensures var s := Run(input, before).value;
            Outstanding(s.policy, id) == 0 && (TakenForLost(s, id) || (Unremembered(s, k) && MayBeLost(s)))
  {
    WrittenIsInOnePlace(input, before, k, id);
    var s := Run(input, before).value;
    if !(TakenForLost(s, id) || (Unremembered(s, k) && MayBeLost(s))) {
      NoErrorCanFollow(input, before, e, k, id, events);
    }
  }

  /** The other order: while a call is outstanding on a session, the loss of another session that is still running takes
      the call for lost, and its answer on its own session is forwarded after the error. */
  lemma ErrorThenAnswer(input: seq<AgentLine>, events: seq<Event>, stale: nat, sock: nat, line: NodeLine) returns (lost: seq<Event>)
    requires Run(input, events).Some? && IsAnswer(line) && stale != sock
    requires var s := Run(input, events).value;
             && stale < |s.readers| && s.readers[stale].pc.Running? && !s.link.graceful
             && sock < |s.readers| && s.readers[sock].pc.Running? && !s.readers[sock].absorbing
             && Outstanding(s.policy, line.id) > 0 && line.id !in s.policy.failed
    ensures events <= lost && Run(input, lost).Some? && CountErrors(Run(input, lost).value.log.errors, line.id) > 0
    ensures sock < |Run(input, lost).value.readers| && Run(input, lost).value.readers[sock] == Run(input, events).value.readers[sock]
    ensures Run(input, lost + [OfReader(sock, Arrive(line))]).Some?
    ensures GotBoth(Run(input, lost + [OfReader(sock, Arrive(line))]).value, sock, line, line.id)
  {
    lost := LoseIt(input, events, stale, line.id);
    var longer, s := Then(input, lost, Run(input, lost).value, OfReader(sock, Arrive(line)));
  }
}
