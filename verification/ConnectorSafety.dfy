/** Every call is accounted for: at most one error an id, no business line offered twice, no error without a reason. */
module ConnectorSafety {
  import opened Common
  import opened ConnectorEngine
  import opened ConnectorRuns

  /** The Agent's outstanding ids are distinct: no two calls of the input share one. */
  ghost predicate UniqueCalls(input: seq<AgentLine>) {
    forall j: nat, k: nat | j < k < |input| && CallId(input[j]).Some? :: CallId(input[j]) != CallId(input[k])
  }

  function Is(line: AgentLine, id: JsonId): nat {
    if CallId(line) == Some(id) then 1 else 0
  }

  /** Calls with this id among the first `n` lines. */
  function CallsRead(input: seq<AgentLine>, n: nat, id: JsonId): nat
    requires n <= |input|
  {
    if n == 0 then 0 else CallsRead(input, n - 1, id) + Is(input[n - 1], id)
  }

  lemma {:induction false} OneCallPerId(input: seq<AgentLine>, n: nat, id: JsonId)
    requires UniqueCalls(input) && n <= |input|
    ensures CallsRead(input, n, id) <= 1
    ensures CallsRead(input, n, id) == 1 ==> exists k: nat :: k < n && CallId(input[k]) == Some(id)
  {
    if n > 0 {
      OneCallPerId(input, n - 1, id);
      if CallId(input[n - 1]) == Some(id) && CallsRead(input, n - 1, id) == 1 {
        assert false;
      }
    }
  }

  // ---------------------------------------------------------------- where a call is

  function HeldByWriter(input: seq<AgentLine>, writer: Writer, id: JsonId): nat {
    if writer.Waiting? then 0 else if writer.k < |input| then Is(input[writer.k], id) else 0
  }

  function HeldByMain(input: seq<AgentLine>, main: Main, id: JsonId): nat {
    if (main.Handing? || main.NotingQueued?) && main.k < |input| then Is(input[main.k], id) else 0
  }

  function Queued(input: seq<AgentLine>, queue: seq<nat>, id: JsonId): nat {
    if queue == [] then 0
    else (if queue[0] < |input| then Is(input[queue[0]], id) else 0) + Queued(input, queue[1..], id)
  }

  lemma {:induction false} QueuedAppend(input: seq<AgentLine>, queue: seq<nat>, k: nat, id: JsonId)
    requires k < |input|
    ensures Queued(input, queue + [k], id) == Queued(input, queue, id) + Is(input[k], id)
  {
    if queue != [] {
      assert (queue + [k])[1..] == queue[1..] + [k];
      QueuedAppend(input, queue[1..], k, id);
    }
  }

  function ReaderHolds(r: Reader, id: JsonId): nat {
    if r.pc.Failing? then multiset(r.pc.ids)[id] else 0
  }

  function HeldByReaders(readers: seq<Reader>, id: JsonId): nat {
    if readers == [] then 0 else HeldByReaders(readers[..|readers| - 1], id) + ReaderHolds(readers[|readers| - 1], id)
  }

  lemma {:induction false} ReaderUpdate(readers: seq<Reader>, sock: nat, r: Reader, id: JsonId)
    requires sock < |readers|
    ensures HeldByReaders(readers[sock := r], id) + ReaderHolds(readers[sock], id) == HeldByReaders(readers, id) + ReaderHolds(r, id)
  {
    var last := |readers| - 1;
    if sock < last {
      assert readers[sock := r][..last] == readers[..last][sock := r];
      ReaderUpdate(readers[..last], sock, r, id);
    } else {
      assert readers[sock := r][..last] == readers[..last];
    }
  }

  /** Everywhere a call with this id can be: in a thread's hand, in the queue, outstanding, about to be failed, failed,
      answered, or forgotten by an engine swap. */
  function Places(input: seq<AgentLine>, s: State, id: JsonId): nat {
    HeldByWriter(input, s.writer, id) + HeldByMain(input, s.main, id) + Queued(input, s.queue, id)
    + Outstanding(s.policy, id) + HeldByReaders(s.readers, id)
    + CountErrors(s.log.errors, id) + s.log.answered[id] + s.log.forgotten[id]
  }

  /** Each call read so far is in exactly one place, and only ids with an error are marked failed. */
  ghost predicate Accounted(input: seq<AgentLine>, s: State, id: JsonId) {
    && s.next <= |input|
    && Places(input, s, id) == CallsRead(input, s.next, id)
    && (id in s.policy.failed ==> CountErrors(s.log.errors, id) > 0)
  }

  // ---------------------------------------------------------------- every move keeps the account

  lemma FailingOnce(s: State, ids: seq<JsonId>, outcomeUnknown: bool, id: JsonId)
    requires id in s.policy.failed ==> multiset(ids)[id] == 0
    ensures CountErrors(Errored(s, ids, outcomeUnknown).log.errors, id) == CountErrors(s.log.errors, id) + multiset(ids)[id]
    ensures id in Errored(s, ids, outcomeUnknown).policy.failed ==> id in s.policy.failed || multiset(ids)[id] > 0
    ensures Outstanding(Errored(s, ids, outcomeUnknown).policy, id) == Outstanding(s.policy, id)
  {
    ErrorsPerId(s.policy.failed, ids, outcomeUnknown, id);
    CountErrorsAppend(s.log.errors, ErrorsOf(s.policy.failed, ids, outcomeUnknown), id);
    assert id in ids ==> id in multiset(ids);
  }

  lemma SettlingKeepsAccount(input: seq<AgentLine>, s: State, id: JsonId)
    requires UniqueCalls(input) && Shaped(input, s) && Accounted(input, s, id)
    requires s.writer.Down? && s.writer.k < |input|
    ensures Accounted(input, Settled(s.(writer := Waiting), s.writer.k, RoleOf(input[s.writer.k])), id)
  {
    var k := s.writer.k;
    OneCallPerId(input, s.next, id);
    match RoleOf(input[k])
    case Initialize(i) => QueuedAppend(input, s.queue, k, id);
    case Request(i) =>
      assert multiset([i])[id] == if i == id then 1 else 0;
      FailingOnce(s.(writer := Waiting), [i], false, id);
    case _ =>
  }

  lemma SendingKeepsAccount(p: Policy, sent: JsonId, current: bool, id: JsonId)
    requires id == sent ==> Outstanding(p, id) == 0 && id !in p.failed
    ensures Outstanding(Sent(p, sent, current), id) == Outstanding(p, id) + if id == sent then 1 else 0
  {
  }

  lemma WriterNotesAccount(input: seq<AgentLine>, s: State, id: JsonId)
    requires UniqueCalls(input) && Shaped(input, s) && Accounted(input, s, id) && s.writer.Noting?
    ensures Accounted(input, s.(writer := Waiting, policy := Sent(s.policy, CallId(input[s.writer.k]).value, s.writer.current)), id)
  {
    OneCallPerId(input, s.next, id);
    SendingKeepsAccount(s.policy, CallId(input[s.writer.k]).value, s.writer.current, id);
  }

  lemma WriterKeepsAccount(input: seq<AgentLine>, s: State, move: WriterMove, id: JsonId)
    requires UniqueCalls(input) && Shaped(input, s) && Accounted(input, s, id) && WriterNext(input, s, move).Some?
    ensures Accounted(input, WriterNext(input, s, move).value, id)
  {
    if s.writer.Down? {
      SettlingKeepsAccount(input, s, id);
    } else if s.writer.Noting? {
      WriterNotesAccount(input, s, id);
    }
  }

  lemma SwapKeepsAccount(input: seq<AgentLine>, s: State, handshake: Handshake, wasUp: bool, id: JsonId)
    requires Accounted(input, s, id) && s.main.Swapping?
    ensures Accounted(input, Swapped(s, handshake, wasUp), id)
  {
    assert multiset(s.policy.pending)[id] == CountSet(s.policy.pending, id);
    assert multiset(s.policy.uncertain)[id] == CountSet(s.policy.uncertain, id);
  }

  lemma NewReaderHoldsNothing(readers: seq<Reader>, id: JsonId)
    ensures HeldByReaders(readers + [NEW_READER], id) == HeldByReaders(readers, id)
  {
    assert (readers + [NEW_READER])[..|readers|] == readers;
  }

  /** A move that leaves every place as it was keeps the account. */
  lemma SamePlaces(input: seq<AgentLine>, s: State, s': State, id: JsonId)
    requires Accounted(input, s, id)
    requires s'.next == s.next && s'.writer == s.writer && s'.queue == s.queue && s'.policy == s.policy
    requires s'.log.errors == s.log.errors && s'.log.answered == s.log.answered && s'.log.forgotten == s.log.forgotten
    requires HeldByMain(input, s'.main, id) == HeldByMain(input, s.main, id)
    requires HeldByReaders(s'.readers, id) == HeldByReaders(s.readers, id)
    ensures Accounted(input, s', id)
  {
  }

  lemma OpeningKeepsAccount(input: seq<AgentLine>, s: State, id: JsonId)
    requires Accounted(input, s, id) && MainNext(input, s, Open).Some?
    ensures Accounted(input, MainNext(input, s, Open).value, id)
  {
    NewReaderHoldsNothing(s.readers, id);
    SamePlaces(input, s, MainNext(input, s, Open).value, id);
  }

  lemma InstallingKeepsAccount(input: seq<AgentLine>, s: State, sock: nat, replay: bool, id: JsonId)
    requires Accounted(input, s, id) && s.main.Replaying? && sock < |s.readers| && s.readers[sock].pc.Unstarted?
    ensures Accounted(input, Installed(s, sock, replay), id)
  {
    ReaderUpdate(s.readers, sock, s.readers[sock].(pc := Running, replayed := replay, absorbing := replay), id);
  }

  lemma HandingKeepsAccount(input: seq<AgentLine>, s: State, move: MainMove, id: JsonId)
    requires Accounted(input, s, id) && MainNext(input, s, move).Some?
    requires move.Pop? || move.Hand?
    ensures Accounted(input, MainNext(input, s, move).value, id)
  {
    if move.Hand? {
      assert ([s.main.k] + s.queue)[1..] == s.queue;
    }
  }

  lemma NotingKeepsAccount(input: seq<AgentLine>, s: State, id: JsonId)
    requires UniqueCalls(input) && Accounted(input, s, id) && MainNext(input, s, Note).Some?
    ensures Accounted(input, MainNext(input, s, Note).value, id)
  {
    OneCallPerId(input, s.next, id);
    SendingKeepsAccount(s.policy, CallId(input[s.main.k]).value, true, id);
  }

  predicate MovesNoCall(move: MainMove) {
    !move.Swap? && !move.Open? && !move.Replay? && !move.Pop? && !move.Hand? && !move.Note?
  }

  lemma OtherMovesKeepAccount(input: seq<AgentLine>, s: State, move: MainMove, id: JsonId)
    requires Accounted(input, s, id) && MainNext(input, s, move).Some? && MovesNoCall(move)
    ensures Accounted(input, MainNext(input, s, move).value, id)
  {
    SamePlaces(input, s, MainNext(input, s, move).value, id);
  }

  lemma MainKeepsAccount(input: seq<AgentLine>, s: State, move: MainMove, id: JsonId)
    requires UniqueCalls(input) && Accounted(input, s, id) && MainNext(input, s, move).Some? && AllSound(s)
    ensures Accounted(input, MainNext(input, s, move).value, id)
  {
    match move
    case Swap => SwapKeepsAccount(input, s, s.main.handshake, s.main.wasUp, id);
    case Open => OpeningKeepsAccount(input, s, id);
    case Replay(_) => InstallingKeepsAccount(input, s.(log := Replayed(s.log, s.main.initialize)), s.main.sock, s.main.initialize.Some?, id);
    case Pop => HandingKeepsAccount(input, s, move, id);
    case Hand(_) => HandingKeepsAccount(input, s, move, id);
    case Note => NotingKeepsAccount(input, s, id);
    case _ => OtherMovesKeepAccount(input, s, move, id);
  }

  lemma ArrivalKeepsAccount(input: seq<AgentLine>, s: State, r: Reader, line: NodeLine, id: JsonId)
    requires Accounted(input, s, id)
    ensures Accounted(input, Handled(s, r, line), id)
  {
  }

  lemma CollectingMoves(s: State, ids: seq<JsonId>, id: JsonId)
    requires multiset(ids) == multiset(s.policy.pending) + multiset(s.policy.uncertain)
    ensures multiset(ids)[id] == Outstanding(s.policy, id) && Outstanding(Drained(s.policy), id) == 0
  {
    assert multiset(s.policy.pending)[id] == CountSet(s.policy.pending, id);
    assert multiset(s.policy.uncertain)[id] == CountSet(s.policy.uncertain, id);
  }

  lemma HearingKeepsAccount(input: seq<AgentLine>, s: State, sock: nat, line: NodeLine, id: JsonId)
    requires Accounted(input, s, id) && ReaderNext(s, sock, Arrive(line)).Some?
    ensures Accounted(input, ReaderNext(s, sock, Arrive(line)).value, id)
  {
    ArrivalKeepsAccount(input, s, s.readers[sock], line, id);
    ReaderUpdate(s.readers, sock, Heard(s.readers[sock], s.policy.handshake, line), id);
  }

  lemma CollectingKeepsAccount(input: seq<AgentLine>, s: State, sock: nat, ids: seq<JsonId>, id: JsonId)
    requires Accounted(input, s, id) && ReaderNext(s, sock, Collect(ids)).Some?
    ensures Accounted(input, ReaderNext(s, sock, Collect(ids)).value, id)
  {
    CollectingMoves(s, ids, id);
    ReaderUpdate(s.readers, sock, s.readers[sock].(pc := Failing(ids)), id);
  }

  lemma FailingKeepsAccount(input: seq<AgentLine>, s: State, sock: nat, id: JsonId)
    requires UniqueCalls(input) && Accounted(input, s, id) && ReaderNext(s, sock, Fail).Some?
    ensures Accounted(input, ReaderNext(s, sock, Fail).value, id)
  {
    OneCallPerId(input, s.next, id);
    ReaderBound(s.readers, sock, id);
    FailingOnce(s, s.readers[sock].pc.ids, true, id);
    ReaderUpdate(s.readers, sock, s.readers[sock].(pc := Stopped), id);
  }

  lemma ReaderKeepsAccount(input: seq<AgentLine>, s: State, sock: nat, move: ReaderMove, id: JsonId)
    requires UniqueCalls(input) && Accounted(input, s, id) && ReaderNext(s, sock, move).Some?
    ensures Accounted(input, ReaderNext(s, sock, move).value, id)
  {
    var r := s.readers[sock];
    match move
    case Arrive(line) => HearingKeepsAccount(input, s, sock, line, id);
    case Leave => ReaderUpdate(s.readers, sock, r.(pc := Stopped), id);
    case Lose => ReaderUpdate(s.readers, sock, r.(pc := if s.link.graceful then Stopped else Losing), id);
    case Collect(ids) => CollectingKeepsAccount(input, s, sock, ids, id);
    case Fail => FailingKeepsAccount(input, s, sock, id);
  }

  lemma {:induction false} ReaderBound(readers: seq<Reader>, sock: nat, id: JsonId)
    requires sock < |readers|
    ensures ReaderHolds(readers[sock], id) <= HeldByReaders(readers, id)
  {
    if sock < |readers| - 1 {
      ReaderBound(readers[..|readers| - 1], sock, id);
    }
  }

  /** In every run each call read so far is in exactly one place. */
  lemma {:induction false} CallsAreConserved(input: seq<AgentLine>, events: seq<Event>, id: JsonId)
    requires UniqueCalls(input) && Run(input, events).Some?
    ensures Accounted(input, Run(input, events).value, id)
  {
    if events != [] {
      CallsAreConserved(input, events[..|events| - 1], id);
      RunKeepsShape(input, events[..|events| - 1]);
      NodeLinesKeepTheirOrder(input, events[..|events| - 1]);
      var earlier := Run(input, events[..|events| - 1]).value;
      match events[|events| - 1]
      case OfWriter(w) => WriterKeepsAccount(input, earlier, w, id);
      case OfMain(m) => MainKeepsAccount(input, earlier, m, id);
      case OfReader(sock, r) => ReaderKeepsAccount(input, earlier, sock, r, id);
    }
  }

  /** With unique ids an id gets at most one bridge error in the whole run, over all engine generations, and none once
      an answer found its call outstanding. */
  lemma AtMostOneErrorPerId(input: seq<AgentLine>, events: seq<Event>, id: JsonId)
    requires UniqueCalls(input) && Run(input, events).Some?
    ensures var log := Run(input, events).value.log;
            CountErrors(log.errors, id) + log.answered[id] <= 1
  {
    CallsAreConserved(input, events, id);
    OneCallPerId(input, Run(input, events).value.next, id);
  }

  // ---------------------------------------------------------------- business lines

  function Unoffered(writer: Writer, k: nat): nat {
    if (writer.Looking? || writer.Sending? || writer.Down?) && writer.k == k then 1 else 0
  }

  function Refusals(errors: seq<BridgeError>, id: JsonId): nat {
    multiset(errors)[BridgeError(id, false)]
  }

  /** A request that was read is still in the writer's hand, or was offered to a socket once, or was refused once. */
  ghost predicate OfferedOrRefused(input: seq<AgentLine>, s: State, k: nat)
    requires k < |input| && RoleOf(input[k]).Request?
  {
    s.log.offered[k] + Refusals(s.log.errors, RoleOf(input[k]).id) + Unoffered(s.writer, k) == if k < s.next then 1 else 0
  }

  lemma {:induction false} UnknownOutcomesAreNoRefusals(failed: set<JsonId>, ids: seq<JsonId>, id: JsonId)
    ensures Refusals(ErrorsOf(failed, ids, true), id) == 0
  {
    if ids != [] {
      UnknownOutcomesAreNoRefusals(failed, ids[..|ids| - 1], id);
    }
  }

  lemma RefusingOne(s: State, other: JsonId, id: JsonId)
    ensures Refusals(Errored(s, [other], false).log.errors, id)
            == Refusals(s.log.errors, id) + if other == id && other !in s.policy.failed then 1 else 0
  {
    assert [other][..0] == [];
    assert ErrorsOf(s.policy.failed, [other], false) == if other in s.policy.failed then [] else [BridgeError(other, false)];
  }

  /** A line in the writer's hand has no error yet. */
  lemma HeldIsNotFailed(input: seq<AgentLine>, s: State, k: nat)
    requires UniqueCalls(input) && !s.writer.Waiting? && s.writer.k == k < |input| && RoleOf(input[k]).Request?
    requires Accounted(input, s, RoleOf(input[k]).id)
    ensures RoleOf(input[k]).id !in s.policy.failed
  {
    OneCallPerId(input, s.next, RoleOf(input[k]).id);
  }

  lemma SettlingKeepsOffers(input: seq<AgentLine>, s: State, k: nat)
    requires UniqueCalls(input) && Shaped(input, s) && s.writer.Down? && s.writer.k < |input|
    requires k < |input| && RoleOf(input[k]).Request? && OfferedOrRefused(input, s, k)
    requires Accounted(input, s, RoleOf(input[k]).id)
    ensures OfferedOrRefused(input, Settled(s.(writer := Waiting), s.writer.k, RoleOf(input[s.writer.k])), k)
  {
    var held := s.writer.k;
    if RoleOf(input[held]).Request? {
      RefusingOne(s.(writer := Waiting), RoleOf(input[held]).id, RoleOf(input[k]).id);
      if held == k {
        HeldIsNotFailed(input, s, k);
      } else {
        assert CallId(input[held]) != CallId(input[k]);
      }
    }
  }

  /** Offering moves a line from the writer's hand to a socket. */
  lemma WriterMovesOffer(input: seq<AgentLine>, s: State, move: WriterMove, k: nat)
    requires !s.writer.Down? && WriterNext(input, s, move).Some?
    ensures var s' := WriterNext(input, s, move).value;
            && s'.log.errors == s.log.errors && s'.next == s.next + (if move.Take? then 1 else 0)
            && s'.log.offered[k] + Unoffered(s'.writer, k)
               == s.log.offered[k] + Unoffered(s.writer, k) + if move.Take? && k == s.next then 1 else 0
  {
  }

  lemma WriterKeepsOffers(input: seq<AgentLine>, s: State, move: WriterMove, k: nat)
    requires UniqueCalls(input) && Shaped(input, s) && WriterNext(input, s, move).Some?
    requires k < |input| && RoleOf(input[k]).Request? && OfferedOrRefused(input, s, k)
    requires Accounted(input, s, RoleOf(input[k]).id)
    ensures OfferedOrRefused(input, WriterNext(input, s, move).value, k)
  {
    if s.writer.Down? {
      SettlingKeepsOffers(input, s, k);
    } else {
      WriterMovesOffer(input, s, move, k);
    }
  }

  lemma MainKeepsOffers(input: seq<AgentLine>, s: State, move: MainMove, k: nat)
    requires MainNext(input, s, move).Some?
    requires k < |input| && RoleOf(input[k]).Request? && OfferedOrRefused(input, s, k)
    ensures OfferedOrRefused(input, MainNext(input, s, move).value, k)
  {
  }

  lemma ReaderKeepsOffers(input: seq<AgentLine>, s: State, sock: nat, move: ReaderMove, k: nat)
    requires ReaderNext(s, sock, move).Some?
    requires k < |input| && RoleOf(input[k]).Request? && OfferedOrRefused(input, s, k)
    ensures OfferedOrRefused(input, ReaderNext(s, sock, move).value, k)
  {
    if move.Fail? {
      UnknownOutcomesAreNoRefusals(s.policy.failed, s.readers[sock].pc.ids, RoleOf(input[k]).id);
    }
  }

  lemma {:induction false} RequestsAreOfferedOrRefused(input: seq<AgentLine>, events: seq<Event>, k: nat)
    requires UniqueCalls(input) && Run(input, events).Some?
    requires k < |input| && RoleOf(input[k]).Request?
    ensures OfferedOrRefused(input, Run(input, events).value, k)
  {
    if events != [] {
      RequestsAreOfferedOrRefused(input, events[..|events| - 1], k);
      CallsAreConserved(input, events[..|events| - 1], RoleOf(input[k]).id);
      RunKeepsShape(input, events[..|events| - 1]);
      var earlier := Run(input, events[..|events| - 1]).value;
      match events[|events| - 1]
      case OfWriter(w) => WriterKeepsOffers(input, earlier, w, k);
      case OfMain(m) => MainKeepsOffers(input, earlier, m, k);
      case OfReader(sock, r) => ReaderKeepsOffers(input, earlier, sock, r, k);
    }
  }

  /** No business request is written to a node socket twice, and one reported as not delivered was never written. */
  lemma AtMostOneWritePerRequest(input: seq<AgentLine>, events: seq<Event>, k: nat)
    requires UniqueCalls(input) && Run(input, events).Some?
    requires k < |input| && RoleOf(input[k]).Request?
    ensures var log := Run(input, events).value.log;
            && log.offered[k] + log.handed[k] <= 1
            && (BridgeError(RoleOf(input[k]).id, false) in log.errors ==> log.offered[k] + log.handed[k] == 0)
  {
    RequestsAreOfferedOrRefused(input, events, k);
    OnlyTheHandshakeWaitsOrReplays(input, events);
    var log := Run(input, events).value.log;
    assert k !in log.handed;
    assert BridgeError(RoleOf(input[k]).id, false) in log.errors ==> BridgeError(RoleOf(input[k]).id, false) in multiset(log.errors);
  }

  /** Not even with ids reused is a line offered to a socket twice: the writer lets go of a line it has offered. */
  lemma {:induction false} NoLineIsOfferedTwice(input: seq<AgentLine>, events: seq<Event>, k: nat)
    requires Run(input, events).Some?
    ensures var s := Run(input, events).value;
            s.log.offered[k] + Unoffered(s.writer, k) <= if k < s.next then 1 else 0
  {
    if events != [] {
      NoLineIsOfferedTwice(input, events[..|events| - 1], k);
      RunKeepsShape(input, events[..|events| - 1]);
      var earlier := Run(input, events[..|events| - 1]).value;
      match events[|events| - 1]
      case OfWriter(w) => WriterOffersOnce(input, earlier, w, k);
      case OfMain(m) => MainLeavesOffers(input, earlier, m);
      case OfReader(sock, r) =>
    }
  }

  lemma WriterOffersOnce(input: seq<AgentLine>, s: State, move: WriterMove, k: nat)
    requires Shaped(input, s) && WriterNext(input, s, move).Some?
    requires s.log.offered[k] + Unoffered(s.writer, k) <= if k < s.next then 1 else 0
    ensures var s' := WriterNext(input, s, move).value;
            s'.log.offered[k] + Unoffered(s'.writer, k) <= if k < s'.next then 1 else 0
  {
  }

  lemma MainLeavesOffers(input: seq<AgentLine>, s: State, move: MainMove)
    requires MainNext(input, s, move).Some?
    ensures var s' := MainNext(input, s, move).value;
            s'.log.offered == s.log.offered && s'.writer == s.writer && s'.next == s.next
  {
  }
}
