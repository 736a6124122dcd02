/** The persistent connector as a state machine: the stdin writer, the reconnect loop and one reader per node socket
    (connector_core.py, PersistentConnector). Each move is one locked region, one send or one stdout write. */
module ConnectorRuns {
  import opened Common
  import opened ConnectorEngine

  /** Where the stdin writer stands with line `k`. */
  datatype Writer =
    | Waiting
    | Looking(k: nat)
    | Sending(k: nat, sock: nat)
    | Checking(k: nat, sock: nat)
    | Noting(k: nat, current: bool)
    | Down(k: nat)

  datatype Main =
    | Watching
    | Establishing
    | Swapping(handshake: Handshake, wasUp: bool)
    | Closing
    | Opening
    | Replaying(sock: nat, initialize: Option<AgentLine>)
    | Awaiting(sock: nat)
    | Draining(sock: nat)
    | Handing(sock: nat, k: nat)
    | NotingQueued(sock: nat, k: nat)
    | Rising
    | Exited

  datatype ReaderPc = Unstarted | Running | Losing | Failing(ids: seq<JsonId>) | Stopped

  /** One node session; `replayed` when it was opened with a replayed handshake. */
  datatype Reader = Reader(
    pc: ReaderPc,
    replayed: bool,
    absorbing: bool,
    handled: seq<NodeLine>,
    held: seq<NodeLine>,
    forwarded: seq<NodeLine>,
    swallowed: Option<nat>)

  const NEW_READER := Reader(Unstarted, false, false, [], [], [], None)

  /** The fields the three threads share beside the policy; `listening` once the first attempt to connect is over. */
  datatype Link = Link(sock: Option<nat>, up: bool, ready: bool, lost: bool, inputDone: bool, graceful: bool, listening: bool)

  /** What left the connector: lines the writer offered to a socket, lines handed over from the queue, handshake lines
      replayed, and errors; then ids whose answer found them outstanding, and ids an engine swap forgot. */
  datatype Log = Log(offered: multiset<nat>, handed: multiset<nat>, replayed: multiset<AgentLine>,
                     errors: seq<BridgeError>, answered: multiset<JsonId>, forgotten: multiset<JsonId>)

  datatype State = State(
    link: Link, queue: seq<nat>, policy: Policy, writer: Writer, main: Main, readers: seq<Reader>, next: nat, log: Log)

  const INITIAL := State(Link(None, false, false, false, false, false, false), [], FRESH_POLICY, Waiting, Establishing, [], 0,
                         Log(multiset{}, multiset{}, multiset{}, [], multiset{}, multiset{}))

  datatype WriterMove = Take | Look | Offer(delivered: bool) | Check | Remember | Settle | CloseInput

  datatype MainMove =
    | Reload | Swap | Close | Skip | Open | OpenFails | Replay(delivered: bool) | FindLost | FindReady | GiveUp
    | Pop | Hand(delivered: bool) | Note | FindEmpty | Rise | Reconnect | Exit

  datatype ReaderMove = Arrive(line: NodeLine) | Lose | Collect(ids: seq<JsonId>) | Fail | Leave

  datatype Event = OfWriter(w: WriterMove) | OfMain(m: MainMove) | OfReader(sock: nat, r: ReaderMove)

  function CallId(line: AgentLine): Option<JsonId> {
    match RoleOf(line)
    case Initialize(id) => Some(id)
    case Request(id) => Some(id)
    case _ => None
  }

  // ---------------------------------------------------------------- the writer

  /** `_publish_agent_line`. */
  function WriterNext(input: seq<AgentLine>, s: State, move: WriterMove): Option<State> {
    match (s.writer, move)
    case (Waiting, Take) =>
      if s.link.listening && s.next < |input| && !s.link.inputDone then
        Some(s.(writer := Looking(s.next), next := s.next + 1,
                policy := s.policy.(handshake := Cached(s.policy.handshake, input[s.next]))))
      else None
    case (Waiting, CloseInput) => if s.link.listening then Some(s.(link := s.link.(inputDone := true))) else None
    case (Looking(k), Look) =>
      Some(s.(writer := if s.link.up && s.link.sock.Some? then Sending(k, s.link.sock.value) else Down(k)))
    case (Sending(k, sock), Offer(delivered)) =>
      if k < |input| then Some(s.(log := s.log.(offered := s.log.offered + multiset{k}), writer := AfterOffer(input[k], k, sock, delivered)))
      else None
    case (Checking(k, sock), Check) => Some(s.(writer := Noting(k, s.link.sock == Some(sock) && s.link.up)))
    case (Noting(k, current), Remember) =>
      if k < |input| && CallId(input[k]).Some? then
        Some(s.(writer := Waiting, policy := Sent(s.policy, CallId(input[k]).value, current)))
      else None
    case (Down(k), Settle) => if k < |input| then Some(Settled(s.(writer := Waiting), k, RoleOf(input[k]))) else None
    case _ => None
  }

  function AfterOffer(line: AgentLine, k: nat, sock: nat, delivered: bool): Writer {
    if CallId(line).None? then Waiting else if delivered then Checking(k, sock) else Noting(k, false)
  }

  /** The session is down: initialize waits, a request is refused, anything else is dropped. */
  function Settled(s: State, k: nat, role: Role): State {
    match role
    case Initialize(_) => s.(queue := s.queue + [k])
    case Request(id) => Errored(s, [id], false)
    case _ => s
  }

  /** `fail_once` and the writing of what it returns. */
  function Errored(s: State, ids: seq<JsonId>, outcomeUnknown: bool): State {
    s.(log := s.log.(errors := s.log.errors + ErrorsOf(s.policy.failed, ids, outcomeUnknown)), policy := FailedOnce(s.policy, ids))
  }

  // ---------------------------------------------------------------- the reconnect loop

  function Dropping(link: Link, sock: nat): Link {
    if link.sock == Some(sock) then link.(sock := None) else link
  }

  function Replayed(log: Log, line: Option<AgentLine>): Log {
    if line.Some? then log.(replayed := log.replayed + multiset{line.value}) else log
  }

  /** The new session becomes the current one and its reader starts. */
  function Installed(s: State, sock: nat, replay: bool): State
    requires sock < |s.readers|
  {
    s.(link := s.link.(sock := Some(sock), ready := !replay, lost := false),
       main := Awaiting(sock),
       readers := s.readers[sock := s.readers[sock].(pc := Running, replayed := replay, absorbing := replay)])
  }

  /** An attempt to connect that failed is followed by another. */
  function Retrying(s: State, link: Link): State {
    s.(link := link.(listening := true), main := Establishing)
  }

  /** `_establish`, `_maybe_reload_engine` and the loop of `run`. */
  function MainNext(input: seq<AgentLine>, s: State, move: MainMove): Option<State> {
    match move
    case Reload =>
      if (s.main.Watching? || s.main.Establishing?) && Quiescent(s.policy) then
        Some(s.(main := Swapping(s.policy.handshake, s.main.Watching?)))
      else None
    case Swap => if s.main.Swapping? then Some(Swapped(s, s.main.handshake, s.main.wasUp)) else None
    case Close =>
      if s.main.Closing? then Some(s.(link := s.link.(sock := None, up := false, lost := true), main := Watching)) else None
    case Reconnect =>
      if s.main.Watching? && s.link.lost then Some(s.(link := s.link.(lost := false), main := Establishing)) else None
    case Exit =>
      if s.main.Watching? && s.link.inputDone then Some(s.(link := s.link.(graceful := true, up := false), main := Exited)) else None
    case Skip => if s.main.Establishing? then Some(s.(main := Opening)) else None
    case Open =>
      if s.main.Opening? then
        Some(s.(readers := s.readers + [NEW_READER], main := Replaying(|s.readers|, s.policy.handshake.initialize)))
      else None
    case OpenFails => if s.main.Opening? then Some(Retrying(s, s.link)) else None
    case Replay(delivered) =>
      if s.main.Replaying? && s.main.sock < |s.readers| then
        var sent := s.(log := Replayed(s.log, s.main.initialize));
        Some(if delivered || s.main.initialize.None? then Installed(sent, s.main.sock, s.main.initialize.Some?)
             else Retrying(sent, s.link))
      else None
    case FindLost => if s.main.Awaiting? && s.link.lost then Some(Retrying(s, s.link)) else None
    case FindReady =>
      if s.main.Awaiting? && s.link.ready && !s.link.lost then Some(s.(main := Draining(s.main.sock))) else None
    case GiveUp =>
      if s.link.inputDone && s.main.Establishing? then Some(s.(main := Watching))
      else if s.link.inputDone && s.main.Awaiting? && !s.link.ready && !s.link.lost then
        Some(s.(link := Dropping(s.link, s.main.sock).(listening := true), main := Watching))
      else None
    case Pop =>
      if s.main.Draining? && s.queue != [] && s.queue[0] < |input| then
        Some(s.(queue := s.queue[1..], main := Handing(s.main.sock, s.queue[0]),
                policy := s.policy.(handshake := Cached(s.policy.handshake, input[s.queue[0]]))))
      else None
    case Hand(delivered) => if s.main.Handing? then Some(HandedOver(s, s.main.sock, s.main.k, delivered)) else None
    case Note =>
      if s.main.NotingQueued? && s.main.k < |input| && CallId(input[s.main.k]).Some? then
        Some(s.(main := Draining(s.main.sock), policy := Sent(s.policy, CallId(input[s.main.k]).value, true)))
      else None
    case FindEmpty => if s.main.Draining? && s.queue == [] then Some(s.(main := Rising)) else None
    case Rise => if s.main.Rising? then Some(s.(link := s.link.(up := true, listening := true), main := Watching)) else None
  }

  function Swapped(s: State, handshake: Handshake, wasUp: bool): State {
    s.(policy := FRESH_POLICY.(handshake := handshake),
       log := s.log.(forgotten := s.log.forgotten + multiset(s.policy.pending) + multiset(s.policy.uncertain)),
       main := if wasUp then Closing else Opening)
  }

  /** A line that could not be handed over goes back to the front of the queue. */
  function HandedOver(s: State, sock: nat, k: nat, delivered: bool): State {
    var sent := s.(log := s.log.(handed := s.log.handed + multiset{k}));
    if delivered then sent.(main := NotingQueued(sock, k))
    else Retrying(sent.(queue := [k] + s.queue), Dropping(s.link, sock))
  }

  // ---------------------------------------------------------------- the readers

  function CountSet(ids: set<JsonId>, id: JsonId): nat {
    if id in ids then 1 else 0
  }

  function Outstanding(p: Policy, id: JsonId): nat {
    CountSet(p.pending, id) + CountSet(p.uncertain, id)
  }

  /** `_handle_node_line`, on the session's own state. */
  function Heard(r: Reader, handshake: Handshake, line: NodeLine): Reader {
    var heard := r.(handled := r.handled + [line]);
    if !r.absorbing then heard.(forwarded := r.forwarded + [line])
    else if EndsAbsorb(handshake, line) then
      heard.(absorbing := false, forwarded := r.forwarded + r.held, held := [], swallowed := Some(|r.handled|))
    else heard.(held := r.held + [line])
  }

  /** `_handle_node_line`, on what the threads share. */
  function Handled(s: State, r: Reader, line: NodeLine): State {
    if r.absorbing then
      if EndsAbsorb(s.policy.handshake, line) then
        s.(link := s.link.(ready := true), log := Replayed(s.log, s.policy.handshake.initialized))
      else s
    else if IsAnswer(line) then
      s.(policy := Consumed(s.policy, line.id),
         log := s.log.(answered := s.log.answered[line.id := s.log.answered[line.id] + Outstanding(s.policy, line.id)]))
    else s
  }

  /** `_session_loop` and `_on_session_lost`: the session's state, and what the threads share. */
  function ReaderNext(s: State, sock: nat, move: ReaderMove): Option<State> {
    if sock >= |s.readers| then None
    else
      var r := s.readers[sock];
      match move
      case Arrive(line) =>
        if r.pc.Running? then Some(Handled(s, r, line).(readers := s.readers[sock := Heard(r, s.policy.handshake, line)])) else None
      case Leave =>
        if r.pc.Running? && s.link.sock != Some(sock) then Some(s.(readers := s.readers[sock := r.(pc := Stopped)])) else None
      case Lose =>
        if r.pc.Running? then
          Some(s.(link := Dropping(s.link, sock).(up := false),
                  readers := s.readers[sock := r.(pc := if s.link.graceful then Stopped else Losing)]))
        else None
      case Collect(ids) =>
        if r.pc.Losing? && multiset(ids) == multiset(s.policy.pending) + multiset(s.policy.uncertain) then
          Some(s.(policy := Drained(s.policy), readers := s.readers[sock := r.(pc := Failing(ids))]))
        else None
      case Fail =>
        if r.pc.Failing? then
          Some(Errored(s, r.pc.ids, true).(link := s.link.(lost := true), readers := s.readers[sock := r.(pc := Stopped)]))
        else None
  }

  function Next(input: seq<AgentLine>, s: State, event: Event): Option<State> {
    match event
    case OfWriter(w) => WriterNext(input, s, w)
    case OfMain(m) => MainNext(input, s, m)
    case OfReader(sock, r) => ReaderNext(s, sock, r)
  }

  /** The state after `events`, if each was possible. */
  function Run(input: seq<AgentLine>, events: seq<Event>): Option<State> {
    if events == [] then Some(INITIAL)
    else
      var earlier := Run(input, events[..|events| - 1]);
      if earlier.None? then None else Next(input, earlier.value, events[|events| - 1])
  }

  /** A run that goes on by one event. */
  lemma Then(input: seq<AgentLine>, events: seq<Event>, s: State, e: Event) returns (longer: seq<Event>, s': State)
    requires Run(input, events) == Some(s) && Next(input, s, e).Some?
    ensures longer == events + [e] && Run(input, longer) == Some(s') && s' == Next(input, s, e).value
  {
    longer, s' := events + [e], Next(input, s, e).value;
    assert longer[..|longer| - 1] == events;
  }

  // ---------------------------------------------------------------- which lines are where

  predicate Fits(input: seq<AgentLine>, next: nat, k: nat) {
    k < next <= |input| && RoleOf(input[k]).Initialize?
  }

  predicate WriterFits(input: seq<AgentLine>, next: nat, writer: Writer) {
    match writer
    case Waiting => true
    case Checking(k, _) => k < next <= |input| && CallId(input[k]).Some?
    case Noting(k, _) => k < next <= |input| && CallId(input[k]).Some?
    case Looking(k) => k < next
    case Sending(k, _) => k < next
    case Down(k) => k < next
  }

  predicate CachesHandshake(h: Handshake) {
    && (h.initialize.Some? ==> RoleOf(h.initialize.value).Initialize?)
    && (h.initialized.Some? ==> RoleOf(h.initialized.value).Initialized?)
  }

  predicate MainFits(input: seq<AgentLine>, next: nat, main: Main) {
    match main
    case Handing(_, k) => Fits(input, next, k)
    case NotingQueued(_, k) => Fits(input, next, k)
    case Swapping(handshake, _) => CachesHandshake(handshake)
    case Replaying(_, initialize) => initialize.Some? ==> RoleOf(initialize.value).Initialize?
    case _ => true
  }

  predicate LogFits(input: seq<AgentLine>, next: nat, log: Log) {
    && (forall line | line in log.replayed :: RoleOf(line).Initialize? || RoleOf(line).Initialized?)
    && (forall k | k in log.handed :: Fits(input, next, k))
  }

  /** The queue and the main loop's hand hold only initialize lines, and every cached line is a handshake line. */
  predicate Shaped(input: seq<AgentLine>, s: State) {
    && s.next <= |input|
    && WriterFits(input, s.next, s.writer)
    && MainFits(input, s.next, s.main)
    && (forall k | k in s.queue :: Fits(input, s.next, k))
    && CachesHandshake(s.policy.handshake)
    && LogFits(input, s.next, s.log)
  }

  lemma WriterKeepsShape(input: seq<AgentLine>, s: State, move: WriterMove)
    requires Shaped(input, s) && WriterNext(input, s, move).Some?
    ensures Shaped(input, WriterNext(input, s, move).value)
  {
  }

  predicate MovesALine(move: MainMove) {
    move.Replay? || move.Pop? || move.Hand? || move.Note?
  }

  lemma MovingALineKeepsShape(input: seq<AgentLine>, s: State, move: MainMove)
    requires Shaped(input, s) && MainNext(input, s, move).Some? && MovesALine(move)
    ensures Shaped(input, MainNext(input, s, move).value)
  {
  }

  lemma MainKeepsShape(input: seq<AgentLine>, s: State, move: MainMove)
    requires Shaped(input, s) && MainNext(input, s, move).Some?
    ensures Shaped(input, MainNext(input, s, move).value)
  {
    if MovesALine(move) {
      MovingALineKeepsShape(input, s, move);
    }
  }

  lemma ReaderKeepsShape(input: seq<AgentLine>, s: State, sock: nat, move: ReaderMove)
    requires Shaped(input, s) && ReaderNext(s, sock, move).Some?
    ensures Shaped(input, ReaderNext(s, sock, move).value)
  {
  }

  lemma {:induction false} RunKeepsShape(input: seq<AgentLine>, events: seq<Event>)
    requires Run(input, events).Some?
    ensures Shaped(input, Run(input, events).value)
  {
    if events != [] {
      RunKeepsShape(input, events[..|events| - 1]);
      var earlier := Run(input, events[..|events| - 1]).value;
      match events[|events| - 1]
      case OfWriter(w) => WriterKeepsShape(input, earlier, w);
      case OfMain(m) => MainKeepsShape(input, earlier, m);
      case OfReader(sock, r) => ReaderKeepsShape(input, earlier, sock, r);
    }
  }

  /** While the node is away only initialize lines wait, and only handshake lines are ever sent again: a business
      request is never sent from the queue and never replayed. */
  lemma OnlyTheHandshakeWaitsOrReplays(input: seq<AgentLine>, events: seq<Event>)
    requires Run(input, events).Some?
    ensures var s := Run(input, events).value;
            && (forall k | k in s.queue :: k < |input| && RoleOf(input[k]).Initialize?)
            && (forall k | k in s.log.handed :: k < |input| && RoleOf(input[k]).Initialize?)
            && (forall line | line in s.log.replayed :: !RoleOf(line).Request?)
  {
    RunKeepsShape(input, events);
  }

  // ---------------------------------------------------------------- the order of node lines

  /** What a session forwards is what it handled, in order; a replayed session swallows one line, an answer with a
      result, and forwards nothing before it. */
  ghost predicate InOrder(r: Reader) {
    if r.absorbing then r.replayed && r.forwarded == [] && r.held == r.handled && r.swallowed.None?
    else
      && r.held == []
      && (r.replayed <==> r.swallowed.Some?)
      && match r.swallowed
         case None => r.forwarded == r.handled
         case Some(j) =>
           && j < |r.handled| && IsAnswer(r.handled[j]) && r.handled[j].fullResult
           && r.forwarded == r.handled[..j] + r.handled[j + 1..]
  }

  lemma HearingKeepsOrder(r: Reader, handshake: Handshake, line: NodeLine)
    requires InOrder(r)
    ensures InOrder(Heard(r, handshake, line))
  {
    var r' := Heard(r, handshake, line);
    if r.absorbing {
      assert r'.handled[..|r.handled|] == r.handled && r'.handled[|r.handled| + 1..] == [];
    } else if r.swallowed.Some? {
      var j := r.swallowed.value;
      assert r'.handled[..j] == r.handled[..j];
      assert r'.handled[j + 1..] == r.handled[j + 1..] + [line];
    }
  }

  /** A session that has not started has heard nothing. */
  ghost predicate Sound(r: Reader) {
    InOrder(r) && (r.pc.Unstarted? ==> r == NEW_READER)
  }

  ghost predicate AllSound(s: State) {
    && (forall sock: nat | sock < |s.readers| :: Sound(s.readers[sock]))
    && (s.main.Replaying? ==> s.main.sock < |s.readers| && s.readers[s.main.sock].pc.Unstarted?)
  }

  lemma WriterLeavesReaders(input: seq<AgentLine>, s: State, move: WriterMove)
    requires WriterNext(input, s, move).Some?
    ensures WriterNext(input, s, move).value.readers == s.readers && WriterNext(input, s, move).value.main == s.main
  {
  }

  lemma MainKeepsOrder(input: seq<AgentLine>, s: State, move: MainMove)
    requires AllSound(s) && MainNext(input, s, move).Some?
    ensures AllSound(MainNext(input, s, move).value)
  {
  }

  lemma ReaderKeepsOrder(s: State, sock: nat, move: ReaderMove)
    requires AllSound(s) && ReaderNext(s, sock, move).Some?
    ensures AllSound(ReaderNext(s, sock, move).value)
  {
    assert Sound(s.readers[sock]);
    if move.Arrive? {
      HearingKeepsOrder(s.readers[sock], s.policy.handshake, move.line);
    }
  }

  /** In every run every session's forwarded lines are in order, with just the replayed result taken out. */
  lemma {:induction false} NodeLinesKeepTheirOrder(input: seq<AgentLine>, events: seq<Event>)
    requires Run(input, events).Some?
    ensures AllSound(Run(input, events).value)
  {
    if events != [] {
      NodeLinesKeepTheirOrder(input, events[..|events| - 1]);
      var earlier := Run(input, events[..|events| - 1]).value;
      match events[|events| - 1]
      case OfWriter(w) => WriterLeavesReaders(input, earlier, w);
      case OfMain(m) => MainKeepsOrder(input, earlier, m);
      case OfReader(sock, r) => ReaderKeepsOrder(earlier, sock, r);
    }
  }
}
