/** Exactly when an engine swap forgets a call, when an initialize line is stranded, and when a call gets both an answer
    and an error. */
module ConnectorGaps {
  import opened Common
  import opened ConnectorEngine
  import opened ConnectorRuns
  import opened ConnectorSafety

  // ---------------------------------------------------------------- what is outstanding, and since when

  /** The writer or the reconnect loop remembers a sent call. */
  predicate Remembers(input: seq<AgentLine>, s: State, e: Event, id: JsonId) {
    match e
    case OfWriter(Remember) =>
      && s.writer.Noting? && s.writer.k < |input| && CallId(input[s.writer.k]) == Some(id)
      && (s.writer.current || id !in s.policy.failed)
    case OfMain(Note) => s.main.NotingQueued? && s.main.k < |input| && CallId(input[s.main.k]) == Some(id)
    case _ => false
  }

  /** A session that is past its replay hears an answer with this id, and forwards it. */
  predicate Answers(s: State, e: Event, id: JsonId) {
    && e.OfReader? && e.r.Arrive? && e.sock < |s.readers| && s.readers[e.sock].pc.Running? && !s.readers[e.sock].absorbing
    && IsAnswer(e.r.line) && e.r.line.id == id
  }

  predicate Clears(s: State, e: Event, id: JsonId) {
    Answers(s, e, id) || (e.OfReader? && e.r.Collect?) || e == OfMain(Swap)
  }

  lemma WriterOutstanding(input: seq<AgentLine>, s: State, move: WriterMove, id: JsonId)
    requires WriterNext(input, s, move).Some?
    ensures Outstanding(WriterNext(input, s, move).value.policy, id) > 0
            <==> Remembers(input, s, OfWriter(move), id) || Outstanding(s.policy, id) > 0
  {
  }

  lemma MainOutstanding(input: seq<AgentLine>, s: State, move: MainMove, id: JsonId)
    requires MainNext(input, s, move).Some?
    ensures Outstanding(MainNext(input, s, move).value.policy, id) > 0
            <==> Remembers(input, s, OfMain(move), id) || (Outstanding(s.policy, id) > 0 && !move.Swap?)
  {
  }

  lemma ReaderOutstanding(s: State, sock: nat, move: ReaderMove, id: JsonId)
    requires ReaderNext(s, sock, move).Some?
    ensures Outstanding(ReaderNext(s, sock, move).value.policy, id) > 0
            <==> Outstanding(s.policy, id) > 0 && !Clears(s, OfReader(sock, move), id)
  {
  }

  lemma NextOutstanding(input: seq<AgentLine>, s: State, e: Event, id: JsonId)
    requires Next(input, s, e).Some?
    ensures Outstanding(Next(input, s, e).value.policy, id) > 0
            <==> Remembers(input, s, e, id) || (Outstanding(s.policy, id) > 0 && !Clears(s, e, id))
  {
    match e
    case OfWriter(w) => WriterOutstanding(input, s, w, id);
    case OfMain(m) => MainOutstanding(input, s, m, id);
    case OfReader(sock, r) => ReaderOutstanding(s, sock, r, id);
  }

  predicate RemembersAt(input: seq<AgentLine>, events: seq<Event>, j: nat, id: JsonId)
    requires j < |events|
  {
    var earlier := Run(input, events[..j]);
    earlier.Some? && Remembers(input, earlier.value, events[j], id)
  }

  predicate ClearsAt(input: seq<AgentLine>, events: seq<Event>, j: nat, id: JsonId)
    requires j < |events|
  {
    var earlier := Run(input, events[..j]);
    earlier.Some? && Clears(earlier.value, events[j], id)
  }

  /** Remembered here, and since then neither answered nor drained nor swapped away. */
  ghost predicate LiveSince(input: seq<AgentLine>, events: seq<Event>, j: nat, id: JsonId)
    requires j < |events|
  {
    RemembersAt(input, events, j, id) && forall i: nat | j < i < |events| :: !ClearsAt(input, events, i, id)
  }

  lemma LiveSinceGrows(input: seq<AgentLine>, front: seq<Event>, e: Event, j: nat, id: JsonId)
    requires j < |front| && Run(input, front).Some?
    ensures LiveSince(input, front + [e], j, id) <==> LiveSince(input, front, j, id) && !Clears(Run(input, front).value, e, id)
  {
    var events := front + [e];
    forall i: nat | i < |front|
      ensures ClearsAt(input, events, i, id) <==> ClearsAt(input, front, i, id)
      ensures RemembersAt(input, events, i, id) <==> RemembersAt(input, front, i, id)
    {
      assert events[..i] == front[..i];
    }
    assert events[..|front|] == front;
    assert ClearsAt(input, events, |front|, id) <==> Clears(Run(input, front).value, e, id);
  }

  lemma LiveSinceLast(input: seq<AgentLine>, front: seq<Event>, e: Event, id: JsonId)
    requires Run(input, front).Some?
    ensures LiveSince(input, front + [e], |front|, id) <==> Remembers(input, Run(input, front).value, e, id)
  {
    assert (front + [e])[..|front|] == front;
  }

  predicate SwappingAt(input: seq<AgentLine>, events: seq<Event>, j: nat)
    requires j <= |events|
  {
    var earlier := Run(input, events[..j]);
    earlier.Some? && earlier.value.main.Swapping?
  }

  /** Remembered after the engine was found quiescent for the swap under way, and not cleared since. */
  ghost predicate RememberedSinceReload(input: seq<AgentLine>, events: seq<Event>, id: JsonId) {
    exists j: nat :: j < |events| && SwappingAt(input, events, j) && LiveSince(input, events, j, id)
  }

  lemma RememberedSinceReloadGrows(input: seq<AgentLine>, front: seq<Event>, e: Event, id: JsonId)
    requires Run(input, front).Some? && Run(input, front).value.main.Swapping?
    ensures RememberedSinceReload(input, front + [e], id)
            <==> Remembers(input, Run(input, front).value, e, id)
                 || (RememberedSinceReload(input, front, id) && !Clears(Run(input, front).value, e, id))
  {
    var events, n := front + [e], |front|;
    LiveSinceLast(input, front, e, id);
    forall j: nat | j < n
      ensures LiveSince(input, events, j, id) <==> LiveSince(input, front, j, id) && !Clears(Run(input, front).value, e, id)
      ensures SwappingAt(input, events, j) <==> SwappingAt(input, front, j)
    {
      LiveSinceGrows(input, front, e, j, id);
      assert events[..j] == front[..j];
    }
    assert events[..n] == front;
    assert SwappingAt(input, events, n);
    if j: nat :| j < n && SwappingAt(input, front, j) && LiveSince(input, front, j, id) && !Clears(Run(input, front).value, e, id) {
      assert SwappingAt(input, events, j) && LiveSince(input, events, j, id);
    }
  }

  lemma OnlyReloadBeginsASwap(input: seq<AgentLine>, s: State, e: Event)
    requires Next(input, s, e).Some? && !s.main.Swapping? && Next(input, s, e).value.main.Swapping?
    ensures e == OfMain(Reload) && Quiescent(Next(input, s, e).value.policy)
  {
  }

  lemma {:induction false} OutstandingWasRemembered(input: seq<AgentLine>, events: seq<Event>, j: nat, id: JsonId)
    requires Run(input, events).Some? && j < |events| && LiveSince(input, events, j, id)
    ensures Outstanding(Run(input, events).value.policy, id) > 0
  {
    var front, e := events[..|events| - 1], events[|events| - 1];
    assert events == front + [e];
    NextOutstanding(input, Run(input, front).value, e, id);
    if j < |front| {
      LiveSinceGrows(input, front, e, j, id);
      OutstandingWasRemembered(input, front, j, id);
    } else {
      LiveSinceLast(input, front, e, id);
    }
  }

  /** While an engine swap is under way, what is outstanding is what was remembered since its quiescence check. */
  lemma {:induction false} OutstandingInASwap(input: seq<AgentLine>, events: seq<Event>, id: JsonId)
    requires Run(input, events).Some? && Run(input, events).value.main.Swapping?
    ensures Outstanding(Run(input, events).value.policy, id) > 0 <==> RememberedSinceReload(input, events, id)
  {
    var front, e := events[..|events| - 1], events[|events| - 1];
    assert events == front + [e];
    var earlier := Run(input, front).value;
    if earlier.main.Swapping? {
      NextOutstanding(input, earlier, e, id);
      RememberedSinceReloadGrows(input, front, e, id);
      OutstandingInASwap(input, front, id);
    } else {
      OnlyReloadBeginsASwap(input, earlier, e);
      if j: nat :| j < |events| && SwappingAt(input, events, j) && LiveSince(input, events, j, id) {
        OutstandingWasRemembered(input, events, j, id);
      }
    }
  }

  /** In every run a swap forgets an id if and only if the id was remembered after the quiescence check of that swap and
      neither answered nor drained since. */
  lemma SwapForgetsExactly(input: seq<AgentLine>, events: seq<Event>, id: JsonId)
    requires Run(input, events).Some? && Run(input, events).value.main.Swapping?
    ensures Next(input, Run(input, events).value, OfMain(Swap)).Some?
    ensures var s, s' := Run(input, events).value, Next(input, Run(input, events).value, OfMain(Swap)).value;
            s'.log.forgotten[id] > s.log.forgotten[id] <==> RememberedSinceReload(input, events, id)
  {
    OutstandingInASwap(input, events, id);
    var p := Run(input, events).value.policy;
    assert multiset(p.pending)[id] == CountSet(p.pending, id) && multiset(p.uncertain)[id] == CountSet(p.uncertain, id);
  }

  lemma OnlyASwapForgets(input: seq<AgentLine>, s: State, e: Event)
    requires Next(input, s, e).Some?
    ensures e != OfMain(Swap) ==> Next(input, s, e).value.log.forgotten == s.log.forgotten
    ensures e == OfMain(Swap) ==> s.main.Swapping?
  {
  }

  /** So a run in which nothing is remembered while a swap is under way forgets nothing. */
  lemma {:induction false} NothingIsForgottenOtherwise(input: seq<AgentLine>, events: seq<Event>, id: JsonId)
    requires Run(input, events).Some?
    requires forall j: nat | j < |events| && SwappingAt(input, events, j) :: !RemembersAt(input, events, j, id)
    ensures Run(input, events).value.log.forgotten[id] == 0
  {
    if events != [] {
      var front, e := events[..|events| - 1], events[|events| - 1];
      forall j: nat | j < |front| && SwappingAt(input, front, j)
        ensures !RemembersAt(input, front, j, id)
      {
        assert events[..j] == front[..j];
        assert SwappingAt(input, events, j);
      }
      NothingIsForgottenOtherwise(input, front, id);
      OnlyASwapForgets(input, Run(input, front).value, e);
      if e == OfMain(Swap) {
        SwapForgetsExactly(input, front, id);
        assert !RememberedSinceReload(input, front, id);
      }
    }
  }

  // ---------------------------------------------------------------- the stranded initialize

  /** While the session is up, or about to be, no initialize line waits. */
  predicate NothingWaits(s: State) {
    s.link.up || s.main.Rising? ==> s.queue == [] && !s.main.Handing?
  }

  /** The writer found the session down, and queues the line after it came up. */
  predicate Strands(input: seq<AgentLine>, s: State, e: Event) {
    && e == OfWriter(Settle) && s.writer.Down? && s.writer.k < |input| && RoleOf(input[s.writer.k]).Initialize?
    && (s.link.up || s.main.Rising?)
  }

  lemma WriterMayStrand(input: seq<AgentLine>, s: State, move: WriterMove)
    requires NothingWaits(s) && WriterNext(input, s, move).Some?
    ensures NothingWaits(WriterNext(input, s, move).value) <==> !Strands(input, s, OfWriter(move))
  {
  }

  lemma MainStrandsNothing(input: seq<AgentLine>, s: State, move: MainMove)
    requires NothingWaits(s) && MainNext(input, s, move).Some?
    ensures NothingWaits(MainNext(input, s, move).value)
  {
  }

  lemma ReaderStrandsNothing(s: State, sock: nat, move: ReaderMove)
    requires NothingWaits(s) && ReaderNext(s, sock, move).Some?
    ensures NothingWaits(ReaderNext(s, sock, move).value)
  {
  }

  /** One step strands a line if and only if it is that one. */
  lemma StrandedExactlyByALateLine(input: seq<AgentLine>, s: State, e: Event)
    requires NothingWaits(s) && Next(input, s, e).Some?
    ensures NothingWaits(Next(input, s, e).value) <==> !Strands(input, s, e)
  {
    match e
    case OfWriter(w) => WriterMayStrand(input, s, w);
    case OfMain(m) => MainStrandsNothing(input, s, m);
    case OfReader(sock, r) => ReaderStrandsNothing(s, sock, r);
  }

  predicate StrandsAt(input: seq<AgentLine>, events: seq<Event>, j: nat)
    requires j < |events|
  {
    var earlier := Run(input, events[..j]);
    earlier.Some? && Strands(input, earlier.value, events[j])
  }

  predicate WaitsAt(input: seq<AgentLine>, events: seq<Event>, n: nat)
    requires n <= |events|
  {
    var s := Run(input, events[..n]);
    s.Some? && !NothingWaits(s.value)
  }

  lemma WaitingBegins(input: seq<AgentLine>, events: seq<Event>, j: nat)
    requires j < |events| && Run(input, events[..j + 1]).Some? && !WaitsAt(input, events, j)
    ensures WaitsAt(input, events, j + 1) <==> StrandsAt(input, events, j)
  {
    var front := events[..j];
    assert events[..j + 1] == front + [events[j]] && (front + [events[j]])[..j] == front;
    StrandedExactlyByALateLine(input, Run(input, front).value, events[j]);
  }

  lemma {:induction false} PrefixesRun(input: seq<AgentLine>, events: seq<Event>, n: nat)
    requires n <= |events| && Run(input, events).Some?
    ensures Run(input, events[..n]).Some?
    decreases |events|
  {
    if n == |events| {
      assert events[..n] == events;
    } else {
      assert events[..|events| - 1][..n] == events[..n];
      PrefixesRun(input, events[..|events| - 1], n);
    }
  }

  lemma {:induction false} FirstStranding(input: seq<AgentLine>, events: seq<Event>, n: nat) returns (j: nat)
    requires 0 < n <= |events| && Run(input, events).Some? && WaitsAt(input, events, n)
    ensures j < n && StrandsAt(input, events, j)
  {
    if n > 1 && WaitsAt(input, events, n - 1) {
      j := FirstStranding(input, events, n - 1);
    } else {
      assert events[..0] == [];
      PrefixesRun(input, events, n);
      WaitingBegins(input, events, n - 1);
      j := n - 1;
    }
  }

  /** In every run an initialize line waits at some moment while the session is up if and only if the writer queued one
      that it had found the session down for after the session came up. */
  lemma InitializeWaitsOnlyWhenStranded(input: seq<AgentLine>, events: seq<Event>)
    requires Run(input, events).Some?
    ensures (exists n: nat :: n <= |events| && WaitsAt(input, events, n)) <==> exists j: nat :: j < |events| && StrandsAt(input, events, j)
  {
    assert events[..0] == [] && !WaitsAt(input, events, 0);
    if n: nat :| n <= |events| && WaitsAt(input, events, n) {
      var j := FirstStranding(input, events, n);
    }
    if j: nat :| j < |events| && StrandsAt(input, events, j) {
      PrefixesRun(input, events, j + 1);
      if !WaitsAt(input, events, j) {
        WaitingBegins(input, events, j);
      }
    }
  }
}
