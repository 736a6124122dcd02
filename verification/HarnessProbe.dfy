/** The catalog-refresh probe: the fixture that records evidence and the independent checker of its receipts
    (installer/harness_verification.py). */
module HarnessProbe {
  import opened Common

  datatype Client = Client(name: string, version: string)

  /** SHA-256 of what each schema or proof is made from; equal hashes have equal sources. */
  datatype Hash = OfBootstrapSchema(name: string) | OfCanarySchema(name: string, proof: string) | OfProof(proof: string) | OfOther(text: string)

  datatype Challenge = Challenge(bootstrap: string, canary: string, legacyVersions: set<string>)

  datatype Detail =
    | InitializedBy(client: Client, protocol: string)
    | InitialCatalog(tools: seq<string>, schema: Hash)
    | BootstrapCall(tool: string)
    | ListChanged
    | RefreshedCatalog(tools: seq<string>, removed: seq<string>, added: seq<string>, schema: Hash, proof: Hash, receivedAt: nat)
    | CanaryCall(tool: string, proof: Hash, catalogSequence: int, receivedAt: nat)

  datatype Observation = Observation(sequence: int, at: nat, detail: Detail)

  datatype Receipt = Receipt(startedAt: nat, updatedAt: nat, complete: bool, observations: seq<Observation>)

  // ---------------------------------------------------------------- the checker

  predicate PrintableText(s: string) {
    1 <= |s| <= 128 && forall c | c in s :: 32 <= c as int < 127
  }

  predicate PrintableClient(c: Client) {
    PrintableText(c.name) && PrintableText(c.version)
  }

  /** What the observation at one position must say. */
  predicate DetailFits(ch: Challenge, obs: seq<Observation>, i: nat)
    requires i < |obs|
  {
    match obs[i].detail
    case InitializedBy(client, protocol) => i == 0 && PrintableClient(client) && protocol in ch.legacyVersions
    case InitialCatalog(tools, schema) => i == 1 && tools == [ch.bootstrap] && schema == OfBootstrapSchema(ch.bootstrap)
    case BootstrapCall(tool) => i == 2 && tool == ch.bootstrap
    case ListChanged => i == 3
    case RefreshedCatalog(tools, removed, added, schema, _, receivedAt) =>
      && i == 4 && tools == [ch.canary] && removed == [ch.bootstrap] && added == [ch.canary]
      && (obs[1].detail.InitialCatalog? ==> schema != obs[1].detail.schema)
      && obs[3].at <= receivedAt <= obs[4].at
    case CanaryCall(tool, proof, catalogSequence, receivedAt) =>
      && i == 5 && tool == ch.canary && catalogSequence == 5
      && (obs[4].detail.RefreshedCatalog? ==> proof == obs[4].detail.proof)
      && obs[4].at <= receivedAt <= obs[5].at
  }

  predicate InTime(r: Receipt, i: nat)
    requires i < |r.observations|
  {
    (if i == 0 then r.startedAt else r.observations[i - 1].at) <= r.observations[i].at <= r.updatedAt
  }

  predicate Accepts(ch: Challenge, r: Receipt) {
    && |r.observations| <= 6
    && (forall i: nat | i < |r.observations| ::
          r.observations[i].sequence == i + 1 && DetailFits(ch, r.observations, i) && InTime(r, i))
    && (r.complete <==> |r.observations| == 6)
  }

  /** `_validate_events`: one pass that carries the previous time, and returns what the first observation says. */
  method ValidateEvents(ch: Challenge, r: Receipt) returns (accepted: bool, identity: Option<(Client, string)>)
    ensures accepted <==> Accepts(ch, r)
    ensures accepted && |r.observations| > 0 ==>
              && r.observations[0].detail.InitializedBy?
              && identity == Some((r.observations[0].detail.client, r.observations[0].detail.protocol))
    ensures |r.observations| == 0 || !accepted ==> identity == None
  {
    var events := r.observations;
    identity := None;
    if |events| > 6 {
      return false, None;
    }
    var previous := r.startedAt;
    for i := 0 to |events|
      invariant previous == if i == 0 then r.startedAt else events[i - 1].at
      invariant forall j: nat | j < i :: events[j].sequence == j + 1 && DetailFits(ch, events, j) && InTime(r, j)
      invariant if i == 0 then identity == None
                else events[0].detail.InitializedBy? && identity == Some((events[0].detail.client, events[0].detail.protocol))
    {
      var stamp := events[i].at;
      if events[i].sequence != i + 1 || !(previous <= stamp <= r.updatedAt) {
        return false, None;
      }
      match events[i].detail {
        case InitializedBy(client, protocol) =>
          if i != 0 || !PrintableClient(client) || protocol !in ch.legacyVersions {
            return false, None;
          }
          identity := Some((client, protocol));
        case InitialCatalog(tools, schema) =>
          if i != 1 || tools != [ch.bootstrap] || schema != OfBootstrapSchema(ch.bootstrap) {
            return false, None;
          }
        case BootstrapCall(tool) =>
          if i != 2 || tool != ch.bootstrap {
            return false, None;
          }
        case ListChanged =>
          if i != 3 {
            return false, None;
          }
        case RefreshedCatalog(tools, removed, added, schema, _, receivedAt) =>
          if i != 4 || tools != [ch.canary] || removed != [ch.bootstrap] || added != [ch.canary] {
            return false, None;
          }
          assert DetailFits(ch, events, 1);
          if schema == events[1].detail.schema || !(events[3].at <= receivedAt <= stamp) {
            return false, None;
          }
        case CanaryCall(tool, proof, catalogSequence, receivedAt) =>
          if i != 5 || !(events[4].at <= receivedAt <= stamp) {
            return false, None;
          }
          assert DetailFits(ch, events, 4);
          if tool != ch.canary || catalogSequence != 5 || proof != events[4].detail.proof {
            return false, None;
          }
      }
      previous := stamp;
    }
    accepted := r.complete == (|events| == 6);
    if !accepted {
      identity := None;
    }
  }

  // ---------------------------------------------------------------- the fixture

  datatype Arguments = NoArguments | ProofArgument(proof: string) | OtherArguments | NotAnObject

  datatype Message =
    | Malformed
    | Notification(initialized: bool)
    | Ping
    | Unsupported
    | BadParams
    | Initialize(protocol: string, client: Option<Client>, capabilities: bool)
    | ListTools(extraParams: bool)
    | CallTool(tool: string, arguments: Arguments, extraParams: bool)

  /** One message, with the clock's readings: when it was received, when its reply left, and when a notification after
      the reply left; and the proof the fixture would draw. */
  datatype Input = Input(message: Message, receivedAt: nat, sentAt: nat, notifiedAt: nat, freshProof: string)

  datatype Probe = Probe(
    receipt: Receipt,
    initialized: bool, ready: bool, initialListed: bool, changed: bool, refetched: bool,
    proof: string,
    lastSentAt: nat, notificationAt: nat, catalogAt: nat,
    persisted: seq<Receipt>)

  function Started(at: nat): Probe {
    var receipt := Receipt(at, at, false, []);
    Probe(receipt, false, false, false, false, false, "", at, 0, 0, [receipt])
  }

  /** `_observe`: the observation carries the time its bytes left, and the receipt is persisted at once. */
  function Observed(p: Probe, detail: Detail): Probe {
    var n := |p.receipt.observations|;
    var receipt := Receipt(p.receipt.startedAt, p.lastSentAt, p.receipt.complete || detail.CanaryCall?,
                           p.receipt.observations + [Observation(n + 1, p.lastSentAt, detail)]);
    p.(receipt := receipt, persisted := p.persisted + [receipt])
  }

  predicate GoodInitialize(ch: Challenge, p: Probe, m: Message) {
    && m.Initialize? && !p.initialized && m.protocol in ch.legacyVersions
    && m.client.Some? && PrintableClient(m.client.value) && m.capabilities
  }

  predicate GoodBootstrap(ch: Challenge, p: Probe, m: Message) {
    && m.CallTool? && p.ready && !m.extraParams && !p.changed && m.tool == ch.bootstrap
    && p.initialListed && m.arguments == NoArguments
  }

  predicate GoodCanary(ch: Challenge, p: Probe, input: Input) {
    var m := input.message;
    && m.CallTool? && p.ready && !m.extraParams && p.changed && m.tool == ch.canary
    && p.refetched && m.arguments == ProofArgument(p.proof) && p.catalogAt <= input.receivedAt
  }

  predicate FirstList(p: Probe, m: Message) {
    m == ListTools(false) && p.ready && !p.changed && !p.initialListed
  }

  predicate Refetch(p: Probe, input: Input) {
    input.message == ListTools(false) && p.ready && p.changed && !p.refetched && p.notificationAt <= input.receivedAt
  }

  /** `handle`, as what it does to the evidence; any other message gets a reply or an error and is no evidence. */
  function Handled(ch: Challenge, p: Probe, input: Input): Probe {
    var m := input.message;
    var replied := p.(lastSentAt := input.sentAt);
    if m.Notification? then (if m.initialized && p.initialized then p.(ready := true) else p)
    else if GoodInitialize(ch, p, m) then
      Observed(replied.(initialized := true), InitializedBy(m.client.value, m.protocol))
    else if FirstList(p, m) then
      Observed(replied.(initialListed := true), InitialCatalog([ch.bootstrap], OfBootstrapSchema(ch.bootstrap)))
    else if GoodBootstrap(ch, p, m) then
      var called := Observed(replied.(proof := input.freshProof, changed := true), BootstrapCall(m.tool));
      Observed(called.(lastSentAt := input.notifiedAt, notificationAt := input.notifiedAt), ListChanged)
    else if Refetch(p, input) then
      Observed(replied.(refetched := true, catalogAt := input.sentAt),
               RefreshedCatalog([ch.canary], [ch.bootstrap], [ch.canary], OfCanarySchema(ch.canary, p.proof), OfProof(p.proof), input.receivedAt))
    else if GoodCanary(ch, p, input) && !p.receipt.complete then
      Observed(replied, CanaryCall(m.tool, OfProof(p.proof), 5, input.receivedAt))
    else replied
  }

  /** `_Fixture`. */
  class Fixture {
    const challenge: Challenge
    var receipt: Receipt
    var initialized: bool
    var ready: bool
    var initialListed: bool
    var changed: bool
    var refetched: bool
    var proof: string
    var lastSentAt: nat
    var notificationAt: nat
    var catalogAt: nat
    var persisted: seq<Receipt>

    function View(): Probe
      reads this
    {
      Probe(receipt, initialized, ready, initialListed, changed, refetched, proof, lastSentAt, notificationAt, catalogAt, persisted)
    }

    constructor (challenge: Challenge, at: nat)
      ensures View() == Started(at) && this.challenge == challenge
    {
      this.challenge := challenge;
      receipt := Receipt(at, at, false, []);
      initialized, ready, initialListed, changed, refetched := false, false, false, false, false;
      proof, lastSentAt, notificationAt, catalogAt := "", at, 0, 0;
      persisted := [Receipt(at, at, false, [])];
    }

    method Observe(detail: Detail)
      modifies this`receipt, this`persisted
      ensures View() == Observed(old(View()), detail)
    {
      var event := Observation(|receipt.observations| + 1, lastSentAt, detail);
      receipt := receipt.(observations := receipt.observations + [event], updatedAt := event.at);
      if detail.CanaryCall? {
        receipt := receipt.(complete := true);
      }
      persisted := persisted + [receipt];
    }

    method Handle(input: Input)
      modifies this
      ensures View() == Handled(challenge, old(View()), input)
    {
      var m := input.message;
      match m {
        case Notification(isInitialized) =>
          if isInitialized && initialized {
            ready := true;
          }
        case Initialize(protocol, client, capabilities) =>
          lastSentAt := input.sentAt;
          if !initialized && protocol in challenge.legacyVersions && client.Some? && PrintableClient(client.value) && capabilities {
            initialized := true;
            Observe(InitializedBy(client.value, protocol));
          }
        case ListTools(extraParams) =>
          lastSentAt := input.sentAt;
          if ready && !extraParams {
            HandleList(input);
          }
        case CallTool(_, arguments, extraParams) =>
          lastSentAt := input.sentAt;
          if ready && !extraParams && !arguments.NotAnObject? {
            HandleCall(input);
          }
        case _ => lastSentAt := input.sentAt;
      }
    }

    method HandleList(input: Input)
      requires input.message == ListTools(false) && ready && lastSentAt == input.sentAt
      modifies this
      ensures View() == Handled(challenge, old(View()), input)
    {
      if !changed {
        if !initialListed {
          initialListed := true;
          Observe(InitialCatalog([challenge.bootstrap], OfBootstrapSchema(challenge.bootstrap)));
        }
      } else if !refetched && input.receivedAt >= notificationAt {
        refetched := true;
        catalogAt := lastSentAt;
        Observe(RefreshedCatalog([challenge.canary], [challenge.bootstrap], [challenge.canary],
                                 OfCanarySchema(challenge.canary, proof), OfProof(proof), input.receivedAt));
      }
    }

    method HandleCall(input: Input)
      requires input.message.CallTool? && !input.message.extraParams && ready && lastSentAt == input.sentAt
      modifies this
      ensures View() == Handled(challenge, old(View()), input)
    {
      var tool, arguments := input.message.tool, input.message.arguments;
      if !changed && tool == challenge.bootstrap {
        if initialListed && arguments == NoArguments {
          proof := input.freshProof;
          changed := true;
          Observe(BootstrapCall(tool));
          lastSentAt := input.notifiedAt;
          notificationAt := input.notifiedAt;
          Observe(ListChanged);
        }
      } else if changed && tool == challenge.canary {
        if refetched && arguments == ProofArgument(proof) && catalogAt <= input.receivedAt {
          if !receipt.complete {
            Observe(CanaryCall(tool, OfProof(proof), 5, input.receivedAt));
          }
        }
      }
    }
  }

  // ---------------------------------------------------------------- runs

  /** The fixture after a sequence of messages. */
  function After(ch: Challenge, at: nat, inputs: seq<Input>): Probe {
    if inputs == [] then Started(at) else Handled(ch, After(ch, at, inputs[..|inputs| - 1]), inputs[|inputs| - 1])
  }

  /** A monotone clock: bytes leave in order, and a message is received before its reply leaves. */
  ghost predicate Timely(ch: Challenge, at: nat, inputs: seq<Input>) {
    inputs == [] ||
    (var earlier, input := inputs[..|inputs| - 1], inputs[|inputs| - 1];
     && Timely(ch, at, earlier)
     && After(ch, at, earlier).lastSentAt <= input.sentAt <= input.notifiedAt
     && input.receivedAt <= input.sentAt)
  }

  /** How far the fixture is, and that its flags and times agree with its observations. */
  ghost predicate Coherent(ch: Challenge, p: Probe) {
    var obs := p.receipt.observations;
    && Accepts(ch, p.receipt)
    && p.receipt.startedAt <= p.receipt.updatedAt <= p.lastSentAt
    && |obs| == (if p.receipt.complete then 6 else if p.refetched then 5 else if p.changed then 4
                 else if p.initialListed then 2 else if p.initialized then 1 else 0)
    && (p.ready ==> p.initialized)
    && (p.initialListed ==> p.ready) && (p.changed ==> p.initialListed) && (p.refetched ==> p.changed)
    && (p.receipt.complete ==> p.refetched)
    && (p.changed ==> p.notificationAt == obs[3].at)
    && (p.refetched ==> p.catalogAt == obs[4].at && obs[4].detail.RefreshedCatalog? && obs[4].detail.proof == OfProof(p.proof))
  }

  /** One more observation that fits its place keeps the receipt acceptable. */
  lemma ObservingKeepsAccepted(ch: Challenge, p: Probe, detail: Detail)
    requires Accepts(ch, p.receipt) && |p.receipt.observations| < 6
    requires p.receipt.startedAt <= p.lastSentAt && p.receipt.updatedAt <= p.lastSentAt
    requires var obs := Observed(p, detail).receipt.observations; DetailFits(ch, obs, |obs| - 1)
    requires detail.CanaryCall? <==> |p.receipt.observations| == 5
    ensures Accepts(ch, Observed(p, detail).receipt)
  {
    var before, after := p.receipt.observations, Observed(p, detail).receipt.observations;
    forall i: nat | i < |after|
      ensures after[i].sequence == i + 1 && DetailFits(ch, after, i) && InTime(Observed(p, detail).receipt, i)
    {
      if i < |before| {
        assert after[i] == before[i];
        assert DetailFits(ch, before, i) && InTime(p.receipt, i);
      } else if i > 0 {
        assert InTime(p.receipt, i - 1);
      }
    }
  }

  lemma BootstrapKeepsCoherent(ch: Challenge, p: Probe, input: Input)
    requires Coherent(ch, p) && GoodBootstrap(ch, p, input.message)
    requires p.lastSentAt <= input.sentAt <= input.notifiedAt
    ensures Coherent(ch, Handled(ch, p, input))
    ensures forall r | r in Handled(ch, p, input).persisted :: r in p.persisted || Accepts(ch, r)
  {
    var called := p.(lastSentAt := input.sentAt, proof := input.freshProof, changed := true);
    ObservingKeepsAccepted(ch, called, BootstrapCall(input.message.tool));
    var announced := Observed(called, BootstrapCall(input.message.tool)).(lastSentAt := input.notifiedAt, notificationAt := input.notifiedAt);
    ObservingKeepsAccepted(ch, announced, ListChanged);
  }

  lemma HandlingKeepsCoherent(ch: Challenge, p: Probe, input: Input)
    requires Coherent(ch, p)
    requires p.lastSentAt <= input.sentAt <= input.notifiedAt && input.receivedAt <= input.sentAt
    ensures Coherent(ch, Handled(ch, p, input))
    ensures forall r | r in Handled(ch, p, input).persisted :: r in p.persisted || Accepts(ch, r)
  {
    var m := input.message;
    var replied := p.(lastSentAt := input.sentAt);
    if m.Notification? {
    } else if GoodInitialize(ch, p, m) {
      ObservingKeepsAccepted(ch, replied.(initialized := true), InitializedBy(m.client.value, m.protocol));
    } else if FirstList(p, m) {
      ObservingKeepsAccepted(ch, replied.(initialListed := true), InitialCatalog([ch.bootstrap], OfBootstrapSchema(ch.bootstrap)));
    } else if GoodBootstrap(ch, p, m) {
      BootstrapKeepsCoherent(ch, p, input);
    } else if Refetch(p, input) {
      assert DetailFits(ch, p.receipt.observations, 1);
      ObservingKeepsAccepted(ch, replied.(refetched := true, catalogAt := input.sentAt),
        RefreshedCatalog([ch.canary], [ch.bootstrap], [ch.canary], OfCanarySchema(ch.canary, p.proof), OfProof(p.proof), input.receivedAt));
    } else if GoodCanary(ch, p, input) && !p.receipt.complete {
      ObservingKeepsAccepted(ch, replied, CanaryCall(m.tool, OfProof(p.proof), 5, input.receivedAt));
    }
  }

  /** For every message sequence and monotone clock, every receipt the fixture persists passes the checker. */
  lemma {:induction false} EveryPersistedReceiptIsAccepted(ch: Challenge, at: nat, inputs: seq<Input>)
    requires Timely(ch, at, inputs)
    ensures Coherent(ch, After(ch, at, inputs))
    ensures forall r | r in After(ch, at, inputs).persisted :: Accepts(ch, r)
  {
    if inputs != [] {
      EveryPersistedReceiptIsAccepted(ch, at, inputs[..|inputs| - 1]);
      HandlingKeepsCoherent(ch, After(ch, at, inputs[..|inputs| - 1]), inputs[|inputs| - 1]);
    }
  }

  // ---------------------------------------------------------------- what a complete receipt proves

  /** The bootstrap call after which the change was announced. */
  ghost predicate Announces(ch: Challenge, p: Probe, inputs: seq<Input>, h: nat) {
    h < |inputs| && inputs[h].message == CallTool(ch.bootstrap, NoArguments, false)
    && p.notificationAt == inputs[h].notifiedAt && p.proof == inputs[h].freshProof
  }

  /** A list request received after the announcement left, and answered. */
  ghost predicate Refetches(p: Probe, inputs: seq<Input>, i: nat) {
    i < |inputs| && inputs[i].message == ListTools(false)
    && p.notificationAt <= inputs[i].receivedAt && p.catalogAt == inputs[i].sentAt
  }

  /** A canary call with the announced proof, received after that answer left. */
  ghost predicate Completes(ch: Challenge, p: Probe, inputs: seq<Input>, j: nat) {
    j < |inputs| && inputs[j].message == CallTool(ch.canary, ProofArgument(p.proof), false)
    && p.catalogAt <= inputs[j].receivedAt
  }

  ghost predicate Traced(ch: Challenge, p: Probe, inputs: seq<Input>) {
    && (p.changed ==> exists h: nat :: Announces(ch, p, inputs, h))
    && (p.refetched ==> exists h: nat, i: nat :: h < i && Announces(ch, p, inputs, h) && Refetches(p, inputs, i))
    && (p.receipt.complete ==>
          exists h: nat, i: nat, j: nat :: h < i < j && Announces(ch, p, inputs, h) && Refetches(p, inputs, i) && Completes(ch, p, inputs, j))
  }

  /** One message moves the probe at most one stage on, and keeps the marks of the stages behind it. */
  ghost predicate Advances(ch: Challenge, p: Probe, p': Probe, input: Input) {
    && (p.changed ==> p'.changed && p'.notificationAt == p.notificationAt && p'.proof == p.proof)
    && (p.refetched ==> p'.refetched && p'.catalogAt == p.catalogAt)
    && (p.receipt.complete ==> p'.receipt.complete)
    && (p'.changed && !p.changed ==>
          input.message == CallTool(ch.bootstrap, NoArguments, false)
          && p'.notificationAt == input.notifiedAt && p'.proof == input.freshProof)
    && (p'.refetched && !p.refetched ==>
          p.changed && input.message == ListTools(false) && p'.notificationAt <= input.receivedAt && p'.catalogAt == input.sentAt)
    && (p'.receipt.complete && !p.receipt.complete ==>
          p.refetched && input.message == CallTool(ch.canary, ProofArgument(p.proof), false) && p'.catalogAt <= input.receivedAt)
  }

  lemma HandlingAdvances(ch: Challenge, p: Probe, input: Input)
    ensures Advances(ch, p, Handled(ch, p, input), input)
  {
  }

  lemma AdvancingKeepsTrace(ch: Challenge, p: Probe, p': Probe, inputs: seq<Input>, input: Input)
    requires Advances(ch, p, p', input)
    requires Traced(ch, p, inputs) && (p.refetched ==> p.changed) && (p.receipt.complete ==> p.refetched)
    ensures Traced(ch, p', inputs + [input])
  {
    var longer, n := inputs + [input], |inputs|;
    if p.receipt.complete {
      var h: nat, i: nat, j: nat :| h < i < j && Announces(ch, p, inputs, h) && Refetches(p, inputs, i) && Completes(ch, p, inputs, j);
      assert Announces(ch, p', longer, h) && Refetches(p', longer, i) && Completes(ch, p', longer, j);
    } else if p.refetched {
      var h: nat, i: nat :| h < i && Announces(ch, p, inputs, h) && Refetches(p, inputs, i);
      assert Announces(ch, p', longer, h) && Refetches(p', longer, i);
      assert p'.receipt.complete ==> Completes(ch, p', longer, n);
    } else if p.changed {
      var h: nat :| Announces(ch, p, inputs, h);
      assert Announces(ch, p', longer, h);
      assert p'.refetched ==> Refetches(p', longer, n);
    } else if p'.changed {
      assert Announces(ch, p', longer, n);
    }
  }

  lemma {:induction false} RunIsTraced(ch: Challenge, at: nat, inputs: seq<Input>)
    requires Timely(ch, at, inputs)
    ensures Traced(ch, After(ch, at, inputs), inputs)
  {
    if inputs != [] {
      var earlier := inputs[..|inputs| - 1];
      RunIsTraced(ch, at, earlier);
      EveryPersistedReceiptIsAccepted(ch, at, earlier);
      assert inputs == earlier + [inputs[|inputs| - 1]];
      HandlingAdvances(ch, After(ch, at, earlier), inputs[|inputs| - 1]);
      AdvancingKeepsTrace(ch, After(ch, at, earlier), After(ch, at, inputs), earlier, inputs[|inputs| - 1]);
    }
  }

  /** A receipt becomes complete only if a list request received after the announcement had left was answered before a
      canary call, carrying the proof announced in that answer alone, was received. */
  lemma CompleteMeansRefetched(ch: Challenge, at: nat, inputs: seq<Input>) returns (h: nat, i: nat, j: nat)
    requires Timely(ch, at, inputs) && After(ch, at, inputs).receipt.complete
    ensures h < i < j < |inputs|
    ensures inputs[h].message == CallTool(ch.bootstrap, NoArguments, false)
    ensures inputs[i].message == ListTools(false) && inputs[h].notifiedAt <= inputs[i].receivedAt
    ensures inputs[j].message == CallTool(ch.canary, ProofArgument(inputs[h].freshProof), false)
    ensures inputs[i].sentAt <= inputs[j].receivedAt
  {
    RunIsTraced(ch, at, inputs);
    var p := After(ch, at, inputs);
    h, i, j :| h < i < j && Announces(ch, p, inputs, h) && Refetches(p, inputs, i) && Completes(ch, p, inputs, j);
  }
}
