/** The recovery policy of the persistent connector (connector_engine.py, Recovery). */
module ConnectorEngine {
  import opened Common

  datatype JsonId = Number(n: int) | Text(s: string) | Null

  /** An Agent line, as its parse shows it: the id and method members it has, and whether it has a result or error. */
  datatype AgentLine = NotAnObject(raw: string) | Message(id: Option<JsonId>, methodName: Option<string>, answer: bool, raw: string)

  /** A node line: its id, whether it has a result or error, and whether the result is a non-empty object. */
  datatype NodeLine = Opaque(text: string) | Reply(id: JsonId, answer: bool, fullResult: bool, text: string)

  datatype Role = Initialize(id: JsonId) | Initialized | Request(id: JsonId) | Response | Other

  function RoleOf(line: AgentLine): Role {
    match line
    case NotAnObject(_) => Other
    case Message(id, methodName, answer, _) =>
      if methodName == Some("initialize") && id.Some? then Initialize(id.value)
      else if methodName == Some("notifications/initialized") then Initialized
      else if methodName.Some? && id.Some? && !answer then Request(id.value)
      else if id.Some? && answer then Response
      else Other
  }

  /** The calls, which are owed an answer. */
  predicate IsCall(line: AgentLine, id: JsonId) {
    RoleOf(line) == Initialize(id) || RoleOf(line) == Request(id)
  }

  predicate IsAnswer(line: NodeLine) {
    line.Reply? && line.id != Null && line.answer
  }

  /** What outlives a handover: the last initialize line with its id, and the last initialized line. */
  datatype Handshake = Handshake(initialize: Option<AgentLine>, initId: JsonId, initialized: Option<AgentLine>)

  datatype Policy = Policy(handshake: Handshake, pending: set<JsonId>, uncertain: set<JsonId>, failed: set<JsonId>)

  datatype BridgeError = BridgeError(id: JsonId, outcomeUnknown: bool)

  const NO_HANDSHAKE := Handshake(None, Null, None)

  const FRESH_POLICY := Policy(NO_HANDSHAKE, {}, {}, {})

  // ---------------------------------------------------------------- the policy's steps as functions

  function Cached(h: Handshake, line: AgentLine): Handshake {
    match RoleOf(line)
    case Initialize(id) => h.(initialize := Some(line), initId := id)
    case Initialized => h.(initialized := Some(line))
    case _ => h
  }

  function Sent(p: Policy, id: JsonId, current: bool): Policy {
    if current then p.(pending := p.pending + {id})
    else if id !in p.failed then p.(uncertain := p.uncertain + {id})
    else p
  }

  function Consumed(p: Policy, id: JsonId): Policy {
    p.(pending := p.pending - {id}, uncertain := p.uncertain - {id})
  }

  predicate EndsAbsorb(h: Handshake, line: NodeLine) {
    IsAnswer(line) && line.id == h.initId && line.fullResult
  }

  predicate Quiescent(p: Policy) {
    p.pending == {} && p.uncertain == {}
  }

  function Drained(p: Policy): Policy {
    p.(pending := {}, uncertain := {})
  }

  /** The errors for the ids that were not failed before. */
  function ErrorsOf(failed: set<JsonId>, ids: seq<JsonId>, outcomeUnknown: bool): seq<BridgeError> {
    if ids == [] then []
    else
      ErrorsOf(failed, ids[..|ids| - 1], outcomeUnknown)
      + (if ids[|ids| - 1] in failed then [] else [BridgeError(ids[|ids| - 1], outcomeUnknown)])
  }

  function IdSet(ids: seq<JsonId>): set<JsonId> {
    set id | id in ids
  }

  function FailedOnce(p: Policy, ids: seq<JsonId>): Policy {
    p.(failed := p.failed + IdSet(ids))
  }

  function CountErrors(errors: seq<BridgeError>, id: JsonId): nat {
    if errors == [] then 0
    else CountErrors(errors[..|errors| - 1], id) + if errors[|errors| - 1].id == id then 1 else 0
  }

  lemma {:induction false} CountErrorsAppend(a: seq<BridgeError>, b: seq<BridgeError>, id: JsonId)
    ensures CountErrors(a + b, id) == CountErrors(a, id) + CountErrors(b, id)
  {
    if b == [] {
      assert a + b == a;
    } else {
      assert (a + b)[..|a + b| - 1] == a + b[..|b| - 1];
      CountErrorsAppend(a, b[..|b| - 1], id);
    }
  }

  lemma OneError(error: BridgeError, id: JsonId)
    ensures CountErrors([error], id) == if error.id == id then 1 else 0
  {
    assert [error][..0] == [];
  }

  lemma CountOfLast(ids: seq<JsonId>, id: JsonId)
    requires ids != []
    ensures multiset(ids)[id] == multiset(ids[..|ids| - 1])[id] + if ids[|ids| - 1] == id then 1 else 0
  {
    assert ids == ids[..|ids| - 1] + [ids[|ids| - 1]];
  }

  /** An id gets one error per time it is listed, unless it was failed before, in which case it gets none: an id
      listed twice, being both pending and uncertain, gets two at once. */
  lemma {:induction false} ErrorsPerId(failed: set<JsonId>, ids: seq<JsonId>, outcomeUnknown: bool, id: JsonId)
    ensures CountErrors(ErrorsOf(failed, ids, outcomeUnknown), id) == if id in failed then 0 else multiset(ids)[id]
  {
    if ids != [] {
      var front, last := ids[..|ids| - 1], ids[|ids| - 1];
      var earlier := ErrorsOf(failed, front, outcomeUnknown);
      ErrorsPerId(failed, front, outcomeUnknown, id);
      CountOfLast(ids, id);
      CountErrorsAppend(earlier, [BridgeError(last, outcomeUnknown)], id);
      OneError(BridgeError(last, outcomeUnknown), id);
      assert earlier + [] == earlier;
    }
  }

  /** Failing is once per id and per call exactly when no fresh id is listed twice. */
  lemma FailOnceIsOnce(failed: set<JsonId>, ids: seq<JsonId>, outcomeUnknown: bool)
    ensures (forall id: JsonId :: CountErrors(ErrorsOf(failed, ids, outcomeUnknown), id) <= 1)
            <==> forall id | id in ids && id !in failed :: multiset(ids)[id] == 1
  {
    if forall id | id in ids && id !in failed :: multiset(ids)[id] == 1 {
      forall id: JsonId
        ensures CountErrors(ErrorsOf(failed, ids, outcomeUnknown), id) <= 1
      {
        ErrorsPerId(failed, ids, outcomeUnknown, id);
        assert id !in ids ==> id !in multiset(ids);
      }
    } else {
      var id :| id in ids && id !in failed && multiset(ids)[id] != 1;
      ErrorsPerId(failed, ids, outcomeUnknown, id);
      assert id in multiset(ids);
    }
  }

  // ---------------------------------------------------------------- the class

  datatype Decision = Absorb | AbsorbDone | Forward(line: NodeLine, annotated: bool)

  /** Each method is one `with self._lock` region. */
  class Recovery {
    const stale: bool
    var handshake: Handshake
    var pending: set<JsonId>
    var uncertain: set<JsonId>
    var failed: set<JsonId>
    var initAnnotated: bool

    function View(): Policy
      reads this
    {
      Policy(handshake, pending, uncertain, failed)
    }

    constructor (stale: bool)
      ensures View() == FRESH_POLICY && this.stale == stale && !initAnnotated
    {
      this.stale := stale;
      handshake, pending, uncertain, failed, initAnnotated := NO_HANDSHAKE, {}, {}, {}, false;
    }

    method HandleAgent(line: AgentLine) returns (role: Role)
      modifies this`handshake
      ensures role == RoleOf(line)
      ensures View() == old(View()).(handshake := Cached(old(handshake), line))
    {
      role := Other;
      if line.Message? {
        if line.methodName == Some("initialize") && line.id.Some? {
          role := Initialize(line.id.value);
          handshake := handshake.(initialize := Some(line), initId := line.id.value);
        } else if line.methodName == Some("notifications/initialized") {
          role := Initialized;
          handshake := handshake.(initialized := Some(line));
        } else if line.methodName.Some? && line.id.Some? && !line.answer {
          role := Request(line.id.value);
        } else if line.id.Some? && line.answer {
          role := Response;
        }
      }
    }

    method RememberSent(id: JsonId, current: bool)
      modifies this`pending, this`uncertain
      ensures View() == Sent(old(View()), id, current)
    {
      if current {
        pending := pending + {id};
      } else if id !in failed {
        uncertain := uncertain + {id};
      }
    }

    /** A replay's own result is swallowed; a live line is forwarded, and the first answer to initialize is annotated
        when the node core is stale. */
    method HandleNode(line: NodeLine, absorbing: bool) returns (decision: Decision)
      modifies this`pending, this`uncertain, this`initAnnotated
      ensures absorbing ==> decision == (if EndsAbsorb(handshake, line) then AbsorbDone else Absorb) && View() == old(View())
      ensures !absorbing ==> decision == Forward(line, EndsAbsorb(handshake, line) && stale && !old(initAnnotated))
      ensures !absorbing ==> View() == if IsAnswer(line) then Consumed(old(View()), line.id) else old(View())
      ensures initAnnotated <==> old(initAnnotated) || (decision.Forward? && decision.annotated)
    {
      if absorbing {
        return if IsAnswer(line) && line.id == handshake.initId && line.fullResult then AbsorbDone else Absorb;
      }
      var annotated := false;
      if IsAnswer(line) {
        pending := pending - {line.id};
        uncertain := uncertain - {line.id};
        if line.id == handshake.initId && line.fullResult && stale && !initAnnotated {
          initAnnotated := true;
          annotated := true;
        }
      }
      return Forward(line, annotated);
    }

    /** Every outstanding id, and nothing is outstanding any more. */
    method LostRequests() returns (ids: seq<JsonId>)
      modifies this`pending, this`uncertain
      ensures multiset(ids) == multiset(old(pending)) + multiset(old(uncertain))
      ensures View() == Drained(old(View()))
    {
      ids := [];
      while pending != {}
        invariant uncertain == old(uncertain)
        invariant multiset(ids) + multiset(pending) == multiset(old(pending))
        decreases |pending|
      {
        var id :| id in pending;
        pending := pending - {id};
        ids := ids + [id];
      }
      while uncertain != {}
        invariant pending == {}
        invariant multiset(ids) + multiset(uncertain) == multiset(old(pending)) + multiset(old(uncertain))
        decreases |uncertain|
      {
        var id :| id in uncertain;
        uncertain := uncertain - {id};
        ids := ids + [id];
      }
    }

    method FailOnce(ids: seq<JsonId>, outcomeUnknown: bool) returns (errors: seq<BridgeError>)
      modifies this`failed
      ensures errors == ErrorsOf(old(failed), ids, outcomeUnknown)
      ensures View() == FailedOnce(old(View()), ids)
    {
      errors := [];
      for i := 0 to |ids|
        invariant errors == ErrorsOf(failed, ids[..i], outcomeUnknown)
      {
        assert ids[..i + 1][..i] == ids[..i];
        if ids[i] !in failed {
          errors := errors + [BridgeError(ids[i], outcomeUnknown)];
        }
      }
      assert ids[..|ids|] == ids;
      var before := failed;
      for i := 0 to |ids|
        invariant failed == before + IdSet(ids[..i])
      {
        failed := failed + {ids[i]};
        assert ids[..i + 1] == ids[..i] + [ids[i]];
      }
    }

    /** A replacement takes over the handshake and nothing else. */
    constructor Successor(previous: Recovery, stale: bool)
      ensures View() == FRESH_POLICY.(handshake := previous.handshake) && this.stale == stale
    {
      this.stale := stale;
      handshake, pending, uncertain, failed, initAnnotated := previous.handshake, {}, {}, {}, false;
    }
  }
}
