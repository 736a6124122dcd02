/** What the reconciler promises: a settled second pass, no lost edit, and what a crash leaves behind. */
module ProjectionSafety {
  import opened Common
  import opened Projection

  // ---------------------------------------------------------------- documents as their readers yield them

  function DocumentEntry(kind: ClientKind, e: Entry): Entry {
    if kind == Codex then CodexEntry(e) else Fingerprint(kind, e)
  }

  ghost predicate WellRead(kind: ClientKind, doc: Document) {
    match doc
    case Unreadable => true
    case ClaudeDocument(_, _) => kind == Claude
    case OwnedDocument(entries) => kind != Claude && forall name | name in entries :: DocumentEntry(kind, entries[name]) == entries[name]
  }

  function NextEntries(doc: Document, plan: Plan): map<string, Entry>
    requires doc.OwnedDocument?
  {
    (doc.entries - plan.obsolete) + plan.desired
  }

  /** The regenerated Codex text can be parsed and still shows the name; the other clients quote their names. */
  ghost predicate Survives(kind: ClientKind, doc: Document, plan: Plan, name: string) {
    kind == Codex && doc.OwnedDocument? && !Idle(plan) ==>
      var next := NextEntries(doc, plan);
      HeadersAccepted(next) && (name in next ==> ReadBack(next, name))
  }

  ghost predicate AllProjected(env: Environment, desired: map<string, Entry>) {
    forall name | name in desired :: Projected(env, name, desired[name])
  }

  // ---------------------------------------------------------------- rendering and reading back

  /** Claude servers read back as the entry they were written from. */
  lemma ClaudeRoundTrip(e: Entry)
    ensures ClaudeValue(e).Server? && ClaudeCanonical(ClaudeValue(e)) == e
  {
  }

  /** A regenerated Codex document reads back whole exactly when no name is empty or dotted. */
  lemma CodexRoundTrip(entries: map<string, Entry>)
    ensures CodexReadBack(entries) == OwnedDocument(map name | name in entries :: CodexEntry(entries[name]))
            <==> forall name | name in entries :: name != "" && !Dotted(name)
  {
    if forall name | name in entries :: name != "" && !Dotted(name) {
      forall name | name in entries
        ensures !EmptySegment(name)
        ensures forall parent, key :: !Reopens(parent, key, name)
      {
        assert !Dotted(name);
      }
    } else if "" in entries {
      assert EmptySegment("");
    } else {
      var name :| name in entries && Dotted(name);
      assert name in (map n | n in entries :: CodexEntry(entries[n]));
      assert !ReadBack(entries, name);
    }
  }

  /** What the authority projects is recognised as its own when read back, without the env marker too. */
  lemma ProjectedIsOwned(env: Environment, name: string, e: Entry)
    requires Projected(env, name, e)
    ensures LooksBridgeOwned(env, name, e) && LooksBridgeOwned(env, name, DocumentEntry(env.kind, e))
    ensures DocumentEntry(Codex, e) == e
    ensures Fingerprint(env.kind, DocumentEntry(env.kind, e)) == Fingerprint(env.kind, e)
  {
    var policy, transport :| DesiredEntry(env, policy, name, transport) == Some(e);
    if e.Stdio? {
      var mode := if transport == HttpTransport then "connect-http"
                  else if policy.deferred then "deferred-mcp"
                  else if policy.route == ConstantTwoTool then "compatibility-mcp" else "connect";
      assert e == ConnectEntry(env, mode, name);
      assert e.args[|env.launcherArgs|] == mode;
    }
  }

  // ---------------------------------------------------------------- one name across one application

  /** What the document shows under one name after a plan was applied. */
  lemma LiveAfter(env: Environment, doc: Document, plan: Plan, name: string)
    requires WellRead(env.kind, doc) && !doc.Unreadable? && !Idle(plan)
    requires Survives(env.kind, doc, plan, name)
    requires name in plan.desired ==> Projected(env, name, plan.desired[name])
    ensures var next := Applied(env.kind, doc, plan);
            && (name in plan.desired ==>
                  && name in CurrentEntries(env, next)
                  && Fingerprint(env.kind, CurrentEntries(env, next)[name]) == Fingerprint(env.kind, plan.desired[name]))
            && (name !in plan.desired ==>
                  && (name in CurrentEntries(env, next) <==> name in CurrentEntries(env, doc) && name !in plan.obsolete)
                  && (name in CurrentEntries(env, next) ==> CurrentEntries(env, next)[name] == CurrentEntries(env, doc)[name])
                  && (name !in plan.obsolete ==> (name in UnownedNames(env, next) <==> name in UnownedNames(env, doc))))
  {
    if name in plan.desired {
      ProjectedIsOwned(env, name, plan.desired[name]);
      ClaudeRoundTrip(plan.desired[name]);
    }
    match doc
    case ClaudeDocument(servers, others) =>
      assert Applied(env.kind, doc, plan).servers ==
             (servers - plan.obsolete) + (map n | n in plan.desired :: ClaudeValue(plan.desired[n]));
    case OwnedDocument(entries) =>
      assert name in entries ==> DocumentEntry(env.kind, entries[name]) == entries[name];
  }

  /** Applying keeps every document in the form its reader yields. */
  lemma AppliedIsWellRead(kind: ClientKind, doc: Document, plan: Plan)
    requires WellRead(kind, doc)
    ensures WellRead(kind, Applied(kind, doc, plan))
  {
  }

  // ---------------------------------------------------------------- a second pass

  /** What the second pass decides, given what it finds. */
  predicate Follows(first: Verdict, second: Verdict) {
    match first
    case Conflict => second == Conflict || second == Drift
    case Drift => second == Drift
    case Remove => second == Untouched
    case Untouched => second == Untouched
    case _ => second == Keep
  }

  lemma PlannedNames(env: Environment, doc: Document, rows: map<string, Row>, desired: map<string, Entry>, name: string)
    ensures var plan, verdict := PlanFor(env, doc, rows, desired), Decide(env, doc, rows, desired, name);
            && (name in plan.desired <==> verdict == Add || verdict == Update)
            && (name in plan.desired ==> name in desired && plan.desired[name] == desired[name])
            && (name in plan.obsolete <==> verdict == Remove)
  {
  }

  /** From what a pass decided and what the document then shows, what the next pass decides. */
  lemma NextVerdict(env: Environment, doc: Document, doc': Document, rows: map<string, Row>, rows': map<string, Row>,
                    desired: map<string, Entry>, name: string)
    requires rows' == RowsAfter(env, doc, rows, desired)
    requires var verdict := Decide(env, doc, rows, desired, name);
             var cur, cur' := CurrentEntries(env, doc), CurrentEntries(env, doc');
             if verdict == Add || verdict == Update then
               name in cur' && Fingerprint(env.kind, cur'[name]) == Fingerprint(env.kind, desired[name])
             else
               && (name in cur' <==> name in cur && verdict != Remove)
               && (name in cur' ==> cur'[name] == cur[name])
               && (verdict != Remove ==> (name in UnownedNames(env, doc') <==> name in UnownedNames(env, doc)))
    ensures Follows(Decide(env, doc, rows, desired, name), Decide(env, doc', rows', desired, name))
  {
  }

  /** What a second pass over the same desired entries decides, name by name. */
  lemma SecondVerdict(env: Environment, doc: Document, rows: map<string, Row>, desired: map<string, Entry>, name: string)
    requires WellRead(env.kind, doc) && !doc.Unreadable? && AllProjected(env, desired)
    requires Survives(env.kind, doc, PlanFor(env, doc, rows, desired), name)
    ensures Follows(Decide(env, doc, rows, desired, name),
                    Decide(env, DocumentAfter(env, doc, rows, desired), RowsAfter(env, doc, rows, desired), desired, name))
  {
    var plan := PlanFor(env, doc, rows, desired);
    PlannedNames(env, doc, rows, desired, name);
    if !Idle(plan) {
      LiveAfter(env, doc, plan, name);
    }
    NextVerdict(env, doc, DocumentAfter(env, doc, rows, desired), rows, RowsAfter(env, doc, rows, desired), desired, name);
  }

  lemma DesiredIsInNext(env: Environment, doc: Document, rows: map<string, Row>, desired: map<string, Entry>, name: string)
    requires env.kind == Codex && doc.OwnedDocument? && name in desired
    ensures name in NextEntries(doc, PlanFor(env, doc, rows, desired))
  {
  }

  /** A pass with the same desired entries has nothing left to do. */
  ghost predicate Settled(env: Environment, doc: Document, rows: map<string, Row>, desired: map<string, Entry>) {
    !doc.Unreadable? && Idle(PlanFor(env, doc, rows, desired))
  }

  lemma NoWorkNoPlan(env: Environment, doc: Document, rows: map<string, Row>, desired: map<string, Entry>)
    requires forall name | name in desired || name in CurrentEntries(env, doc) ::
               Decide(env, doc, rows, desired, name) !in {Add, Update, Remove}
    ensures Idle(PlanFor(env, doc, rows, desired))
  {
    var plan := PlanFor(env, doc, rows, desired);
    assert forall name :: name !in plan.desired;
    assert forall name :: name !in plan.obsolete;
  }

  /** After one pass a second one adds and removes nothing, whatever conflicts or drift remain, exactly when every
      desired name can be read back from the written document: always for Claude and DSH, and for Codex when the
      headers parse and none of them hides a desired name. */
  lemma OnePassSettlesExactlyWhenNamesReadBack(env: Environment, doc: Document, rows: map<string, Row>, desired: map<string, Entry>)
    requires WellRead(env.kind, doc) && !doc.Unreadable? && AllProjected(env, desired)
    ensures Settled(env, DocumentAfter(env, doc, rows, desired), RowsAfter(env, doc, rows, desired), desired)
            <==> (env.kind == Codex && !Idle(PlanFor(env, doc, rows, desired)) ==>
                    && HeadersAccepted(NextEntries(doc, PlanFor(env, doc, rows, desired)))
                    && forall name | name in desired && name in NextEntries(doc, PlanFor(env, doc, rows, desired)) ::
                         ReadBack(NextEntries(doc, PlanFor(env, doc, rows, desired)), name))
  {
    var plan := PlanFor(env, doc, rows, desired);
    var doc', rows' := DocumentAfter(env, doc, rows, desired), RowsAfter(env, doc, rows, desired);
    if forall name | name in desired :: Survives(env.kind, doc, plan, name) {
      if desired == map[] && env.kind == Codex && !Idle(plan) && !HeadersAccepted(NextEntries(doc, plan)) {
        assert doc'.Unreadable?;
      } else {
        SurvivorsSettle(env, doc, rows, desired);
      }
    } else {
      var name :| name in desired && !Survives(env.kind, doc, plan, name);
      DesiredIsInNext(env, doc, rows, desired, name);
      if HeadersAccepted(NextEntries(doc, plan)) {
        assert name !in CurrentEntries(env, doc');
        assert name in PlanFor(env, doc', rows', desired).desired;
      }
    }
  }

  lemma SurvivorsSettle(env: Environment, doc: Document, rows: map<string, Row>, desired: map<string, Entry>)
    requires WellRead(env.kind, doc) && !doc.Unreadable? && AllProjected(env, desired)
    requires env.kind == Codex && !Idle(PlanFor(env, doc, rows, desired)) ==> HeadersAccepted(NextEntries(doc, PlanFor(env, doc, rows, desired)))
    requires forall name | name in desired :: Survives(env.kind, doc, PlanFor(env, doc, rows, desired), name)
    ensures Settled(env, DocumentAfter(env, doc, rows, desired), RowsAfter(env, doc, rows, desired), desired)
  {
    var plan := PlanFor(env, doc, rows, desired);
    var doc', rows' := DocumentAfter(env, doc, rows, desired), RowsAfter(env, doc, rows, desired);
    forall name | name in desired || name in CurrentEntries(env, doc')
      ensures Decide(env, doc', rows', desired, name) !in {Add, Update, Remove}
    {
      if Survives(env.kind, doc, plan, name) {
        SecondVerdict(env, doc, rows, desired, name);
      }
    }
    NoWorkNoPlan(env, doc', rows', desired);
  }

  /** A dotted id is never settled on Codex: its table reads back as no server, so every pass writes it again. */
  lemma DottedIdNeverSettles(env: Environment, doc: Document, rows: map<string, Row>, desired: map<string, Entry>, name: string)
    requires env.kind == Codex && WellRead(Codex, doc) && !doc.Unreadable? && AllProjected(env, desired)
    requires name in desired && Dotted(name) && name !in CurrentEntries(env, doc)
    ensures !Settled(env, DocumentAfter(env, doc, rows, desired), RowsAfter(env, doc, rows, desired), desired)
  {
    assert Decide(env, doc, rows, desired, name) == Add;
    PlannedNames(env, doc, rows, desired, name);
    OnePassSettlesExactlyWhenNamesReadBack(env, doc, rows, desired);
    assert !ReadBack(NextEntries(doc, PlanFor(env, doc, rows, desired)), name);
  }

  /** A pass brings every desired name that it neither reports nor loses to the wanted entry, with evidence of it. */
  lemma UnreportedNamesConverge(env: Environment, doc: Document, rows: map<string, Row>, desired: map<string, Entry>, name: string)
    requires WellRead(env.kind, doc) && !doc.Unreadable? && AllProjected(env, desired) && name in desired
    requires Survives(env.kind, doc, PlanFor(env, doc, rows, desired), name)
    requires Decide(env, doc, rows, desired, name) !in {Conflict, Drift}
    ensures var live := CurrentEntries(env, DocumentAfter(env, doc, rows, desired));
            && name in live && Fingerprint(env.kind, live[name]) == Fingerprint(env.kind, desired[name])
            && name in RowsAfter(env, doc, rows, desired)
            && RowsAfter(env, doc, rows, desired)[name] == Row(Configured, Some(Fingerprint(env.kind, live[name])))
  {
    var plan := PlanFor(env, doc, rows, desired);
    PlannedNames(env, doc, rows, desired, name);
    if !Idle(plan) {
      LiveAfter(env, doc, plan, name);
    }
  }

  // ---------------------------------------------------------------- a crash between the file and its bookkeeping

  /** The document was replaced and the rows were not: the next pass adopts a name it had planned exactly when no row
      contradicts it, and reports the rest as drift; what it had removed stays removed. */
  lemma AfterACrash(env: Environment, doc: Document, rows: map<string, Row>, desired: map<string, Entry>, name: string)
    requires WellRead(env.kind, doc) && !doc.Unreadable? && AllProjected(env, desired)
    requires Survives(env.kind, doc, PlanFor(env, doc, rows, desired), name)
    ensures var first := Decide(env, doc, rows, desired, name);
            var second := Decide(env, DocumentAfter(env, doc, rows, desired), rows, desired, name);
            if first == Add || first == Update then
              second == if name !in rows || rows[name].fingerprint == Some(Fingerprint(env.kind, desired[name])) then Keep else Drift
            else if first == Remove then second == Untouched
            else second == first
  {
    var plan := PlanFor(env, doc, rows, desired);
    PlannedNames(env, doc, rows, desired, name);
    if !Idle(plan) {
      LiveAfter(env, doc, plan, name);
    }
  }

  /** So an interrupted first add is adopted, and an interrupted update is always reported as drift. */
  lemma CrashAdoptsAddsAndReportsUpdates(env: Environment, doc: Document, rows: map<string, Row>, desired: map<string, Entry>, name: string)
    requires WellRead(env.kind, doc) && !doc.Unreadable? && AllProjected(env, desired) && name in desired
    requires Survives(env.kind, doc, PlanFor(env, doc, rows, desired), name)
    ensures var first := Decide(env, doc, rows, desired, name);
            var second := Decide(env, DocumentAfter(env, doc, rows, desired), rows, desired, name);
            && (first == Add && name !in rows ==> second == Keep)
            && (first == Update ==> second == Drift)
  {
    AfterACrash(env, doc, rows, desired, name);
  }

  // ---------------------------------------------------------------- edits

  /** The live entry is the one the authority last recorded. */
  ghost predicate Recorded(env: Environment, doc: Document, rows: map<string, Row>, name: string) {
    && name in CurrentEntries(env, doc) && name in rows
    && rows[name].fingerprint == Some(Fingerprint(env.kind, CurrentEntries(env, doc)[name]))
  }

  /** Only absent names and recorded entries are ever planned. */
  lemma OnlyRecordedIsPlanned(env: Environment, doc: Document, rows: map<string, Row>, desired: map<string, Entry>, name: string)
    ensures var plan := PlanFor(env, doc, rows, desired);
            && (name in plan.desired ==>
                  Recorded(env, doc, rows, name)
                  || (name in desired && name !in CurrentEntries(env, doc) && name !in UnownedNames(env, doc)))
            && (name in plan.obsolete ==> Recorded(env, doc, rows, name) && name !in desired)
  {
  }

  /** In a shared Claude document every server the authority did not record stays verbatim, and so does every other
      field: unowned, drifted and conflicting servers alike. */
  lemma ClaudeEditsStay(env: Environment, doc: Document, rows: map<string, Row>, desired: map<string, Entry>)
    requires env.kind == Claude && doc.ClaudeDocument?
    ensures var next := DocumentAfter(env, doc, rows, desired);
            && next.ClaudeDocument? && next.otherFields == doc.otherFields
            && forall name | name in doc.servers && doc.servers[name].Server? && !Recorded(env, doc, rows, name) ::
                 name in next.servers && next.servers[name] == doc.servers[name]
  {
    forall name | name in doc.servers && doc.servers[name].Server? && !Recorded(env, doc, rows, name)
      ensures name in DocumentAfter(env, doc, rows, desired).servers
      ensures DocumentAfter(env, doc, rows, desired).servers[name] == doc.servers[name]
    {
      OnlyRecordedIsPlanned(env, doc, rows, desired, name);
      assert name in ParsedEntries(doc);
    }
  }

  /** Fields of a server that its canonical form leaves out are not looked at: an edit of these alone changes no verdict. */
  lemma UncoveredEditIsNotSeen(env: Environment, doc: Document, rows: map<string, Row>, desired: map<string, Entry>, name: string,
                               edited: ClaudeServer, other: string)
    requires env.kind == Claude && doc.ClaudeDocument? && name in doc.servers && doc.servers[name].Server?
    requires edited.Server? && ClaudeCanonical(edited) == ClaudeCanonical(doc.servers[name])
    ensures Decide(env, doc.(servers := doc.servers[name := edited]), rows, desired, other) == Decide(env, doc, rows, desired, other)
  {
    assert ParsedEntries(doc.(servers := doc.servers[name := edited])) == ParsedEntries(doc);
  }

  /** So a server the authority recorded, with whatever else was written into it, stays verbatim exactly until its entry
      is replaced or removed; replacing it drops every field that was not projected. */
  lemma RecordedServerStaysUntilReplaced(env: Environment, doc: Document, rows: map<string, Row>, desired: map<string, Entry>, name: string)
    requires env.kind == Claude && doc.ClaudeDocument? && name in doc.servers && doc.servers[name].Server?
    requires Recorded(env, doc, rows, name)
    ensures var next, verdict := DocumentAfter(env, doc, rows, desired), Decide(env, doc, rows, desired, name);
            && next.ClaudeDocument?
            && (name in next.servers && next.servers[name] == doc.servers[name] <==> verdict != Update && verdict != Remove)
            && (verdict == Update ==> name in desired && name in next.servers && next.servers[name] == ClaudeValue(desired[name])
                                      && next.servers[name].others == map[])
            && (verdict == Remove ==> name !in next.servers)
            && (verdict == Update <==> name in desired && desired[name] != ClaudeCanonical(doc.servers[name]))
            && (verdict == Remove <==> name !in desired)
  {
    PlannedNames(env, doc, rows, desired, name);
    assert CurrentEntries(env, doc)[name] == ClaudeCanonical(doc.servers[name]);
    if name in desired {
      ClaudeRoundTrip(desired[name]);
    }
  }

  /** A value that is no JSON object is not probed: it stays exactly when its name is not desired. */
  lemma ClaudeNonObjectStaysUnlessDesired(env: Environment, doc: Document, rows: map<string, Row>, desired: map<string, Entry>, name: string)
    requires env.kind == Claude && doc.ClaudeDocument?
    requires name in doc.servers && doc.servers[name].NotAnObject?
    ensures var next := DocumentAfter(env, doc, rows, desired);
            && next.ClaudeDocument? && name in next.servers
            && (next.servers[name] == doc.servers[name] <==> name !in desired)
  {
    PlannedNames(env, doc, rows, desired, name);
    if name in desired {
      assert Decide(env, doc, rows, desired, name) == Add;
    }
  }

  /** An overlay is the authority's own, and only entries that look like its own are compared: an unrecorded entry
      stays exactly when it looks owned, is not desired, or is what would be written anyway. */
  lemma OverlayEditsStay(env: Environment, doc: Document, rows: map<string, Row>, desired: map<string, Entry>, name: string)
    requires env.kind == Dsh && doc.OwnedDocument? && WellRead(Dsh, doc)
    requires name in doc.entries && !Recorded(env, doc, rows, name)
    ensures var next := DocumentAfter(env, doc, rows, desired);
            && next.OwnedDocument? && name in next.entries
            && (next.entries[name] == doc.entries[name] <==>
                  (name in desired ==> LooksBridgeOwned(env, name, doc.entries[name]) || Fingerprint(Dsh, desired[name]) == doc.entries[name]))
  {
    PlannedNames(env, doc, rows, desired, name);
    OnlyRecordedIsPlanned(env, doc, rows, desired, name);
    if name in desired && !LooksBridgeOwned(env, name, doc.entries[name]) {
      assert Decide(env, doc, rows, desired, name) == Add;
    }
  }

  /** An unrecorded Codex entry stays exactly when nothing is written, or the written text still shows it. */
  lemma CodexEditsStay(env: Environment, doc: Document, rows: map<string, Row>, desired: map<string, Entry>, name: string)
    requires env.kind == Codex && doc.OwnedDocument? && WellRead(Codex, doc)
    requires name in doc.entries && !Recorded(env, doc, rows, name)
    ensures var next := DocumentAfter(env, doc, rows, desired);
            (next.OwnedDocument? && name in next.entries && next.entries[name] == doc.entries[name])
            <==> Survives(Codex, doc, PlanFor(env, doc, rows, desired), name)
  {
    PlannedNames(env, doc, rows, desired, name);
    OnlyRecordedIsPlanned(env, doc, rows, desired, name);
  }

  // ---------------------------------------------------------------- whole runs

  /** A pass, a pass that crashed before its bookkeeping, or somebody rewriting the document. */
  datatype Event = Pass(desired: map<string, Entry>) | Crashed(desired: map<string, Entry>) | Rewritten(doc: Document)

  datatype Situation = Situation(doc: Document, rows: map<string, Row>)

  ghost function Step(env: Environment, now: Situation, event: Event): Situation {
    match event
    case Rewritten(doc) => now.(doc := doc)
    case Crashed(desired) => if now.doc.Unreadable? then now else now.(doc := DocumentAfter(env, now.doc, now.rows, desired))
    case Pass(desired) =>
      if now.doc.Unreadable? then now.(rows := ErrorRows(now.rows))
      else Situation(DocumentAfter(env, now.doc, now.rows, desired), RowsAfter(env, now.doc, now.rows, desired))
  }

  ghost function After(env: Environment, now: Situation, events: seq<Event>): Situation
    decreases |events|
  {
    if events == [] then now else After(env, Step(env, now, events[0]), events[1..])
  }

  /** The event neither rewrites this server nor asks for exactly what it already is. */
  ghost predicate Spares(env: Environment, name: string, server: ClaudeServer, event: Event)
    requires server.Server?
  {
    match event
    case Rewritten(doc) => doc.ClaudeDocument? && name in doc.servers && doc.servers[name] == server
    case Pass(desired) => name in desired ==> Fingerprint(Claude, desired[name]) != Fingerprint(Claude, ClaudeCanonical(server))
    case Crashed(_) => true
  }

  ghost predicate Edited(env: Environment, now: Situation, name: string, server: ClaudeServer) {
    && now.doc.ClaudeDocument? && name in now.doc.servers && now.doc.servers[name] == server && server.Server?
    && !Recorded(env, now.doc, now.rows, name)
  }

  lemma StepKeepsEdit(env: Environment, now: Situation, name: string, server: ClaudeServer, event: Event)
    requires env.kind == Claude && Edited(env, now, name, server) && Spares(env, name, server, event)
    ensures Edited(env, Step(env, now, event), name, server)
  {
    assert ParsedEntries(now.doc)[name] == ClaudeCanonical(server);
    match event
    case Rewritten(doc) => assert ParsedEntries(doc)[name] == ClaudeCanonical(server);
    case Crashed(desired) =>
      ClaudeEditsStay(env, now.doc, now.rows, desired);
      assert ParsedEntries(Step(env, now, event).doc)[name] == ClaudeCanonical(server);
    case Pass(desired) =>
      ClaudeEditsStay(env, now.doc, now.rows, desired);
      OnlyRecordedIsPlanned(env, now.doc, now.rows, desired, name);
      assert ParsedEntries(Step(env, now, event).doc)[name] == ClaudeCanonical(server);
      assert LooksBridgeOwned(env, name, ClaudeCanonical(server)) ==>
               Decide(env, now.doc, now.rows, desired, name) in {Conflict, Drift};
  }

  /** A server in a shared document that is not the entry the authority recorded keeps its exact value through every
      run of passes, crashes and edits elsewhere, however the desired entries change; the one way it is adopted is a
      pass that wants exactly what it already is. */
  lemma {:induction false} AnEditOutlivesEveryRun(env: Environment, now: Situation, name: string, server: ClaudeServer, events: seq<Event>)
    requires env.kind == Claude && Edited(env, now, name, server)
    requires forall event | event in events :: Spares(env, name, server, event)
    ensures Edited(env, After(env, now, events), name, server)
    decreases |events|
  {
    if events != [] {
      StepKeepsEdit(env, now, name, server, events[0]);
      AnEditOutlivesEveryRun(env, Step(env, now, events[0]), name, server, events[1..]);
    }
  }
}
