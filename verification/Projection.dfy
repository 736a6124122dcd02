/** The configuration reconciler over its file adapters (installer/projection.py). */
module Projection {
  import opened Common

  datatype ClientKind = Codex | Claude | Dsh

  /** The canonical form of one MCP server entry. */
  datatype Entry =
    | Stdio(command: Option<string>, args: seq<string>, env: map<string, string>)
    | Http(url: Option<string>, headers: map<string, string>)

  /** The environment row: what this authority launches and where its relays are. */
  datatype Environment = Environment(
    kind: ClientKind,
    launcherCommand: string,
    launcherArgs: seq<string>,
    relayBaseUrl: string,
    stdioHttpEndpoints: map<string, string>)

  /** The fingerprint is an injective digest of the entry; DSH documents hold no env for stdio entries. */
  function Fingerprint(kind: ClientKind, e: Entry): Entry {
    if kind == Dsh && e.Stdio? then e.(env := map[]) else e
  }

  // ---------------------------------------------------------------- ownership

  const OWNED_ENV_KEY := "WIN_WSL_MCP_BRIDGE_OWNED"
  const SERVER_ENV_KEY := "WIN_WSL_MCP_BRIDGE_SERVER"
  const OWNED_ENV_VALUE := "1"

  predicate FrontendMode(mode: string) {
    mode in {"connect", "connect-http", "compatibility-mcp", "deferred-mcp"}
  }

  function StripSlashes(s: string): string {
    if s != "" && s[|s| - 1] == '/' then StripSlashes(s[..|s| - 1]) else s
  }

  function RelayUrl(base: string, name: string): string {
    StripSlashes(base) + "/mcp/" + name
  }

  predicate LaunchedByBridge(env: Environment, command: Option<string>, args: seq<string>) {
    && command == Some(env.launcherCommand)
    && |env.launcherArgs| < |args| && args[..|env.launcherArgs|] == env.launcherArgs
    && FrontendMode(args[|env.launcherArgs|])
  }

  predicate BridgeUrl(env: Environment, name: string, url: string) {
    && name != ""
    && ((env.relayBaseUrl != "" && url == RelayUrl(env.relayBaseUrl, name))
        || (name in env.stdioHttpEndpoints && env.stdioHttpEndpoints[name] == url))
  }

  predicate LooksBridgeOwned(env: Environment, name: string, e: Entry) {
    match e
    case Stdio(command, args, vars) => OWNED_ENV_KEY in vars || LaunchedByBridge(env, command, args)
    case Http(url, _) => url.Some? && BridgeUrl(env, name, url.value)
  }

  // ---------------------------------------------------------------- desired entries

  datatype Transport = StdioTransport | HttpTransport

  datatype Route = NativeRoute | StdioToHttp | HttpToStdio | ConstantTwoTool

  datatype Policy = Policy(route: Route, stdio: bool, streamableHttp: bool, deferred: bool)

  function ConnectEntry(env: Environment, mode: string, name: string): Entry {
    Stdio(Some(env.launcherCommand), env.launcherArgs + [mode, name],
          map[OWNED_ENV_KEY := OWNED_ENV_VALUE, SERVER_ENV_KEY := name])
  }

  /** The descriptor projected for one registered server, if its transport is supported. */
  function DesiredEntry(env: Environment, policy: Policy, name: string, transport: Transport): Option<Entry> {
    if transport == StdioTransport && policy.route == StdioToHttp then
      if name in env.stdioHttpEndpoints && env.stdioHttpEndpoints[name] != "" then
        Some(Http(Some(env.stdioHttpEndpoints[name]), map[]))
      else None
    else if transport == StdioTransport && policy.stdio then
      Some(ConnectEntry(env, if policy.deferred then "deferred-mcp"
                             else if policy.route == ConstantTwoTool then "compatibility-mcp"
                             else "connect", name))
    else if transport == HttpTransport && (policy.route == NativeRoute || policy.route == StdioToHttp)
            && policy.streamableHttp && env.relayBaseUrl != "" then
      Some(Http(Some(RelayUrl(env.relayBaseUrl, name)), map[]))
    else if transport == HttpTransport && policy.route == HttpToStdio then
      Some(ConnectEntry(env, "connect-http", name))
    else None
  }

  /** A descriptor as the authority projects them. */
  ghost predicate Projected(env: Environment, name: string, e: Entry) {
    name != "" && exists policy, transport :: DesiredEntry(env, policy, name, transport) == Some(e)
  }

  // ---------------------------------------------------------------- documents

  /** One value under `mcpServers` of a Claude document; a field of the wrong JSON type counts as absent. */
  datatype ClaudeServer =
    | NotAnObject(raw: string)
    | Server(serverType: ServerType, command: Option<string>, args: Option<seq<string>>,
             env: Option<map<string, string>>, url: Option<string>, headers: Option<map<string, string>>,
             others: map<string, string>)

  datatype ServerType = NoType | StdioType | HttpType | OtherType(name: string)

  datatype Document =
    | ClaudeDocument(servers: map<string, ClaudeServer>, otherFields: map<string, string>)
    | OwnedDocument(entries: map<string, Entry>)
    | Unreadable

  function GetOr<T>(o: Option<T>, default: T): T {
    if o.Some? then o.value else default
  }

  /** `_claude_server_canonical`; an unsupported type has no command, no args and no env. */
  function ClaudeCanonical(s: ClaudeServer): Entry
    requires s.Server?
  {
    match s.serverType
    case OtherType(_) => Stdio(None, [], map[])
    case HttpType => Http(s.url, GetOr(s.headers, map[]))
    case _ => Stdio(s.command, GetOr(s.args, []), GetOr(s.env, map[]))
  }

  /** `_claude_server_value`. */
  function ClaudeValue(e: Entry): ClaudeServer {
    match e
    case Http(url, headers) =>
      Server(HttpType, None, None, None, url, if headers == map[] then None else Some(headers), map[])
    case Stdio(command, args, env) => Server(StdioType, command, Some(args), Some(env), None, None, map[])
  }

  function ParsedEntries(doc: Document): map<string, Entry> {
    match doc
    case ClaudeDocument(servers, _) => map name | name in servers && servers[name].Server? :: ClaudeCanonical(servers[name])
    case OwnedDocument(entries) => entries
    case Unreadable => map[]
  }

  /** `_adapter_read_entries`: a Codex document is wholly owned, elsewhere ownership is looked at. */
  function CurrentEntries(env: Environment, doc: Document): map<string, Entry> {
    var parsed := ParsedEntries(doc);
    if env.kind == Codex then parsed
    else map name | name in parsed && LooksBridgeOwned(env, name, parsed[name]) :: parsed[name]
  }

  /** `_projection_unowned_names`: only a shared Claude document is probed. */
  function UnownedNames(env: Environment, doc: Document): set<string> {
    var parsed := ParsedEntries(doc);
    if env.kind == Claude then set name | name in parsed && !LooksBridgeOwned(env, name, parsed[name]) else {}
  }

  // ---------------------------------------------------------------- TOML table headers

  predicate Dotted(name: string) {
    '.' in name
  }

  function FirstSegment(name: string): string {
    if name == "" || name[0] == '.' then "" else [name[0]] + FirstSegment(name[1..])
  }

  predicate EmptySegment(name: string) {
    name == "" || exists k | 0 <= k < |name| ::
      name[k] == '.' && (k == 0 || k == |name| - 1 || name[k + 1] == '.')
  }

  /** The keys an entry's table body defines. */
  function BodyKeys(e: Entry): set<string> {
    if e.Http? then {"url"} else {"command", "args", "env"}
  }

  /** The header of `child` opens a table at `parent.key`. */
  predicate Reopens(parent: string, key: string, child: string) {
    && |parent| < |child| && child[..|parent|] == parent && child[|parent|] == '.'
    && FirstSegment(child[|parent| + 1..]) == key
  }

  /** A header with an empty segment is no TOML; so is one that reopens a key which already holds a value. */
  predicate HeadersAccepted(entries: map<string, Entry>) {
    && (forall name | name in entries :: !EmptySegment(name))
    && (forall parent, child, key | parent in entries && child in entries && key in BodyKeys(entries[parent]) ::
          !Reopens(parent, key, child))
  }

  /** A dotted name opens a nested table, which is no server; one under `name.url` makes a stdio entry look remote. */
  predicate ReadBack(entries: map<string, Entry>, name: string)
    requires name in entries
  {
    && !Dotted(name)
    && (entries[name].Stdio? ==> forall child | child in entries :: !Reopens(name, "url", child))
  }

  /** Codex text holds no headers, and writes an absent value as the word None. */
  function CodexEntry(e: Entry): Entry {
    match e
    case Http(url, _) => Http(Some(GetOr(url, "None")), map[])
    case Stdio(command, args, env) => Stdio(Some(GetOr(command, "None")), args, env)
  }

  /** What reading the regenerated Codex text yields. */
  function CodexReadBack(entries: map<string, Entry>): Document {
    if !HeadersAccepted(entries) then Unreadable
    else OwnedDocument(map name | name in entries && ReadBack(entries, name) :: CodexEntry(entries[name]))
  }

  // ---------------------------------------------------------------- applying a plan

  datatype Plan = Plan(desired: map<string, Entry>, obsolete: set<string>)

  predicate Idle(plan: Plan) {
    plan.desired == map[] && plan.obsolete == {}
  }

  /** `_adapter_apply_file`: a shared document is edited key by key, an owned one is regenerated. */
  function Applied(kind: ClientKind, doc: Document, plan: Plan): Document {
    match doc
    case Unreadable => Unreadable
    case ClaudeDocument(servers, otherFields) =>
      ClaudeDocument((servers - plan.obsolete) + (map name | name in plan.desired :: ClaudeValue(plan.desired[name])), otherFields)
    case OwnedDocument(entries) =>
      var next := (entries - plan.obsolete) + plan.desired;
      if kind == Codex then CodexReadBack(next)
      else OwnedDocument(map name | name in next :: Fingerprint(Dsh, next[name]))
  }

  // ---------------------------------------------------------------- deciding

  datatype Status = Configured | Drifted | Errored

  /** A bookkeeping row; a row made for a conflict holds no fingerprint. */
  datatype Row = Row(status: Status, fingerprint: Option<Entry>)

  datatype Verdict = Add | Update | Keep | Conflict | Drift | Remove | Untouched

  function DecideDesired(env: Environment, current: map<string, Entry>, unowned: set<string>,
                         rows: map<string, Row>, name: string, wanted: Entry): Verdict
  {
    if name !in current then if name in unowned then Conflict else Add
    else
      var live := Fingerprint(env.kind, current[name]);
      if name !in rows then if live == Fingerprint(env.kind, wanted) then Keep else Conflict
      else if rows[name].fingerprint != Some(live) then Drift
      else if live == Fingerprint(env.kind, wanted) then Keep
      else Update
  }

  function DecideObsolete(env: Environment, current: map<string, Entry>, rows: map<string, Row>, name: string): Verdict {
    if name !in current then Untouched
    else if name !in rows || rows[name].fingerprint != Some(Fingerprint(env.kind, current[name])) then Drift
    else Remove
  }

  function Decide(env: Environment, doc: Document, rows: map<string, Row>, desired: map<string, Entry>, name: string): Verdict {
    if name in desired then DecideDesired(env, CurrentEntries(env, doc), UnownedNames(env, doc), rows, name, desired[name])
    else DecideObsolete(env, CurrentEntries(env, doc), rows, name)
  }

  function PlanFor(env: Environment, doc: Document, rows: map<string, Row>, desired: map<string, Entry>): Plan {
    Plan(map name | name in desired && Decide(env, doc, rows, desired, name) in {Add, Update} :: desired[name],
         set name | name in CurrentEntries(env, doc) && Decide(env, doc, rows, desired, name) == Remove)
  }

  function DocumentAfter(env: Environment, doc: Document, rows: map<string, Row>, desired: map<string, Entry>): Document {
    var plan := PlanFor(env, doc, rows, desired);
    if Idle(plan) then doc else Applied(env.kind, doc, plan)
  }

  /** The names among `among` that get the given verdict. */
  function Named(env: Environment, doc: Document, rows: map<string, Row>, desired: map<string, Entry>,
                 among: set<string>, verdict: Verdict): set<string>
  {
    set name | name in among && Decide(env, doc, rows, desired, name) == verdict
  }

  function RowAfter(env: Environment, rows: map<string, Row>, desired: map<string, Entry>, name: string, verdict: Verdict): Option<Row> {
    if name in desired then
      match verdict
      case Conflict => Some(Row(Errored, if name in rows then rows[name].fingerprint else None))
      case Drift => Some(Row(Drifted, if name in rows then rows[name].fingerprint else None))
      case _ => Some(Row(Configured, Some(Fingerprint(env.kind, desired[name]))))
    else if name !in rows || verdict == Remove then None
    else if verdict == Drift then Some(rows[name].(status := Drifted))
    else Some(rows[name])
  }

  function RowsAfter(env: Environment, doc: Document, rows: map<string, Row>, desired: map<string, Entry>): map<string, Row> {
    map name | name in rows.Keys + desired.Keys
               && RowAfter(env, rows, desired, name, Decide(env, doc, rows, desired, name)).Some?
      :: RowAfter(env, rows, desired, name, Decide(env, doc, rows, desired, name)).value
  }

  lemma ObsoleteVerdicts(env: Environment, doc: Document, rows: map<string, Row>, desired: map<string, Entry>, verdicts: map<string, Verdict>)
    requires verdicts == map name | name in CurrentEntries(env, doc) && name !in desired ::
                           DecideObsolete(env, CurrentEntries(env, doc), rows, name)
    ensures forall name :: name in PlanFor(env, doc, rows, desired).obsolete <==> name in verdicts && verdicts[name] == Remove
    ensures forall name :: name in Named(env, doc, rows, desired, CurrentEntries(env, doc).Keys - desired.Keys, Drift)
                           <==> name in verdicts && verdicts[name] == Drift
  {
  }

  predicate SameRow(one: map<string, Row>, two: map<string, Row>, name: string) {
    (name in one <==> name in two) && (name in one && name in two ==> one[name] == two[name])
  }

  lemma SameRowsSameMap(one: map<string, Row>, two: map<string, Row>)
    requires forall name :: SameRow(one, two, name)
    ensures one == two
  {
    assert forall name :: SameRow(one, two, name) ==> (name in one <==> name in two);
  }

  /** The sets of a plan show a name's verdict, and `goal` has the row it calls for. */
  predicate SetsShow(env: Environment, rows: map<string, Row>, desired: map<string, Entry>, conflicts: set<string>, drift: set<string>,
                     obsolete: set<string>, name: string, verdict: Verdict, goal: map<string, Row>)
  {
    && (name in conflicts <==> name in desired && verdict == Conflict)
    && (name in drift <==> verdict == Drift)
    && (name in obsolete <==> name !in desired && verdict == Remove)
    && match RowAfter(env, rows, desired, name, verdict)
       case Some(row) => name in goal && goal[name] == row
       case None => name !in goal
  }

  lemma VerdictShows(env: Environment, doc: Document, rows: map<string, Row>, desired: map<string, Entry>, name: string)
    requires name in desired || name in CurrentEntries(env, doc)
    ensures SetsShow(env, rows, desired,
                     Named(env, doc, rows, desired, desired.Keys, Conflict),
                     Named(env, doc, rows, desired, desired.Keys, Drift)
                     + Named(env, doc, rows, desired, CurrentEntries(env, doc).Keys - desired.Keys, Drift),
                     PlanFor(env, doc, rows, desired).obsolete,
                     name, Decide(env, doc, rows, desired, name), RowsAfter(env, doc, rows, desired))
  {
  }

  lemma RowDependsOnName(env: Environment, one: map<string, Row>, two: map<string, Row>, desired: map<string, Entry>, name: string, verdict: Verdict)
    requires SameRow(one, two, name)
    ensures RowAfter(env, one, desired, name, verdict) == RowAfter(env, two, desired, name, verdict)
  {
  }

  /** A name that is neither desired nor live keeps its row. */
  lemma RowsAreTouched(env: Environment, doc: Document, rows: map<string, Row>, desired: map<string, Entry>)
    ensures forall name | name !in desired && name !in CurrentEntries(env, doc) :: SameRow(rows, RowsAfter(env, doc, rows, desired), name)
  {
    forall name | name !in desired && name !in CurrentEntries(env, doc)
      ensures SameRow(rows, RowsAfter(env, doc, rows, desired), name)
    {
      assert Decide(env, doc, rows, desired, name) == Untouched;
    }
  }

  function ErrorRows(rows: map<string, Row>): map<string, Row> {
    map name | name in rows :: rows[name].(status := Errored)
  }

  datatype Outcome = Reconciled(conflicts: set<string>, drift: set<string>) | Failed

  // ---------------------------------------------------------------- the pass

  /** One enrolled environment: its live document and its bookkeeping rows. */
  class ProjectedEnvironment {
    const env: Environment
    var document: Document
    var rows: map<string, Row>

    constructor (env: Environment, document: Document)
      ensures this.env == env && this.document == document && rows == map[]
    {
      this.env, this.document, this.rows := env, document, map[];
    }

    /** The live entry is the one the bookkeeping holds. */
    predicate AsRecorded(current: map<string, Entry>, name: string)
      reads this
    {
      name in current && name in rows && rows[name].fingerprint == Some(Fingerprint(env.kind, current[name]))
    }

    predicate AsWanted(current: map<string, Entry>, name: string, wanted: Entry) {
      name in current && Fingerprint(env.kind, current[name]) == Fingerprint(env.kind, wanted)
    }

    /** The branches taken for one desired name: only what is absent is added, only what is still as recorded is
        replaced, only what is as wanted is kept, and what is reported is none of these. */
    method Classify(current: map<string, Entry>, unowned: set<string>, name: string, wanted: Entry) returns (verdict: Verdict)
      ensures verdict == DecideDesired(env, current, unowned, rows, name, wanted)
      ensures verdict == Add ==> name !in current && name !in unowned
      ensures verdict == Update ==> AsRecorded(current, name) && !AsWanted(current, name, wanted)
      ensures verdict == Keep ==> AsWanted(current, name, wanted) && (name in rows ==> AsRecorded(current, name))
      ensures verdict == Conflict ==> name !in rows || name !in current
      ensures verdict == Conflict || verdict == Drift ==> !AsRecorded(current, name) && (name in current || name in unowned)
    {
      if name !in current {
        return if name in unowned then Conflict else Add;
      }
      var live, expected := Fingerprint(env.kind, current[name]), Fingerprint(env.kind, wanted);
      if name !in rows {
        return if live == expected then Keep else Conflict;
      }
      if rows[name].fingerprint != Some(live) {
        return Drift;
      }
      return if live == expected then Keep else Update;
    }

    /** Sorts the desired names into what to write, what to leave and what to report. */
    method PlanDesired(desired: map<string, Entry>)
      returns (toAdd: map<string, Entry>, conflicts: set<string>, drift: set<string>)
      ensures toAdd == PlanFor(env, document, rows, desired).desired
      ensures conflicts == Named(env, document, rows, desired, desired.Keys, Conflict)
      ensures drift == Named(env, document, rows, desired, desired.Keys, Drift)
    {
      toAdd, conflicts, drift := map[], {}, {};
      var current, unowned := CurrentEntries(env, document), UnownedNames(env, document);
      ghost var verdicts := map name | name in desired :: Decide(env, document, rows, desired, name);
      var todo := desired.Keys;
      while todo != {}
        invariant todo <= desired.Keys
        invariant forall name :: name in toAdd <==> name in desired && name !in todo && verdicts[name] in {Add, Update}
        invariant forall name :: name in toAdd ==> toAdd[name] == desired[name]
        invariant forall name :: name in conflicts <==> name in desired && name !in todo && verdicts[name] == Conflict
        invariant forall name :: name in drift <==> name in desired && name !in todo && verdicts[name] == Drift
        decreases |todo|
      {
        var name :| name in todo;
        todo := todo - {name};
        var verdict := Classify(current, unowned, name, desired[name]);
        assert verdict == verdicts[name];
        match verdict {
          case Conflict => conflicts := conflicts + {name};
          case Drift => drift := drift + {name};
          case Add => toAdd := toAdd[name := desired[name]];
          case Update => toAdd := toAdd[name := desired[name]];
          case _ =>
        }
      }
    }

    /** Sorts the live names that are no longer desired. */
    method PlanObsolete(desired: map<string, Entry>) returns (obsolete: set<string>, drift: set<string>)
      ensures obsolete == PlanFor(env, document, rows, desired).obsolete
      ensures drift == Named(env, document, rows, desired, CurrentEntries(env, document).Keys - desired.Keys, Drift)
    {
      obsolete, drift := {}, {};
      var current := CurrentEntries(env, document);
      ghost var verdicts := map name | name in current && name !in desired :: DecideObsolete(env, current, rows, name);
      var todo := current.Keys;
      while todo != {}
        invariant todo <= current.Keys
        invariant forall name :: name in obsolete <==> name in verdicts && name !in todo && verdicts[name] == Remove
        invariant forall name :: name in drift <==> name in verdicts && name !in todo && verdicts[name] == Drift
        decreases |todo|
      {
        var name :| name in todo;
        todo := todo - {name};
        if name !in desired {
          if name !in rows || rows[name].fingerprint != Some(Fingerprint(env.kind, current[name])) {
            drift := drift + {name};
          } else {
            obsolete := obsolete + {name};
          }
        }
      }
      ObsoleteVerdicts(env, document, rows, desired, verdicts);
    }

    /** The bookkeeping of one name. */
    method RecordName(desired: map<string, Entry>, name: string, conflict: bool, drift: bool, removed: bool, ghost verdict: Verdict)
      requires conflict <==> name in desired && verdict == Conflict
      requires drift <==> verdict == Drift
      requires removed <==> name !in desired && verdict == Remove
      modifies this`rows
      ensures rows == match RowAfter(env, old(rows), desired, name, verdict)
                      case Some(row) => old(rows)[name := row]
                      case None => old(rows) - {name}
    {
      if name in desired {
        if conflict || drift {
          rows := rows[name := Row(if conflict then Errored else Drifted, if name in rows then rows[name].fingerprint else None)];
        } else {
          rows := rows[name := Row(Configured, Some(Fingerprint(env.kind, desired[name])))];
        }
      } else if removed {
        rows := rows - {name};
      } else if drift && name in rows {
        rows := rows[name := rows[name].(status := Drifted)];
      }
    }

    /** The bookkeeping row of each name that was looked at; `goal` is the rows there should be at the end. */
    method RecordNames(desired: map<string, Entry>, names: set<string>, conflicts: set<string>, drift: set<string>, obsolete: set<string>,
                       ghost verdicts: map<string, Verdict>, ghost goal: map<string, Row>)
      requires names <= verdicts.Keys
      requires forall name | name in names :: SetsShow(env, rows, desired, conflicts, drift, obsolete, name, verdicts[name], goal)
      requires forall name | name !in names :: SameRow(rows, goal, name)
      modifies this`rows
      ensures rows == goal
    {
      var todo := names;
      while todo != {}
        invariant todo <= names
        invariant forall name | name in todo :: SameRow(rows, old(rows), name)
        invariant forall name | name !in todo :: SameRow(rows, goal, name)
        decreases |todo|
      {
        var name :| name in todo;
        todo := todo - {name};
        RowDependsOnName(env, rows, old(rows), desired, name, verdicts[name]);
        assert SetsShow(env, old(rows), desired, conflicts, drift, obsolete, name, verdicts[name], goal);
        RecordName(desired, name, name in conflicts, name in drift, name in obsolete, verdicts[name]);
      }
      SameRowsSameMap(rows, goal);
    }

    method Record(desired: map<string, Entry>, conflicts: set<string>, drift: set<string>, obsolete: set<string>)
      requires conflicts == Named(env, document, rows, desired, desired.Keys, Conflict)
      requires drift == Named(env, document, rows, desired, desired.Keys, Drift)
                        + Named(env, document, rows, desired, CurrentEntries(env, document).Keys - desired.Keys, Drift)
      requires obsolete == PlanFor(env, document, rows, desired).obsolete
      modifies this`rows
      ensures rows == RowsAfter(env, document, old(rows), desired)
    {
      var names := desired.Keys + CurrentEntries(env, document).Keys;
      ghost var verdicts := map name | name in names :: Decide(env, document, rows, desired, name);
      ghost var goal := RowsAfter(env, document, rows, desired);
      RowsAreTouched(env, document, rows, desired);
      forall name | name in names
        ensures SetsShow(env, rows, desired, conflicts, drift, obsolete, name, verdicts[name], goal)
      {
        VerdictShows(env, document, rows, desired, name);
      }
      RecordNames(desired, names, conflicts, drift, obsolete, verdicts, goal);
    }

    /** `_reconcile_one_environment`; an unreadable document fails the whole environment closed. */
    method Reconcile(desired: map<string, Entry>) returns (outcome: Outcome)
      modifies this
      ensures old(document).Unreadable? ==>
                outcome == Failed && document == old(document) && rows == ErrorRows(old(rows))
      ensures !old(document).Unreadable? ==>
                && outcome.Reconciled?
                && document == DocumentAfter(env, old(document), old(rows), desired)
                && rows == RowsAfter(env, old(document), old(rows), desired)
                && outcome.conflicts == Named(env, old(document), old(rows), desired, desired.Keys, Conflict)
                && outcome.drift == Named(env, old(document), old(rows), desired, desired.Keys, Drift)
                     + Named(env, old(document), old(rows), desired, CurrentEntries(env, old(document)).Keys - desired.Keys, Drift)
    {
      if document.Unreadable? {
        rows := ErrorRows(rows);
        return Failed;
      }
      var toAdd, conflicts, drift := PlanDesired(desired);
      var obsolete, moreDrift := PlanObsolete(desired);
      Record(desired, conflicts, drift + moreDrift, obsolete);
      if toAdd != map[] || obsolete != {} {
        document := Applied(env.kind, document, Plan(toAdd, obsolete));
      }
      return Reconciled(conflicts, drift + moreDrift);
    }
  }
}
