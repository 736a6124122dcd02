/** The deferred tool catalog: paged in by the serialized loop while the peer's reader may invalidate it at any moment
    (deferred_tools.py, DeferredSession). */
module DeferredCatalog {
  import opened Common

  const LIBRARY_TOOL_NAME := "bridge_library"
  const MAX_CATALOG_BYTES := 4 * 1024 * 1024
  const MAX_TOOLS := 1000
  const MAX_PAGES := 64
  const MAX_NAME_CHARS := 256

  /** A tool of a page; `sound` covers its schemas and texts. */
  datatype Tool = Tool(name: string, sound: bool)

  /** A cursor's text, or what makes it unusable. */
  datatype NextCursor = LastPage | Cursor(text: string) | BadCursor

  datatype Page = Page(tools: seq<Tool>, size: nat, next: NextCursor)

  predicate GoodTool(t: Tool) {
    && 0 < |t.name| <= MAX_NAME_CHARS && (exists c | c in t.name :: c != ' ') && (forall c | c in t.name :: c as int >= 32)
    && t.name != LIBRARY_TOOL_NAME && t.sound
  }

  /** What a held catalog promises: good, distinct and bounded tools. */
  ghost predicate GoodCatalog(tools: seq<Tool>) {
    && |tools| <= MAX_TOOLS
    && (forall t | t in tools :: GoodTool(t))
    && (forall i, j | 0 <= i < j < |tools| :: tools[i].name != tools[j].name)
  }

  // ---------------------------------------------------------------- paging

  datatype Fetch = Fetch(tools: seq<Tool>, names: set<string>, cursors: set<string>, size: nat, pages: nat, done: bool)

  const NO_PAGES := Fetch([], {}, {}, 0, 0, false)

  function AddTools(f: Fetch, tools: seq<Tool>): Option<Fetch> {
    if tools == [] then Some(f)
    else
      match AddTools(f, tools[..|tools| - 1])
      case None => None
      case Some(g) =>
        var t := tools[|tools| - 1];
        if GoodTool(t) && t.name !in g.names then Some(g.(tools := g.tools + [t], names := g.names + {t.name})) else None
  }

  function AddCursor(f: Fetch, next: NextCursor): Option<Fetch> {
    match next
    case LastPage => Some(f.(pages := f.pages + 1, done := true))
    case BadCursor => None
    case Cursor(text) =>
      if text in f.cursors || f.pages + 1 >= MAX_PAGES then None
      else Some(f.(pages := f.pages + 1, cursors := f.cursors + {text}))
  }

  /** One turn of the paging loop; None is a fault. */
  function AddPage(f: Fetch, page: Page): Option<Fetch> {
    if f.size + page.size > MAX_CATALOG_BYTES || |f.tools| + |page.tools| > MAX_TOOLS then None
    else
      match AddTools(f.(size := f.size + page.size), page.tools)
      case None => None
      case Some(g) => AddCursor(g, page.next)
  }

  ghost predicate GoodFetch(f: Fetch) {
    && GoodCatalog(f.tools) && f.names == (set t | t in f.tools :: t.name)
    && f.size <= MAX_CATALOG_BYTES && f.pages <= MAX_PAGES && (!f.done ==> f.pages < MAX_PAGES && |f.cursors| == f.pages)
  }

  lemma AddOneKeepsGood(f: Fetch, t: Tool)
    requires GoodFetch(f) && |f.tools| < MAX_TOOLS && GoodTool(t) && t.name !in f.names
    ensures GoodFetch(f.(tools := f.tools + [t], names := f.names + {t.name}))
  {
    var tools := f.tools + [t];
    assert forall i | 0 <= i < |f.tools| :: tools[i] == f.tools[i] && f.tools[i] in f.tools && f.tools[i].name in f.names;
    assert f.names + {t.name} == (set u | u in tools :: u.name);
  }

  lemma {:induction false} AddToolsKeepsGood(f: Fetch, tools: seq<Tool>)
    requires GoodFetch(f) && |f.tools| + |tools| <= MAX_TOOLS && AddTools(f, tools).Some?
    ensures var g := AddTools(f, tools).value;
            GoodFetch(g) && g.tools == f.tools + tools && g == f.(tools := g.tools, names := g.names)
  {
    if tools == [] {
      assert f.tools + tools == f.tools;
    } else {
      var front, last := tools[..|tools| - 1], tools[|tools| - 1];
      AddToolsKeepsGood(f, front);
      AddOneKeepsGood(AddTools(f, front).value, last);
      assert f.tools + tools == (f.tools + front) + [last];
    }
  }

  /** Paging keeps the catalog good, returns the pages' tools in order, and stops within the page limit because every
      page but the last brings a new cursor. */
  lemma AddPageKeepsGood(f: Fetch, page: Page)
    requires GoodFetch(f) && !f.done && AddPage(f, page).Some?
    ensures var g := AddPage(f, page).value;
            GoodFetch(g) && g.tools == f.tools + page.tools && g.pages == f.pages + 1 && (g.done <==> page.next.LastPage?)
  {
    AddToolsKeepsGood(f.(size := f.size + page.size), page.tools);
  }

  /** The loop's own variables; one call is one page. */
  class CatalogPager {
    var tools: seq<Tool>
    var names: set<string>
    var cursors: set<string>
    var size: nat
    var pages: nat
    var done: bool

    function View(): Fetch
      reads this
    {
      Fetch(tools, names, cursors, size, pages, done)
    }

    constructor ()
      ensures View() == NO_PAGES
    {
      tools, names, cursors, size, pages, done := [], {}, {}, 0, 0, false;
    }

    method TakePage(page: Page) returns (ok: bool)
      modifies this
      ensures ok <==> AddPage(old(View()), page).Some?
      ensures ok ==> View() == AddPage(old(View()), page).value
    {
      ghost var start := View().(size := size + page.size);
      size := size + page.size;
      if size > MAX_CATALOG_BYTES || |tools| + |page.tools| > MAX_TOOLS {
        return false;
      }
      for i := 0 to |page.tools|
        invariant Some(View()) == AddTools(start, page.tools[..i])
        invariant cursors == old(cursors) && pages == old(pages)
      {
        var t := page.tools[i];
        assert page.tools[..i + 1][..i] == page.tools[..i];
        if !GoodTool(t) || t.name in names {
          FaultStays(start, page.tools, i + 1);
          return false;
        }
        names := names + {t.name};
        tools := tools + [t];
      }
      assert page.tools[..|page.tools|] == page.tools;
      match page.next {
        case LastPage => done := true;
        case BadCursor => return false;
        case Cursor(text) =>
          if text in cursors || pages + 1 >= MAX_PAGES {
            return false;
          }
          cursors := cursors + {text};
      }
      pages := pages + 1;
      return true;
    }
  }

  lemma {:induction false} FaultStays(f: Fetch, tools: seq<Tool>, i: nat)
    requires i <= |tools| && AddTools(f, tools[..i]).None?
    ensures AddTools(f, tools).None?
    decreases |tools|
  {
    if i == |tools| {
      assert tools[..i] == tools;
    } else {
      assert tools[..|tools| - 1][..i] == tools[..i];
      FaultStays(f, tools[..|tools| - 1], i);
    }
  }

  // ---------------------------------------------------------------- the session

  datatype Purpose = ToList | ToExpand | ToCall(name: string)

  /** What the serialized loop is doing: paging since a snapshot of the epoch, or holding the catalog it returned. */
  datatype Loop = Resting | Paging(purpose: Purpose, epoch: nat, fetch: Fetch) | Holding(purpose: Purpose, tools: seq<Tool>)

  datatype Session = Session(
    epoch: nat, catalog: Option<seq<Tool>>, expanded: bool, loop: Loop,
    /** When the held catalog, and the one being paged in, were first asked for, counted in invalidations so far. */
    invalidations: nat, askedAt: nat, pagingSince: nat,
    /** Calls sent downstream, each with the catalog it was checked against. */
    forwarded: seq<(string, seq<Tool>)>)

  const INITIAL := Session(0, None, false, Resting, 0, 0, 0, [])

  datatype Move =
    | Begin(purpose: Purpose)
    | Answer(page: Page)
    | Commit(peerClosed: bool)
    | GiveUp
    | Use
    | Collapse
    | Invalidate

  /** `_invalidate`; a collapse drops the catalog the same way. */
  function Invalidated(s: Session): Session {
    s.(epoch := s.epoch + 1, catalog := None, invalidations := s.invalidations + 1)
  }

  function Names(tools: seq<Tool>): set<string> {
    set t | t in tools :: t.name
  }

  function Next(s: Session, move: Move): Option<Session> {
    match move
    case Begin(purpose) =>
      if !s.loop.Resting? || (!purpose.ToExpand? && !s.expanded) || purpose == ToCall(LIBRARY_TOOL_NAME) then None
      else if s.catalog.Some? then Some(s.(loop := Holding(purpose, s.catalog.value)))
      else Some(s.(loop := Paging(purpose, s.epoch, NO_PAGES), pagingSince := s.invalidations))
    case Answer(page) =>
      if !s.loop.Paging? || s.loop.fetch.done then None
      else (
        match AddPage(s.loop.fetch, page)
        case None => Some(Invalidated(s).(loop := Resting))
        case Some(fetch) => Some(s.(loop := s.loop.(fetch := fetch))))
    case GiveUp => if s.loop.Paging? then Some(Invalidated(s).(loop := Resting)) else None
    case Commit(peerClosed) =>
      if !s.loop.Paging? || !s.loop.fetch.done then None
      else if s.epoch != s.loop.epoch || peerClosed then Some(Invalidated(s).(loop := Resting))
      else
        Some(s.(catalog := Some(s.loop.fetch.tools), loop := Holding(s.loop.purpose, s.loop.fetch.tools), askedAt := s.pagingSince))
    case Use =>
      if !s.loop.Holding? then None
      else (
        match s.loop.purpose
        case ToList => Some(s.(loop := Resting))
        case ToExpand => Some(s.(loop := Resting, expanded := s.expanded || s.catalog.Some?))
        case ToCall(name) =>
          if name in Names(s.loop.tools) then Some(s.(loop := Resting, forwarded := s.forwarded + [(name, s.loop.tools)]))
          else Some(s.(loop := Resting)))
    case Collapse => if s.loop.Resting? then Some(Invalidated(s).(expanded := false)) else None
    case Invalidate => Some(Invalidated(s))
  }

  /** The session after `moves`, if each was possible. */
  function Run(moves: seq<Move>): Option<Session> {
    if moves == [] then Some(INITIAL)
    else
      var earlier := Run(moves[..|moves| - 1]);
      if earlier.None? then None else Next(earlier.value, moves[|moves| - 1])
  }

  ghost predicate Inv(s: Session) {
    && s.epoch == s.invalidations
    && (s.catalog.Some? ==> GoodCatalog(s.catalog.value) && s.askedAt == s.invalidations)
    && (s.loop.Paging? ==> GoodFetch(s.loop.fetch) && s.loop.epoch == s.pagingSince)
    && (s.loop.Holding? ==> GoodCatalog(s.loop.tools))
    && (s.loop.Paging? || s.loop.Holding? ==> s.loop.purpose.ToExpand? || s.expanded)
    && (forall call | call in s.forwarded :: GoodCatalog(call.1) && call.0 in Names(call.1))
  }

  lemma NextKeepsInv(s: Session, move: Move)
    requires Inv(s) && Next(s, move).Some?
    ensures Inv(Next(s, move).value)
    ensures Next(s, move).value.forwarded != s.forwarded ==> s.expanded
  {
    if move.Answer? && AddPage(s.loop.fetch, move.page).Some? {
      AddPageKeepsGood(s.loop.fetch, move.page);
    }
  }

  lemma {:induction false} RunKeepsInv(moves: seq<Move>)
    requires Run(moves).Some?
    ensures Inv(Run(moves).value)
  {
    if moves != [] {
      RunKeepsInv(moves[..|moves| - 1]);
      NextKeepsInv(Run(moves[..|moves| - 1]).value, moves[|moves| - 1]);
    }
  }

  /** At this point of the run the session holds this catalog, and nothing was invalidated since its first page was
      asked for. */
  ghost predicate CurrentAt(moves: seq<Move>, i: nat, tools: seq<Tool>)
    requires i <= |moves|
  {
    Run(moves[..i]).Some? && Run(moves[..i]).value.catalog == Some(tools)
    && Run(moves[..i]).value.askedAt == Run(moves[..i]).value.invalidations
  }

  /** From this point on the serialized loop has been working on one request with one copy of the catalog. */
  ghost predicate WorksOn(moves: seq<Move>, i: nat, loop: Loop)
    requires i <= |moves|
  {
    forall k: nat | i <= k <= |moves| :: Run(moves[..k]).Some? && Run(moves[..k]).value.loop == loop
  }

  /** The copy of the catalog a request works on was the session's, and current, when the request took it. */
  lemma {:induction false} TakenWasCurrent(moves: seq<Move>) returns (i: nat)
    requires Run(moves).Some? && Run(moves).value.loop.Holding?
    ensures i <= |moves| && CurrentAt(moves, i, Run(moves).value.loop.tools) && WorksOn(moves, i, Run(moves).value.loop)
  {
    RunKeepsInv(moves);
    assert moves[..|moves|] == moves;
    var front, last := moves[..|moves| - 1], moves[|moves| - 1];
    if last.Begin? || last.Commit? {
      i := |moves|;
    } else {
      i := TakenWasCurrent(front);
      assert moves[..i] == front[..i];
      forall k: nat | i <= k <= |moves|
        ensures Run(moves[..k]).Some? && Run(moves[..k]).value.loop == Run(moves).value.loop
      {
        assert k < |moves| ==> moves[..k] == front[..k];
      }
    }
  }

  /** A move of the run that sent this call downstream, checked against this catalog. */
  ghost predicate ForwardsAt(moves: seq<Move>, j: nat, call: (string, seq<Tool>))
    requires j < |moves|
  {
    && moves[j].Use? && Run(moves[..j]).Some?
    && Run(moves[..j]).value.loop == Holding(ToCall(call.0), call.1) && Run(moves[..j]).value.expanded
    && call.0 in Names(call.1)
  }

  lemma {:induction false} ForwardedByAMove(moves: seq<Move>, call: (string, seq<Tool>)) returns (j: nat)
    requires Run(moves).Some? && call in Run(moves).value.forwarded
    ensures j < |moves| && ForwardsAt(moves, j, call)
  {
    var front := moves[..|moves| - 1];
    RunKeepsInv(front);
    if call in Run(front).value.forwarded {
      j := ForwardedByAMove(front, call);
      assert moves[..j] == front[..j];
    } else {
      j := |moves| - 1;
    }
  }

  /** Whenever the session holds a catalog, no invalidation has happened since its first page was asked for; its names
      are distinct, bounded and never the library's. */
  lemma HeldCatalogIsCurrent(moves: seq<Move>)
    requires Run(moves).Some?
    ensures var s := Run(moves).value;
            s.catalog.Some? ==> s.askedAt == s.invalidations && GoodCatalog(s.catalog.value)
  {
    RunKeepsInv(moves);
  }

  /** Every call forwarded downstream was forwarded while the session was expanded, on behalf of a request that had taken
      a copy of the catalog when that was held and current, and its name was in that catalog. */
  lemma ForwardedCallsWereInACurrentCatalog(moves: seq<Move>, call: (string, seq<Tool>)) returns (i: nat, j: nat)
    requires Run(moves).Some? && call in Run(moves).value.forwarded
    ensures i <= j < |moves| && CurrentAt(moves, i, call.1) && WorksOn(moves[..j], i, Holding(ToCall(call.0), call.1))
    ensures ForwardsAt(moves, j, call) && GoodCatalog(call.1) && call.0 != LIBRARY_TOOL_NAME
  {
    j := ForwardedByAMove(moves, call);
    i := TakenWasCurrent(moves[..j]);
    assert moves[..j][..i] == moves[..i];
    RunKeepsInv(moves);
    var t :| t in call.1 && t.name == call.0;
  }
}
