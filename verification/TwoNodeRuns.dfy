/** Two nodes on one stream: every run of chunked sends and receipts of both byte directions. */
module TwoNodeRuns {
  import opened Common
  import opened MessageClass
  import opened LineFraming
  import opened StreamCorrelation
  import opened CorrelatorSafety

  /** Node `node` feeds its correlator one chunk of the bytes sent by side `origin`. */
  datatype Step = Step(node: Side, origin: Side, data: Bytes)

  function Fed(run: seq<Step>, node: Side, origin: Side): Bytes {
    if run == [] then []
    else
      var last := run[|run| - 1];
      Fed(run[..|run| - 1], node, origin) + if last.node == node && last.origin == origin then last.data else []
  }

  /** At every moment the receiver has seen a prefix of what the sender sent, in chunks of its own. */
  ghost predicate Causal(run: seq<Step>) {
    run == []
    || (Causal(run[..|run| - 1]) && forall origin :: Fed(run, PeerSide(origin), origin) <= Fed(run, origin, origin))
  }

  /** The line history of one node's correlator. */
  function HistoryOf(decode: Decoder, run: seq<Step>, node: Side): seq<Event> {
    if run == [] then []
    else
      var front, last := run[..|run| - 1], run[|run| - 1];
      HistoryOf(decode, front, node)
      + if last.node == node then EventsOf(decode, last.origin, Lines(Tail(Fed(front, node, last.origin)) + last.data))
        else []
  }

  /** What the correlator of a node has been fed and has made of it. */
  ghost predicate Replayed(correlator: StreamCorrelator, decode: Decoder, run: seq<Step>, node: Side)
    reads correlator.Repr
  {
    && correlator.Valid() && correlator.side == node && correlator.inbound.decode == decode
    && correlator.history == HistoryOf(decode, run, node)
    && correlator.outbound.history == Fed(run, node, node)
    && correlator.inbound.history == Fed(run, node, PeerSide(node))
  }

  /** And `rows` are all rows it has journalled. */
  ghost predicate Journalled(correlator: StreamCorrelator, decode: Decoder, run: seq<Step>, node: Side, streamId: string, rows: seq<Observation>)
    reads correlator.Repr
  {
    && Replayed(correlator, decode, run, node)
    && rows == Rows(HistoryOf(decode, run, node), node, streamId, correlator.inbound.maxMessageBytes, correlator.maxTrackedRequestIds)
  }

  method ReplayStep(correlator: StreamCorrelator, ghost decode: Decoder, ghost run: seq<Step>, step: Step, streamId: string, rows: seq<Observation>)
    returns (more: seq<Observation>)
    requires Journalled(correlator, decode, run, correlator.side, streamId, rows)
    modifies correlator.Repr
    ensures Journalled(correlator, decode, run + [step], correlator.side, streamId, rows + more)
  {
    assert (run + [step])[..|run|] == run;
    if step.node == correlator.side {
      var flow := if step.origin == correlator.side then Outbound else Inbound;
      more := correlator.Feed(streamId, flow, step.data);
    } else {
      more := [];
      assert HistoryOf(decode, run, correlator.side) + [] == HistoryOf(decode, run, correlator.side);
      assert rows + more == rows;
    }
  }

  method StartReplay(decode: Decoder, node: Side, streamId: string, maxMessageBytes: int, maxTracked: int) returns (correlator: StreamCorrelator)
    ensures fresh(correlator.Repr) && correlator.side == node && Journalled(correlator, decode, [], node, streamId, [])
  {
    correlator := new StreamCorrelator(node, decode, maxMessageBytes, maxTracked);
  }

  /** A correlator fed the chunks of a run journals exactly the rows of that history. */
  method Replay(decode: Decoder, run: seq<Step>, node: Side, streamId: string, maxMessageBytes: int, maxTracked: int)
    returns (correlator: StreamCorrelator, rows: seq<Observation>)
    ensures Journalled(correlator, decode, run, node, streamId, rows)
  {
    correlator := StartReplay(decode, node, streamId, maxMessageBytes, maxTracked);
    rows := [];
    assert run[..0] == [];
    for i := 0 to |run|
      invariant fresh(correlator.Repr) && correlator.side == node
      invariant Journalled(correlator, decode, run[..i], node, streamId, rows)
    {
      assert run[..i + 1] == run[..i] + [run[i]];
      var more := ReplayStep(correlator, decode, run[..i], run[i], streamId, rows);
      rows := rows + more;
    }
    assert run[..|run|] == run;
  }

  // ---------------------------------------------------------------- one origin's lines within a history

  function Sent(history: seq<Event>, origin: Side): seq<WireLine> {
    if history == [] then []
    else
      var last := history[|history| - 1];
      Sent(history[..|history| - 1], origin) + if last.origin == origin then [last.line] else []
  }

  function Wires(decode: Decoder, lines: seq<Bytes>): (r: seq<WireLine>)
    ensures |r| == |lines| && forall k :: 0 <= k < |lines| ==> r[k] == Wire(decode, lines[k])
  {
    seq(|lines|, k requires 0 <= k < |lines| => Wire(decode, lines[k]))
  }

  function RequestsIn(lines: seq<WireLine>, id: string): nat {
    if lines == [] then 0
    else RequestsIn(lines[..|lines| - 1], id) + if IsRequest(lines[|lines| - 1], id) then 1 else 0
  }

  function ResponsesIn(lines: seq<WireLine>, id: string): nat {
    if lines == [] then 0
    else ResponsesIn(lines[..|lines| - 1], id) + if IsResponse(lines[|lines| - 1], id) then 1 else 0
  }

  lemma SentSnoc(history: seq<Event>, e: Event, origin: Side)
    ensures Sent(history + [e], origin) == if e.origin == origin then Sent(history, origin) + [e.line] else Sent(history, origin)
  {
    assert (history + [e])[..|history|] == history;
    assert Sent(history, origin) + [] == Sent(history, origin);
  }

  lemma CountSnoc(lines: seq<WireLine>, line: WireLine, id: string)
    ensures RequestsIn(lines + [line], id) == RequestsIn(lines, id) + if IsRequest(line, id) then 1 else 0
    ensures ResponsesIn(lines + [line], id) == ResponsesIn(lines, id) + if IsResponse(line, id) then 1 else 0
  {
    assert (lines + [line])[..|lines|] == lines;
  }

  lemma {:induction false} RequestsDependOnSent(history: seq<Event>, direction: Side, id: string)
    ensures Requests(history, direction, id) == RequestsIn(Sent(history, direction), id)
  {
    if history != [] {
      var front, last := history[..|history| - 1], history[|history| - 1];
      assert front + [last] == history;
      RequestsDependOnSent(front, direction, id);
      RequestsSnoc(front, last, direction, id);
      SentSnoc(front, last, direction);
      CountSnoc(Sent(front, direction), last.line, id);
    }
  }

  lemma {:induction false} ResponsesDependOnSent(history: seq<Event>, direction: Side, id: string)
    ensures Responses(history, direction, id) == ResponsesIn(Sent(history, PeerSide(direction)), id)
  {
    if history != [] {
      var front, last := history[..|history| - 1], history[|history| - 1];
      assert front + [last] == history;
      ResponsesDependOnSent(front, direction, id);
      RequestsSnoc(front, last, direction, id);
      SentSnoc(front, last, PeerSide(direction));
      CountSnoc(Sent(front, PeerSide(direction)), last.line, id);
    }
  }

  lemma CountsDependOnSent(history: seq<Event>, direction: Side, id: string)
    ensures Requests(history, direction, id) == RequestsIn(Sent(history, direction), id)
    ensures Responses(history, direction, id) == ResponsesIn(Sent(history, PeerSide(direction)), id)
  {
    RequestsDependOnSent(history, direction, id);
    ResponsesDependOnSent(history, direction, id);
  }

  lemma {:induction false} CountsGrow(shorter: seq<WireLine>, longer: seq<WireLine>, id: string)
    requires shorter <= longer
    ensures RequestsIn(shorter, id) <= RequestsIn(longer, id)
    ensures ResponsesIn(shorter, id) <= ResponsesIn(longer, id)
  {
    if shorter != longer {
      CountsGrow(shorter, longer[..|longer| - 1], id);
    }
  }

  lemma {:induction false} SentAppend(xs: seq<Event>, ys: seq<Event>, origin: Side)
    ensures Sent(xs + ys, origin) == Sent(xs, origin) + Sent(ys, origin)
  {
    if ys == [] {
      assert xs + ys == xs;
    } else {
      assert (xs + ys)[..|xs + ys| - 1] == xs + ys[..|ys| - 1];
      SentAppend(xs, ys[..|ys| - 1], origin);
    }
  }

  lemma {:induction false} SentOfEvents(decode: Decoder, origin: Side, lines: seq<Bytes>, other: Side)
    ensures Sent(EventsOf(decode, origin, lines), other) == if other == origin then Wires(decode, lines) else []
  {
    if lines != [] {
      var front := lines[..|lines| - 1];
      SentOfEvents(decode, origin, front, other);
      var events := EventsOf(decode, origin, lines);
      assert events[..|events| - 1] == EventsOf(decode, origin, front);
    }
  }

  lemma {:induction false} WiresAppend(decode: Decoder, xs: seq<Bytes>, ys: seq<Bytes>)
    ensures Wires(decode, xs + ys) == Wires(decode, xs) + Wires(decode, ys)
  {
  }

  /** Feeding one origin's bytes adds that origin's new lines and nothing of the other's. */
  lemma SentGrows(decode: Decoder, history: seq<Event>, fed: Bytes, data: Bytes, origin: Side)
    requires Sent(history, origin) == Wires(decode, Lines(fed))
    ensures Sent(history + EventsOf(decode, origin, Lines(Tail(fed) + data)), origin) == Wires(decode, Lines(fed + data))
  {
    var lines := Lines(Tail(fed) + data);
    SentAppend(history, EventsOf(decode, origin, lines), origin);
    SentOfEvents(decode, origin, lines, origin);
    LinesExtend(fed, data);
    WiresAppend(decode, Lines(fed), lines);
  }

  lemma SentStays(decode: Decoder, history: seq<Event>, lines: seq<Bytes>, origin: Side, other: Side)
    requires other != origin
    ensures Sent(history + EventsOf(decode, origin, lines), other) == Sent(history, other)
  {
    SentAppend(history, EventsOf(decode, origin, lines), other);
    SentOfEvents(decode, origin, lines, other);
    assert Sent(history, other) + [] == Sent(history, other);
  }

  /** A node's history holds, per origin, exactly the complete lines among the bytes it was fed. */
  lemma {:induction false} SentIsTheLinesFed(decode: Decoder, run: seq<Step>, node: Side, origin: Side)
    ensures Sent(HistoryOf(decode, run, node), origin) == Wires(decode, Lines(Fed(run, node, origin)))
  {
    if run != [] {
      var front, last := run[..|run| - 1], run[|run| - 1];
      SentIsTheLinesFed(decode, front, node, origin);
      if last.node == node && last.origin == origin {
        SentGrows(decode, HistoryOf(decode, front, node), Fed(front, node, origin), last.data, origin);
      } else if last.node == node {
        SentStays(decode, HistoryOf(decode, front, node), Lines(Tail(Fed(front, node, last.origin)) + last.data), last.origin, origin);
        assert Fed(front, node, origin) + [] == Fed(front, node, origin);
      } else {
        assert Fed(front, node, origin) + [] == Fed(front, node, origin);
        assert HistoryOf(decode, front, node) + [] == HistoryOf(decode, front, node);
      }
    }
  }

  lemma WiresOfPrefix(decode: Decoder, s: Bytes, t: Bytes)
    requires s <= t
    ensures Wires(decode, Lines(s)) <= Wires(decode, Lines(t))
  {
    LinesExtend(s, t[|s|..]);
    assert s + t[|s|..] == t;
  }

  lemma {:induction false} HistoryIsWellFormed(decode: Decoder, run: seq<Step>, node: Side)
    ensures WellFormed(HistoryOf(decode, run, node))
  {
    if run != [] {
      var front, last := run[..|run| - 1], run[|run| - 1];
      HistoryIsWellFormed(decode, front, node);
      EventsAreWellFormed(decode, last.origin, Lines(Tail(Fed(front, node, last.origin)) + last.data));
    }
  }

  lemma {:induction false} SentOfPrefix(history: seq<Event>, n: nat, origin: Side)
    requires n <= |history|
    ensures Sent(history[..n], origin) <= Sent(history, origin)
    ensures n < |history| && history[n].origin == origin ==>
              |Sent(history[..n], origin)| < |Sent(history, origin)|
              && Sent(history, origin)[|Sent(history[..n], origin)|] == history[n].line
  {
    assert history[..n] + history[n..] == history;
    SentAppend(history[..n], history[n..], origin);
    if n < |history| {
      assert history[n..] == [history[n]] + history[n + 1..];
      SentAppend([history[n]], history[n + 1..], origin);
      assert [history[n]][..0] == [];
    }
  }

  /** The position of the k-th line from `origin`. */
  lemma {:induction false} Locate(history: seq<Event>, origin: Side, k: nat) returns (p: nat)
    requires k < |Sent(history, origin)|
    ensures p < |history| && history[p] == Event(origin, Sent(history, origin)[k])
    ensures Sent(history[..p], origin) == Sent(history, origin)[..k]
  {
    var front, last := history[..|history| - 1], history[|history| - 1];
    if k < |Sent(front, origin)| {
      p := Locate(front, origin, k);
      assert front[..p] == history[..p];
    } else {
      p := |history| - 1;
    }
  }

  lemma HistoryOfFront(decode: Decoder, run: seq<Step>, node: Side)
    requires run != []
    ensures HistoryOf(decode, run[..|run| - 1], node) <= HistoryOf(decode, run, node)
    ensures run[|run| - 1].node != node ==> HistoryOf(decode, run, node) == HistoryOf(decode, run[..|run| - 1], node)
  {
  }

  lemma PrefixOfLonger<T>(shorter: seq<T>, longer: seq<T>, n: nat)
    requires shorter <= longer && n < |shorter|
    ensures longer[n] == shorter[n] && longer[..n] == shorter[..n]
  {
  }

  /** A line is received after it was sent: when the receiver sees it, the receiver had sent at least
      what the sender had received when it sent the line. */
  lemma {:induction false} Precedence(decode: Decoder, run: seq<Step>, origin: Side, q: nat) returns (p: nat)
    requires Causal(run) && q < |HistoryOf(decode, run, PeerSide(origin))|
    requires HistoryOf(decode, run, PeerSide(origin))[q].origin == origin
    ensures var sender, receiver := HistoryOf(decode, run, origin), HistoryOf(decode, run, PeerSide(origin));
            && p < |sender| && sender[p] == receiver[q]
            && Sent(sender[..p], origin) == Sent(receiver[..q], origin)
            && Sent(sender[..p], PeerSide(origin)) <= Sent(receiver[..q], PeerSide(origin))
    decreases run
  {
    var peer := PeerSide(origin);
    var front, last := run[..|run| - 1], run[|run| - 1];
    var sender, receiver := HistoryOf(decode, run, origin), HistoryOf(decode, run, peer);
    var receiverBefore := HistoryOf(decode, front, peer);
    HistoryOfFront(decode, run, origin);
    HistoryOfFront(decode, run, peer);
    if q < |receiverBefore| {
      PrefixOfLonger(receiverBefore, receiver, q);
      p := Precedence(decode, front, origin, q);
      PrefixOfLonger(HistoryOf(decode, front, origin), sender, p);
    } else {
      p := FreshLine(decode, run, origin, q);
    }
  }

  lemma FreshLine(decode: Decoder, run: seq<Step>, origin: Side, q: nat) returns (p: nat)
    requires run != [] && Causal(run)
    requires |HistoryOf(decode, run[..|run| - 1], PeerSide(origin))| <= q < |HistoryOf(decode, run, PeerSide(origin))|
    requires HistoryOf(decode, run, PeerSide(origin))[q].origin == origin
    ensures var sender, receiver := HistoryOf(decode, run, origin), HistoryOf(decode, run, PeerSide(origin));
            && p < |sender| && sender[p] == receiver[q]
            && Sent(sender[..p], origin) == Sent(receiver[..q], origin)
            && Sent(sender[..p], PeerSide(origin)) <= Sent(receiver[..q], PeerSide(origin))
  {
    var peer := PeerSide(origin);
    var front, last := run[..|run| - 1], run[|run| - 1];
    var sender, receiver := HistoryOf(decode, run, origin), HistoryOf(decode, run, peer);
    var before := HistoryOf(decode, front, peer);
    assert last.node == peer && last.origin == origin;
    SentIsTheLinesFed(decode, run, origin, origin);
    SentIsTheLinesFed(decode, run, peer, origin);
    WiresOfPrefix(decode, Fed(run, peer, origin), Fed(run, origin, origin));
    SentOfPrefix(receiver, q, origin);
    p := Locate(sender, origin, |Sent(receiver[..q], origin)|);
    assert Sent(receiver[..q], origin) == Sent(sender, origin)[..|Sent(receiver[..q], origin)|];
    SentIsTheLinesFed(decode, run, origin, peer);
    SentIsTheLinesFed(decode, run, peer, peer);
    WiresOfPrefix(decode, Fed(run, origin, peer), Fed(run, peer, peer));
    SentOfPrefix(sender, p, peer);
    NothingElseEntered(decode, run, origin, q);
  }

  /** A step that feeds `origin`'s bytes adds nothing from the other side. */
  lemma NothingElseEntered(decode: Decoder, run: seq<Step>, origin: Side, q: nat)
    requires run != [] && run[|run| - 1].node == PeerSide(origin) && run[|run| - 1].origin == origin
    requires |HistoryOf(decode, run[..|run| - 1], PeerSide(origin))| <= q < |HistoryOf(decode, run, PeerSide(origin))|
    ensures var receiver := HistoryOf(decode, run, PeerSide(origin));
            Sent(receiver[..q], PeerSide(origin)) == Sent(receiver, PeerSide(origin))
  {
    var peer := PeerSide(origin);
    var front, last := run[..|run| - 1], run[|run| - 1];
    var lines := Lines(Tail(Fed(front, peer, origin)) + last.data);
    SentOfEvents(decode, origin, lines, peer);
    QuietSuffix(HistoryOf(decode, front, peer), EventsOf(decode, origin, lines), q, peer);
  }

  lemma QuietSuffix(before: seq<Event>, news: seq<Event>, q: nat, origin: Side)
    requires |before| <= q <= |before + news| && Sent(news, origin) == []
    ensures Sent((before + news)[..q], origin) == Sent(before + news, origin)
  {
    var n := q - |before|;
    assert (before + news)[..q] == before + news[..n];
    SentAppend(before, news, origin);
    SentAppend(before, news[..n], origin);
    SentOfPrefix(news, n, origin);
  }
}
