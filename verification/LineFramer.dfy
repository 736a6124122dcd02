/** Bounded incremental line framer (stream_evidence.py, LineFramer) and its reference:
    cut the whole byte stream at every newline, drop the lines over the bound. */
module LineFraming {
  import opened Common
  import opened MessageClass

  const NEWLINE: byte := 10
  const CARRIAGE_RETURN: byte := 13

  // ---------------------------------------------------------------- reference

  /** Index of the first newline at or after `from`, or -1. */
  function Find(s: Bytes, from: nat): (r: int)
    requires from <= |s|
    ensures r == -1 ==> forall k :: from <= k < |s| ==> s[k] != NEWLINE
    ensures r != -1 ==> from <= r < |s| && s[r] == NEWLINE && forall k :: from <= k < r ==> s[k] != NEWLINE
    decreases |s| - from
  {
    if from == |s| then -1
    else if s[from] == NEWLINE then from
    else Find(s, from + 1)
  }

  /** The complete lines of `s`, without their newlines. */
  function Lines(s: Bytes): seq<Bytes> {
    if s == [] then []
    else
      var front := s[..|s| - 1];
      if s[|s| - 1] == NEWLINE then Lines(front) + [Tail(front)] else Lines(front)
  }

  /** What follows the last newline of `s`. */
  function Tail(s: Bytes): Bytes {
    if s == [] || s[|s| - 1] == NEWLINE then [] else Tail(s[..|s| - 1]) + [s[|s| - 1]]
  }

  function Join(lines: seq<Bytes>): Bytes {
    if lines == [] then [] else Join(lines[..|lines| - 1]) + lines[|lines| - 1] + [NEWLINE]
  }

  function StripCR(line: Bytes): (r: Bytes)
    ensures |r| <= |line| && r == line[..|r|]
    ensures r != [] ==> r[|r| - 1] != CARRIAGE_RETURN
    ensures forall k :: |r| <= k < |line| ==> line[k] == CARRIAGE_RETURN
  {
    if |line| > 0 && line[|line| - 1] == CARRIAGE_RETURN then StripCR(line[..|line| - 1]) else line
  }

  /** A completed message or a framing loss, in byte order. */
  datatype Item = Message(message: CompletedMessage) | FramingLoss(bytes: nat)

  function LineItems(decode: Decoder, bound: nat, line: Bytes): seq<Item> {
    if |line| > bound then [FramingLoss(|line|)]
    else
      var body := StripCR(line);
      if body == [] then [] else [Message(Classify(decode(body), |body|))]
  }

  function Items(decode: Decoder, bound: nat, lines: seq<Bytes>): seq<Item> {
    if lines == [] then []
    else Items(decode, bound, lines[..|lines| - 1]) + LineItems(decode, bound, lines[|lines| - 1])
  }

  /** Number and total size of the lines over the bound. */
  function LostLines(bound: nat, lines: seq<Bytes>): nat {
    if lines == [] then 0
    else LostLines(bound, lines[..|lines| - 1]) + if |lines[|lines| - 1]| > bound then 1 else 0
  }

  function LostBytes(bound: nat, lines: seq<Bytes>): nat {
    if lines == [] then 0
    else
      var last := lines[|lines| - 1];
      LostBytes(bound, lines[..|lines| - 1]) + if |last| > bound then |last| else 0
  }

  // ---------------------------------------------------------------- lemmas about the reference

  predicate NoNewline(s: Bytes) {
    forall k :: 0 <= k < |s| ==> s[k] != NEWLINE
  }

  lemma {:induction false} AppendWithoutNewline(s: Bytes, body: Bytes)
    requires NoNewline(body)
    ensures Lines(s + body) == Lines(s)
    ensures Tail(s + body) == Tail(s) + body
  {
    if body == [] {
      assert s + body == s;
    } else {
      var front := body[..|body| - 1];
      AppendWithoutNewline(s, front);
      assert (s + body)[..|s + body| - 1] == s + front;
      assert Tail(s) + front + [body[|body| - 1]] == Tail(s) + body;
    }
  }

  lemma AppendNewline(s: Bytes)
    ensures Lines(s + [NEWLINE]) == Lines(s) + [Tail(s)]
    ensures Tail(s + [NEWLINE]) == []
  {
    assert (s + [NEWLINE])[..|s|] == s;
  }

  lemma {:induction false} LinesExtend(s: Bytes, t: Bytes)
    ensures Lines(s + t) == Lines(s) + Lines(Tail(s) + t)
    ensures Tail(s + t) == Tail(Tail(s) + t)
  {
    if t == [] {
      TailIsUnterminated(s);
      AppendWithoutNewline([], Tail(s));
      assert s + t == s && Tail(s) + t == Tail(s) && [] + Tail(s) == Tail(s);
    } else {
      var front, last := t[..|t| - 1], t[|t| - 1];
      LinesExtend(s, front);
      assert (s + t)[..|s + t| - 1] == s + front;
      assert (Tail(s) + t)[..|Tail(s) + t| - 1] == Tail(s) + front;
      if last == NEWLINE {
        assert Lines(s) + Lines(Tail(s) + front) + [Tail(s + front)]
            == Lines(s) + (Lines(Tail(s) + front) + [Tail(s + front)]);
      }
    }
  }

  lemma {:induction false} TailIsUnterminated(s: Bytes)
    ensures NoNewline(Tail(s))
  {
    if s != [] && s[|s| - 1] != NEWLINE {
      TailIsUnterminated(s[..|s| - 1]);
    }
  }

  lemma NothingNew(s: Bytes)
    ensures s + [] == s && Lines(Tail(s) + []) == []
  {
    TailIsUnterminated(s);
    AppendWithoutNewline([], Tail(s));
    assert [] + Tail(s) == Tail(s) + [];
  }

  /** `Lines` and `Tail` are the only way to cut a stream at its newlines. */
  lemma {:induction false} SplitIsUnique(s: Bytes, lines: seq<Bytes>, tail: Bytes)
    requires NoNewline(tail) && forall k :: 0 <= k < |lines| ==> NoNewline(lines[k])
    ensures s == Join(lines) + tail <==> lines == Lines(s) && tail == Tail(s)
  {
    if s == Join(lines) + tail {
      LinesOfJoin(lines);
      AppendWithoutNewline(Join(lines), tail);
    }
    JoinOfLines(s);
  }

  lemma {:induction false} LinesOfJoin(lines: seq<Bytes>)
    requires forall k :: 0 <= k < |lines| ==> NoNewline(lines[k])
    ensures Lines(Join(lines)) == lines && Tail(Join(lines)) == []
  {
    if lines != [] {
      var front, last := lines[..|lines| - 1], lines[|lines| - 1];
      LinesOfJoin(front);
      AppendWithoutNewline(Join(front), last);
      AppendNewline(Join(front) + last);
      assert [] + last == last && front + [last] == lines;
    }
  }

  lemma {:induction false} JoinOfLines(s: Bytes)
    ensures Join(Lines(s)) + Tail(s) == s
  {
    if s != [] {
      var front, last := s[..|s| - 1], s[|s| - 1];
      var lines, tail := Lines(front), Tail(front);
      JoinOfLines(front);
      assert s == front + [last];
      if last == NEWLINE {
        JoinSnoc(lines, tail);
        assert Join(Lines(s)) == front + [last];
        assert front + [last] + [] == front + [last];
      } else {
        assert Lines(s) == lines && Tail(s) == tail + [last];
        Associative(Join(lines), tail, [last]);
      }
    }
  }

  lemma Associative(x: Bytes, y: Bytes, z: Bytes)
    ensures x + (y + z) == (x + y) + z
  {
  }

  lemma JoinSnoc(lines: seq<Bytes>, line: Bytes)
    ensures Join(lines + [line]) == Join(lines) + line + [NEWLINE]
  {
    assert (lines + [line])[..|lines|] == lines;
  }

  lemma {:induction false} ItemsAppend(decode: Decoder, bound: nat, xs: seq<Bytes>, ys: seq<Bytes>)
    ensures Items(decode, bound, xs + ys) == Items(decode, bound, xs) + Items(decode, bound, ys)
  {
    if ys == [] {
      assert xs + ys == xs;
    } else {
      var front := ys[..|ys| - 1];
      assert (xs + ys)[..|xs + ys| - 1] == xs + front;
      ItemsAppend(decode, bound, xs, front);
    }
  }

  lemma CutSegment(s: Bytes, data: Bytes, from: nat, to: nat)
    requires from <= to < |data| && data[to] == NEWLINE
    ensures s + data[from..] == s + data[from..to] + [NEWLINE] + data[to + 1..]
  {
  }

  function Appended<T>(ghost first: seq<T>, xs: seq<T>, ys: seq<T>): (r: seq<T>)
    ensures r == xs + ys && first + r == (first + xs) + ys
  {
    assert first + (xs + ys) == (first + xs) + ys;
    xs + ys
  }

  lemma NewItems(decode: Decoder, bound: nat, s: Bytes, t: Bytes, emitted: seq<Item>)
    requires Items(decode, bound, Lines(s + t)) == Items(decode, bound, Lines(s)) + emitted
    ensures emitted == Items(decode, bound, Lines(Tail(s) + t))
  {
    LinesExtend(s, t);
    var earlier, later := Items(decode, bound, Lines(s)), Items(decode, bound, Lines(Tail(s) + t));
    ItemsAppend(decode, bound, Lines(s), Lines(Tail(s) + t));
    assert emitted == (earlier + emitted)[|earlier|..] && later == (earlier + later)[|earlier|..];
  }

  lemma ItemsSnoc(decode: Decoder, bound: nat, lines: seq<Bytes>, line: Bytes)
    ensures Items(decode, bound, lines + [line]) == Items(decode, bound, lines) + LineItems(decode, bound, line)
    ensures LostLines(bound, lines + [line]) == LostLines(bound, lines) + if |line| > bound then 1 else 0
    ensures LostBytes(bound, lines + [line]) == LostBytes(bound, lines) + if |line| > bound then |line| else 0
  {
    assert (lines + [line])[..|lines|] == lines;
  }

  /** One more terminated segment completes exactly one more line. */
  lemma AppendLine(decode: Decoder, bound: nat, s: Bytes, body: Bytes)
    requires NoNewline(body)
    ensures var line := Tail(s) + body;
            var t := s + body + [NEWLINE];
            && Lines(t) == Lines(s) + [line]
            && Tail(t) == []
            && Items(decode, bound, Lines(t)) == Items(decode, bound, Lines(s)) + LineItems(decode, bound, line)
            && LostLines(bound, Lines(t)) == LostLines(bound, Lines(s)) + (if |line| > bound then 1 else 0)
            && LostBytes(bound, Lines(t)) == LostBytes(bound, Lines(s)) + (if |line| > bound then |line| else 0)
  {
    AppendWithoutNewline(s, body);
    AppendNewline(s + body);
    ItemsSnoc(decode, bound, Lines(s), Tail(s) + body);
  }

  // ---------------------------------------------------------------- accounting

  function MessageBytes(items: seq<Item>): nat {
    if items == [] then 0
    else
      var last := items[|items| - 1];
      MessageBytes(items[..|items| - 1]) + if last.Message? then last.message.messageBytes else 0
  }

  function StrippedBytes(bound: nat, lines: seq<Bytes>): nat {
    if lines == [] then 0
    else
      var last := lines[|lines| - 1];
      StrippedBytes(bound, lines[..|lines| - 1]) + if |last| > bound then 0 else |last| - |StripCR(last)|
  }

  function TotalBytes(lines: seq<Bytes>): nat {
    if lines == [] then 0 else TotalBytes(lines[..|lines| - 1]) + |lines[|lines| - 1]|
  }

  lemma {:induction false} StreamIsLinesAndTail(s: Bytes)
    ensures |s| == TotalBytes(Lines(s)) + |Lines(s)| + |Tail(s)|
  {
    if s != [] {
      StreamIsLinesAndTail(s[..|s| - 1]);
    }
  }

  lemma MessageBytesSnoc(items: seq<Item>, decode: Decoder, bound: nat, line: Bytes)
    ensures MessageBytes(items + LineItems(decode, bound, line))
            == MessageBytes(items) + if |line| > bound then 0 else |StripCR(line)|
  {
    var more := LineItems(decode, bound, line);
    if more == [] {
      assert items + more == items;
    } else {
      assert |more| == 1 && (items + more)[..|items|] == items;
    }
  }

  lemma {:induction false} LinesAreAccountedFor(decode: Decoder, bound: nat, lines: seq<Bytes>)
    ensures TotalBytes(lines) ==
            MessageBytes(Items(decode, bound, lines)) + StrippedBytes(bound, lines) + LostBytes(bound, lines)
  {
    if lines != [] {
      var front, last := lines[..|lines| - 1], lines[|lines| - 1];
      LinesAreAccountedFor(decode, bound, front);
      MessageBytesSnoc(Items(decode, bound, front), decode, bound, last);
    }
  }

  /** Every byte of the stream is a message byte, a stripped carriage return, a terminator,
      a byte of a dropped line, or still unterminated. */
  lemma EveryByteIsAccountedFor(decode: Decoder, bound: nat, s: Bytes)
    ensures |s| == MessageBytes(Items(decode, bound, Lines(s))) + StrippedBytes(bound, Lines(s))
                   + |Lines(s)| + LostBytes(bound, Lines(s)) + |Tail(s)|
  {
    StreamIsLinesAndTail(s);
    LinesAreAccountedFor(decode, bound, Lines(s));
  }

  // ---------------------------------------------------------------- the framer

  class LineFramer {
    const decode: Decoder
    const maxMessageBytes: nat
    var buffer: Bytes
    var overflow: bool
    var overflowLineBytes: nat
    var oversizedMessages: nat
    var oversizedBytes: nat
    var partialBytes: nat
    /** All bytes fed so far, less the partial lines forgotten by `Close`. */
    ghost var history: Bytes
    /** Oversized lines and bytes that `Close` counted without a terminator. */
    ghost var closedMessages: nat
    ghost var closedBytes: nat

    /** The fields for an unterminated rest `tail` after `lost` dropped lines of `lostBytes` bytes. */
    ghost predicate Shows(tail: Bytes, lost: nat, lostBytes: nat)
      reads this
    {
      && 1024 <= maxMessageBytes
      && (if |tail| > maxMessageBytes
          then overflow && overflowLineBytes == |tail| && buffer == []
          else !overflow && overflowLineBytes == 0 && buffer == tail)
      && oversizedMessages == lost + closedMessages
      && oversizedBytes == lostBytes + closedBytes
    }

    /** The state is a function of the bytes fed, whatever the chunks were. */
    ghost predicate Valid()
      reads this
      ensures Valid() ==> |buffer| <= maxMessageBytes
    {
      Shows(Tail(history), LostLines(maxMessageBytes, Lines(history)), LostBytes(maxMessageBytes, Lines(history)))
    }

    ghost function Emitted(): seq<Item>
      reads this
    {
      Items(decode, maxMessageBytes, Lines(history))
    }

    constructor (decode: Decoder, maxMessageBytes: int)
      ensures Valid() && history == [] && partialBytes == 0
      ensures this.decode == decode
      ensures this.maxMessageBytes == if maxMessageBytes < 1024 then 1024 else maxMessageBytes
      ensures closedMessages == 0 && closedBytes == 0
    {
      this.decode := decode;
      this.maxMessageBytes := if maxMessageBytes < 1024 then 1024 else maxMessageBytes;
      buffer, overflow, overflowLineBytes := [], false, 0;
      oversizedMessages, oversizedBytes, partialBytes := 0, 0, 0;
      history, closedMessages, closedBytes := [], 0, 0;
    }

    method Feed(data: Bytes) returns (emitted: seq<Item>)
      requires Valid()
      modifies `buffer, `overflow, `overflowLineBytes, `history, `oversizedMessages, `oversizedBytes
      ensures Valid()
      ensures history == old(history) + data
      ensures emitted == Items(decode, maxMessageBytes, Lines(old(Tail(history)) + data))
    {
      emitted := [];
      if data == [] {
        NothingNew(history);
        return;
      }
      ghost var before, first, total := history, Emitted(), history + data;
      var index, size := 0, |data|;
      while true
        invariant 0 <= index <= size
        invariant Valid() && history + data[index..] == total
        invariant Emitted() == first + emitted
        decreases size - index
      {
        var newline := Find(data, index);
        if newline == -1 {
          KeepRest(data[index..]);
          break;
        }
        CutSegment(history, data, index, newline);
        var items := FinishLine(data[index..newline]);
        emitted := Appended(first, emitted, items);
        index := newline + 1;
      }
      NewItems(decode, maxMessageBytes, before, data, emitted);
    }

    /** The branch of the loop for a chunk remainder without a terminator. */
    method KeepRest(rest: Bytes)
      requires Valid() && NoNewline(rest)
      modifies `buffer, `overflow, `overflowLineBytes, `history
      ensures Valid() && history == old(history) + rest
      ensures Emitted() == old(Emitted())
    {
      AppendWithoutNewline(history, rest);
      if overflow {
        overflowLineBytes := overflowLineBytes + |rest|;
      } else if |buffer| + |rest| > maxMessageBytes {
        overflow := true;
        overflowLineBytes := |buffer| + |rest|;
        buffer := [];
      } else {
        buffer := buffer + rest;
      }
      history := history + rest;
    }

    /** The branch of the loop for a terminated segment: it ends the line begun by `tail`. */
    method EndLine(segment: Bytes, ghost tail: Bytes, ghost lost: nat, ghost lostBytes: nat)
      returns (items: seq<Item>)
      requires Shows(tail, lost, lostBytes)
      modifies `buffer, `overflow, `overflowLineBytes, `oversizedMessages, `oversizedBytes
      ensures items == LineItems(decode, maxMessageBytes, tail + segment)
      ensures var size := |tail + segment|;
              if size > maxMessageBytes then Shows([], lost + 1, lostBytes + size) else Shows([], lost, lostBytes)
    {
      items := [];
      if overflow {
        overflowLineBytes := overflowLineBytes + |segment|;
        var total := overflowLineBytes;
        oversizedBytes := oversizedBytes + total;
        oversizedMessages := oversizedMessages + 1;
        overflow := false;
        overflowLineBytes := 0;
        items := [FramingLoss(total)];
      } else {
        var lineLength := |buffer| + |segment|;
        if lineLength > maxMessageBytes {
          oversizedMessages := oversizedMessages + 1;
          oversizedBytes := oversizedBytes + lineLength;
          buffer := [];
          items := [FramingLoss(lineLength)];
        } else {
          var stripped := StripCR(buffer + segment);
          buffer := [];
          if stripped != [] {
            items := [Message(Classify(decode(stripped), |stripped|))];
          }
        }
      }
    }

    method FinishLine(segment: Bytes) returns (items: seq<Item>)
      requires Valid() && NoNewline(segment)
      modifies `buffer, `overflow, `overflowLineBytes, `history, `oversizedMessages, `oversizedBytes
      ensures Valid() && history == old(history) + segment + [NEWLINE]
      ensures Emitted() == old(Emitted()) + items
    {
      ghost var lines := Lines(history);
      AppendLine(decode, maxMessageBytes, history, segment);
      items := EndLine(segment, Tail(history), LostLines(maxMessageBytes, lines), LostBytes(maxMessageBytes, lines));
      history := history + segment + [NEWLINE];
    }

    /** Ends the direction: the unterminated rest is counted and forgotten. */
    method Close()
      requires Valid()
      modifies this
      ensures Valid()
      ensures Emitted() == old(Emitted())
      ensures Tail(history) == [] && Lines(history) == old(Lines(history))
      ensures var tail := old(Tail(history));
              if |tail| > maxMessageBytes
              then partialBytes == old(partialBytes) && oversizedMessages == old(oversizedMessages) + 1
                   && oversizedBytes == old(oversizedBytes) + |tail|
              else partialBytes == old(partialBytes) + |tail| && oversizedMessages == old(oversizedMessages)
                   && oversizedBytes == old(oversizedBytes)
    {
      if buffer != [] {
        partialBytes := partialBytes + |buffer|;
        buffer := [];
      }
      if overflowLineBytes != 0 {
        oversizedBytes := oversizedBytes + overflowLineBytes;
        closedBytes := closedBytes + overflowLineBytes;
        oversizedMessages := oversizedMessages + 1;
        closedMessages := closedMessages + 1;
        overflowLineBytes := 0;
        overflow := false;
      }
      CompletePart(history);
      history := history[..|history| - |Tail(history)|];
    }
  }

  lemma {:induction false} CompletePart(s: Bytes)
    ensures |Tail(s)| <= |s|
    ensures var front := s[..|s| - |Tail(s)|];
            Lines(front) == Lines(s) && Tail(front) == []
  {
    if s == [] || s[|s| - 1] == NEWLINE {
      assert s[..|s|] == s;
    } else {
      var t := s[..|s| - 1];
      CompletePart(t);
      assert s[..|s| - |Tail(s)|] == t[..|t| - |Tail(t)|];
    }
  }
}
