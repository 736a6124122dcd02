/** Passive classification of one JSON-RPC line (stream_evidence.py).
    JSON text is not modelled: a decoder maps the bytes of a line to the part of the
    parsed value the classifier looks at. */
module MessageClass {
  import opened Common

  /** A JSON-RPC id as Python sees it. A float is given by its `repr`. */
  datatype IdValue =
    | IdBool(flag: bool)
    | IdInt(number: int)
    | IdFloat(repr: string)
    | IdText(text: string)
    | IdOther

  datatype MethodField = NoMethod | NotText | Text(name: string)

  datatype Envelope =
    | Unparseable
    | NotAnObject
    | Object(verb: MethodField, id: Option<IdValue>, hasResult: bool, hasError: bool)

  type Decoder = Bytes -> Envelope

  datatype Kind = Notification | Request | Response | Other

  datatype Note =
    | NoNote
    | UnparseableLine
    | NotAnObjectLine
    | UnrecognizedEnvelope
    | ResponseWithoutScalarId

  datatype CompletedMessage =
    CompletedMessage(kind: Kind, canonicalId: Option<string>, messageBytes: nat, note: Note)

  const MAX_REQUEST_ID_CANONICAL_BYTES := 128

  function Utf8Width(c: char): nat {
    if c as int < 0x80 then 1
    else if c as int < 0x800 then 2
    else if c as int < 0x1_0000 then 3
    else 4
  }

  function Utf8Length(s: string): nat {
    if s == "" then 0 else Utf8Width(s[0]) + Utf8Length(s[1..])
  }

  function Digit(d: nat): char
    requires d < 10
  {
    '0' + d as char
  }

  function Digits(n: nat): string {
    if n < 10 then [Digit(n)] else Digits(n / 10) + [Digit(n % 10)]
  }

  function Decimal(n: int): string {
    if n < 0 then "-" + Digits(-n) else Digits(n)
  }

  function CanonicalRequestId(v: IdValue): Option<string> {
    match v
    case IdBool(flag) => Some(if flag then "b:true" else "b:false")
    case IdInt(number) => Some("i:" + Decimal(number))
    case IdFloat(repr) => Some("f:" + repr)
    case IdText(text) =>
      if Utf8Length(text) > MAX_REQUEST_ID_CANONICAL_BYTES then None else Some("s:" + text)
    case IdOther => None
  }

  const NOTIFICATION_PREFIX := "notifications/"

  function Classify(envelope: Envelope, size: nat): CompletedMessage {
    match envelope
    case Unparseable => CompletedMessage(Other, None, size, UnparseableLine)
    case NotAnObject => CompletedMessage(Other, None, size, NotAnObjectLine)
    case Object(verb, id, hasResult, hasError) =>
      var canonical := if id.Some? then CanonicalRequestId(id.value) else None;
      if verb.Text? && NOTIFICATION_PREFIX <= verb.name then
        CompletedMessage(Notification, None, size, NoNote)
      else if hasResult || hasError then
        if canonical.None? then CompletedMessage(Other, canonical, size, ResponseWithoutScalarId)
        else CompletedMessage(Response, canonical, size, NoNote)
      else if verb.Text? && canonical.Some? then
        CompletedMessage(Request, canonical, size, NoNote)
      else
        CompletedMessage(Other, canonical, size, UnrecognizedEnvelope)
  }

  // ---------------------------------------------------------------- properties

  /** What the classifier can produce: a request or a response always carries a readable id,
      so the correlator's branches for a missing canonical id are dead. */
  ghost predicate WellClassified(m: CompletedMessage) {
    && (m.kind == Request || m.kind == Response ==> m.canonicalId.Some? && m.note == NoNote)
    && (m.kind == Other ==> m.note != NoNote)
  }

  lemma ClassifiedMessagesCarryIds(envelope: Envelope, size: nat)
    ensures WellClassified(Classify(envelope, size))
    ensures Classify(envelope, size).kind == Response ==>
              envelope.Object? && (envelope.hasResult || envelope.hasError)
    ensures Classify(envelope, size).kind == Request ==>
              envelope.Object? && envelope.verb.Text? && !envelope.hasResult && !envelope.hasError
  {
  }

  lemma {:induction false} DigitsShape(n: nat)
    ensures |Digits(n)| > 0
    ensures forall k :: 0 <= k < |Digits(n)| ==> '0' <= Digits(n)[k] <= '9'
  {
    if n >= 10 {
      DigitsShape(n / 10);
    }
  }

  lemma {:induction false} DigitsInjective(m: nat, n: nat)
    requires Digits(m) == Digits(n)
    ensures m == n
  {
    DigitsShape(m / 10);
    DigitsShape(n / 10);
    if m >= 10 && n >= 10 {
      var a, b := Digits(m / 10), Digits(n / 10);
      assert a == (a + [Digit(m % 10)])[..|a|];
      assert b == (b + [Digit(n % 10)])[..|b|];
      assert (a + [Digit(m % 10)])[|a|] == (b + [Digit(n % 10)])[|b|];
      DigitsInjective(m / 10, n / 10);
    } else {
      assert Digits(m)[|Digits(m)| - 1] == Digits(n)[|Digits(n)| - 1];
    }
  }

  lemma DecimalInjective(m: int, n: int)
    requires Decimal(m) == Decimal(n)
    ensures m == n
  {
    var a, b := Digits(if m < 0 then -m else m), Digits(if n < 0 then -n else n);
    DigitsShape(if m < 0 then -m else m);
    DigitsShape(if n < 0 then -n else n);
    assert Decimal(m)[0] == Decimal(n)[0];
    assert '0' <= a[0] && '0' <= b[0];
    if m < 0 && n < 0 {
      assert a == ("-" + a)[1..] && b == ("-" + b)[1..];
    }
    assert a == b;
    DigitsInjective(if m < 0 then -m else m, if n < 0 then -n else n);
  }

  /** Two ids get one canonical token only if they are the same typed value. */
  lemma CanonicalIdsAreInjective(v: IdValue, w: IdValue)
    requires CanonicalRequestId(v).Some?
    requires CanonicalRequestId(v) == CanonicalRequestId(w)
    ensures v == w
  {
    var a, b := CanonicalRequestId(v).value, CanonicalRequestId(w).value;
    assert a[0] == b[0];
    match (v, w)
    case (IdInt(m), IdInt(n)) =>
      assert a[2..] == Decimal(m) && b[2..] == Decimal(n);
      DecimalInjective(m, n);
    case (IdFloat(r), IdFloat(q)) =>
      assert a[2..] == r && b[2..] == q;
    case (IdText(s), IdText(t)) =>
      assert a[2..] == s && b[2..] == t;
    case (IdBool(p), IdBool(q)) =>
      assert |a| == |b|;
    case _ =>
  }
}
