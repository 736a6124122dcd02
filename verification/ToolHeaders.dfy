/** Mirrored tool arguments on their way through HTTP: the adapter writes them into headers
    (streamable_http_stdio.py, _tool_argument_headers) and the facade compares them with the body
    (stdio_http_facade.py, _validate_tool_headers). */
module ToolHeaders {
  import opened Common
  import opened DecimalReader
  import opened HeaderCodec
  import opened MessageClass
  import opened ToolHeaderSchema

  /** A JSON argument; a number in floating-point notation counts by its integral value, if it has one. */
  datatype Argument =
    | Absent
    | Flag(flag: bool)
    | Whole(n: int)
    | Fraction
    | Words(text: string)
    | Fields(fields: map<string, Argument>)
    | Items

  datatype Reached = Missing | Unreadable | At(value: Argument)

  /** Following a property path; a missing or null step ends it quietly, a step into anything but an object does not. */
  function Follow(value: Argument, path: seq<string>): Reached
    decreases |path|
  {
    if path == [] then if value.Absent? then Missing else At(value)
    else if !value.Fields? then Unreadable
    else if path[0] !in value.fields || value.fields[path[0]].Absent? then Missing
    else Follow(value.fields[path[0]], path[1..])
  }

  const MAX_SAFE_INTEGER := 9007199254740991

  function TextOf(kind: string, value: Argument): Option<string> {
    if kind == "string" && value.Words? then Some(value.text)
    else if kind == "boolean" && value.Flag? then Some(if value.flag then "true" else "false")
    else if kind == "integer" && value.Whole? && -MAX_SAFE_INTEGER <= value.n <= MAX_SAFE_INTEGER then Some(Decimal(value.n))
    else None
  }

  datatype Header = Header(name: string, value: string)

  datatype HeaderOutcome = NoHeader | OneHeader(header: Header) | Refused

  function HeaderFor(b: Binding, arguments: Argument): HeaderOutcome {
    match Follow(arguments, b.path)
    case Missing => NoHeader
    case Unreadable => Refused
    case At(value) =>
      match TextOf(b.kind, value)
      case Some(text) => OneHeader(Header(b.header, ModernHeader(text)))
      case None => Refused
  }

  /** `_tool_argument_headers`. */
  function ArgumentHeaders(bindings: seq<Binding>, arguments: Argument): Option<seq<Header>> {
    if bindings == [] then Some([])
    else
      match (ArgumentHeaders(bindings[..|bindings| - 1], arguments), HeaderFor(bindings[|bindings| - 1], arguments))
      case (Some(earlier), NoHeader) => Some(earlier)
      case (Some(earlier), OneHeader(h)) => Some(earlier + [h])
      case _ => None
  }

  // ---------------------------------------------------------------- the facade's comparison

  function Named(headers: seq<Header>, name: string): seq<string> {
    if headers == [] then []
    else
      Named(headers[..|headers| - 1], name)
      + if Lower(headers[|headers| - 1].name) == Lower(name) then [headers[|headers| - 1].value] else []
  }

  /** Numbers are compared by value, everything else by text. */
  predicate SameValue(kind: string, actual: Decoded, wanted: Decoded) {
    && actual.Value? && wanted.Value?
    && if kind == "integer" then |actual.text| <= 64 && Numeral(actual.text).Some? && Numeral(actual.text) == Numeral(wanted.text)
       else actual == wanted
  }

  predicate BindingPasses(b: Binding, expected: seq<Header>, supplied: seq<Header>) {
    var wanted, actual := Named(expected, b.header), Named(supplied, b.header);
    && |actual| <= 1
    && if wanted == [] then actual == []
       else actual != [] && SameValue(b.kind, DecodeModernHeader(actual[0]), DecodeModernHeader(wanted[|wanted| - 1]))
  }

  /** `_validate_tool_headers`, once the tool was found: no unknown parameter header, and each binding passes. */
  predicate FacadeAccepts(bindings: seq<Binding>, expected: seq<Header>, supplied: seq<Header>) {
    && (forall h | h in supplied :: exists b :: b in bindings && Lower(b.header) == Lower(h.name))
    && forall b | b in bindings :: BindingPasses(b, expected, supplied)
  }

  ghost predicate DistinctHeaders(bindings: seq<Binding>) {
    forall i, j | 0 <= i < j < |bindings| :: Lower(bindings[i].header) != Lower(bindings[j].header)
  }

  /** The extraction only returns bindings whose headers differ, also when case is ignored. */
  lemma ExtractedHeadersAreDistinct(found: seq<Annotation>)
    requires Acceptable(found)
    ensures DistinctHeaders(BindingsOf(found))
  {
    var bindings := BindingsOf(found);
    forall i, j | 0 <= i < j < |bindings|
      ensures Lower(bindings[i].header) != Lower(bindings[j].header)
    {
      assert Names(found)[i] != Names(found)[j];
      LowerAfterPrefix("Mcp-Param-", found[i].name.text);
      LowerAfterPrefix("Mcp-Param-", found[j].name.text);
    }
  }

  lemma LowerAfterPrefix(prefix: string, name: string)
    ensures Lower(prefix + name)[|prefix|..] == Lower(name)
  {
  }

  // ---------------------------------------------------------------- what the adapter writes passes

  function Power(k: nat): nat {
    if k == 0 then 1 else 10 * Power(k - 1)
  }

  lemma {:induction false} DigitsBound(n: nat, k: nat)
    requires n < Power(k) && k > 0
    ensures |Digits(n)| <= k
  {
    if n >= 10 {
      assert k > 1;
      DigitsBound(n / 10, k - 1);
    }
  }

  lemma SafeIntegersAreShort(n: int)
    requires -MAX_SAFE_INTEGER <= n <= MAX_SAFE_INTEGER
    ensures |Decimal(n)| <= 17
  {
    assert Power(4) == 10000 && Power(8) == 10000 * Power(4) && Power(12) == 10000 * Power(8) && Power(16) == 10000 * Power(12);
    DigitsBound(if n < 0 then -n else n, 16);
  }

  /** What the headers hold under one name is what its binding gives, if there is such a binding. */
  ghost predicate ByName(found: seq<string>, bindings: seq<Binding>, arguments: Argument, name: string) {
    && |found| <= 1
    && (found != [] ==> exists b :: b in bindings && Lower(b.header) == Lower(name))
    && forall b | b in bindings && Lower(b.header) == Lower(name) ::
         found == match HeaderFor(b, arguments) case OneHeader(h) => [h.value] case _ => []
  }

  lemma NamedSnoc(headers: seq<Header>, h: Header, name: string)
    ensures Named(headers + [h], name) == Named(headers, name) + if Lower(h.name) == Lower(name) then [h.value] else []
  {
    assert (headers + [h])[..|headers|] == headers;
  }

  lemma LastDiffers(bindings: seq<Binding>)
    requires DistinctHeaders(bindings) && bindings != []
    ensures DistinctHeaders(bindings[..|bindings| - 1])
    ensures forall b | b in bindings[..|bindings| - 1] :: Lower(b.header) != Lower(bindings[|bindings| - 1].header)
  {
    var front := bindings[..|bindings| - 1];
    forall b | b in front
      ensures Lower(b.header) != Lower(bindings[|bindings| - 1].header)
    {
      var i :| 0 <= i < |front| && front[i] == b;
      assert bindings[i] == b;
    }
  }

  lemma OneMoreBinding(earlier: seq<Header>, front: seq<Binding>, last: Binding, arguments: Argument, name: string)
    requires ByName(Named(earlier, name), front, arguments, name) && !HeaderFor(last, arguments).Refused?
    requires forall b | b in front :: Lower(b.header) != Lower(last.header)
    ensures var all := match HeaderFor(last, arguments) case OneHeader(h) => earlier + [h] case _ => earlier;
            ByName(Named(all, name), front + [last], arguments, name)
  {
    if HeaderFor(last, arguments).OneHeader? {
      NamedSnoc(earlier, HeaderFor(last, arguments).header, name);
    }
    if Lower(last.header) == Lower(name) {
      assert Named(earlier, name) == [];
    }
    assert Named(earlier, name) + [] == Named(earlier, name);
  }

  /** The header of each binding, and of no other name. */
  lemma {:induction false} HeadersByName(bindings: seq<Binding>, arguments: Argument, name: string)
    requires DistinctHeaders(bindings) && ArgumentHeaders(bindings, arguments).Some?
    ensures ByName(Named(ArgumentHeaders(bindings, arguments).value, name), bindings, arguments, name)
  {
    if bindings != [] {
      var front, last := bindings[..|bindings| - 1], bindings[|bindings| - 1];
      LastDiffers(bindings);
      HeadersByName(front, arguments, name);
      OneMoreBinding(ArgumentHeaders(front, arguments).value, front, last, arguments, name);
      assert bindings == front + [last];
    }
  }

  lemma {:induction false} HeadersHaveBindings(bindings: seq<Binding>, arguments: Argument)
    requires ArgumentHeaders(bindings, arguments).Some?
    ensures forall h | h in ArgumentHeaders(bindings, arguments).value :: exists b :: b in bindings && b.header == h.name
  {
    if bindings != [] {
      var front, last := bindings[..|bindings| - 1], bindings[|bindings| - 1];
      HeadersHaveBindings(front, arguments);
      assert bindings == front + [last];
    }
  }

  lemma {:induction false} BoundNeverRefused(bindings: seq<Binding>, arguments: Argument, i: nat)
    requires ArgumentHeaders(bindings, arguments).Some? && i < |bindings|
    ensures !HeaderFor(bindings[i], arguments).Refused?
  {
    if i < |bindings| - 1 {
      BoundNeverRefused(bindings[..|bindings| - 1], arguments, i);
    }
  }

  /** The headers the adapter makes from the arguments always pass the facade's comparison with the same arguments. */
  lemma {:induction false} AdapterHeadersPass(bindings: seq<Binding>, arguments: Argument)
    requires DistinctHeaders(bindings) && ArgumentHeaders(bindings, arguments).Some?
    ensures var headers := ArgumentHeaders(bindings, arguments).value;
            FacadeAccepts(bindings, headers, headers)
  {
    var headers := ArgumentHeaders(bindings, arguments).value;
    HeadersHaveBindings(bindings, arguments);
    forall h | h in headers
      ensures exists b :: b in bindings && Lower(b.header) == Lower(h.name)
    {
      var b :| b in bindings && b.header == h.name;
    }
    forall b | b in bindings
      ensures BindingPasses(b, headers, headers)
    {
      HeadersByName(bindings, arguments, b.header);
      if HeaderFor(b, arguments).OneHeader? {
        WrittenValuePasses(b, arguments);
      }
    }
  }

  lemma {:induction false} WrittenValuePasses(b: Binding, arguments: Argument)
    requires HeaderFor(b, arguments).OneHeader?
    ensures var h := HeaderFor(b, arguments).header;
            SameValue(b.kind, DecodeModernHeader(h.value), DecodeModernHeader(h.value))
  {
    var value := Follow(arguments, b.path).value;
    HeaderRoundTrip(TextOf(b.kind, value).value);
    if b.kind == "integer" {
      SafeIntegersAreShort(value.n);
      NumeralReadsIntegers(value.n);
    }
  }

  /** What the argument is as a value to be compared. */
  predicate Carries(kind: string, value: Argument, text: string) {
    match value
    case Words(words) => kind == "string" && text == words
    case Flag(flag) => kind == "boolean" && text == (if flag then "true" else "false")
    case Whole(n) => kind == "integer" && Numeral(text) == Some(n as real)
    case _ => false
  }

  /** And whatever headers pass, they carry the body's values: a binding has a header exactly when its argument is
      there, and the header decodes to that argument. */
  lemma {:induction false} AcceptedHeadersCarryTheArguments(bindings: seq<Binding>, arguments: Argument,
                                         supplied: seq<Header>, b: Binding)
    requires DistinctHeaders(bindings) && ArgumentHeaders(bindings, arguments).Some?
    requires FacadeAccepts(bindings, ArgumentHeaders(bindings, arguments).value, supplied) && b in bindings
    ensures match Follow(arguments, b.path)
            case Missing => Named(supplied, b.header) == []
            case Unreadable => false
            case At(value) =>
              && |Named(supplied, b.header)| == 1
              && DecodeModernHeader(Named(supplied, b.header)[0]).Value?
              && Carries(b.kind, value, DecodeModernHeader(Named(supplied, b.header)[0]).text)
  {
    var i :| 0 <= i < |bindings| && bindings[i] == b;
    BoundNeverRefused(bindings, arguments, i);
    HeadersByName(bindings, arguments, b.header);
    assert BindingPasses(b, ArgumentHeaders(bindings, arguments).value, supplied);
    if Follow(arguments, b.path).At? {
      var value := Follow(arguments, b.path).value;
      assert HeaderFor(b, arguments).OneHeader?;
      HeaderRoundTrip(TextOf(b.kind, value).value);
      if value.Whole? {
        NumeralReadsIntegers(value.n);
      }
    }
  }
}
