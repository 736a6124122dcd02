/** Extraction of `x-mcp-header` annotations with an explicit stack (streamable_http_stdio.py,
    _tool_header_schema) against the recursive reading of a schema. */
module ToolHeaderSchema {
  import opened Common

  /** A parsed JSON value; an object keeps its members in order. */
  datatype Json =
    | JNull
    | JBool(flag: bool)
    | JNumber(repr: string)
    | JString(text: string)
    | JArray(items: seq<Json>)
    | JObject(members: seq<Member>)

  datatype Member = Member(key: string, value: Json)

  datatype Binding = Binding(path: seq<string>, header: string, kind: string)

  datatype Result = Bindings(bindings: seq<Binding>) | UnsupportedSchema

  const ANNOTATION := "x-mcp-header"
  const MAX_BINDINGS := 64

  function Lookup(members: seq<Member>, key: string): Option<Json> {
    if members == [] then None
    else if members[0].key == key then Some(members[0].value)
    else Lookup(members[1..], key)
  }

  // ---------------------------------------------------------------- one annotation

  predicate TokenChar(c: char) {
    c in "!#$%&'*+.^_`|~-" || '0' <= c <= '9' || 'A' <= c <= 'Z' || 'a' <= c <= 'z'
  }

  predicate Token(s: string) {
    s != "" && forall k :: 0 <= k < |s| ==> TokenChar(s[k])
  }

  function LowerChar(c: char): char {
    if 'A' <= c <= 'Z' then c - 'A' + 'a' else c
  }

  function Lower(s: string): string {
    seq(|s|, k requires 0 <= k < |s| => LowerChar(s[k]))
  }

  /** An annotated node: where it was found and what it says. */
  datatype Annotation = Annotation(path: seq<string>, reachable: bool, name: Json, kind: Option<Json>)

  predicate Supported(a: Annotation) {
    && a.reachable && a.path != []
    && a.name.JString? && Token(a.name.text)
    && a.kind.Some? && a.kind.value.JString? && a.kind.value.text in {"string", "integer", "boolean"}
  }

  function BindingOf(a: Annotation): Binding
    requires Supported(a)
  {
    Binding(a.path, "Mcp-Param-" + a.name.text, a.kind.value.text)
  }

  // ---------------------------------------------------------------- the traversal

  datatype Frame = Frame(node: Json, path: seq<string>, reachable: bool)

  predicate Literal(key: string) {
    key in {"default", "const", "enum", "examples", ANNOTATION}
  }

  predicate SchemaTable(key: string) {
    key in {"patternProperties", "$defs", "definitions", "dependentSchemas"}
  }

  function PropertyFrames(members: seq<Member>, path: seq<string>, reachable: bool): seq<Frame> {
    seq(|members|, k requires 0 <= k < |members| => Frame(members[k].value, path + [members[k].key], reachable))
  }

  function ValueFrames(members: seq<Member>, path: seq<string>): seq<Frame> {
    seq(|members|, k requires 0 <= k < |members| => Frame(members[k].value, path, false))
  }

  function ItemFrames(items: seq<Json>, path: seq<string>): seq<Frame> {
    seq(|items|, k requires 0 <= k < |items| => Frame(items[k], path, false))
  }

  /** What one member of an object puts on the stack. */
  function MemberFrames(m: Member, path: seq<string>, reachable: bool): seq<Frame> {
    if Literal(m.key) then []
    else if m.key == "properties" && m.value.JObject? then PropertyFrames(m.value.members, path, reachable)
    else if SchemaTable(m.key) && m.value.JObject? then ValueFrames(m.value.members, path)
    else if m.value.JObject? || m.value.JArray? then [Frame(m.value, path, false)]
    else []
  }

  function MembersFrames(members: seq<Member>, path: seq<string>, reachable: bool): seq<Frame> {
    if members == [] then []
    else MembersFrames(members[..|members| - 1], path, reachable)
         + MemberFrames(members[|members| - 1], path, reachable)
  }

  function Children(f: Frame): seq<Frame> {
    match f.node
    case JArray(items) => ItemFrames(items, f.path)
    case JObject(members) => MembersFrames(members, f.path, f.reachable)
    case _ => []
  }

  function Here(f: Frame): seq<Annotation> {
    if f.node.JObject? && Lookup(f.node.members, ANNOTATION).Some? then
      [Annotation(f.path, f.reachable, Lookup(f.node.members, ANNOTATION).value, Lookup(f.node.members, "type"))]
    else []
  }

  // ---------------------------------------------------------------- sizes

  function Size(j: Json): nat {
    1 + match j
        case JArray(items) => SizeOfItems(items)
        case JObject(members) => SizeOfMembers(members)
        case _ => 0
  }

  function SizeOfItems(items: seq<Json>): nat {
    if items == [] then 0 else Size(items[0]) + SizeOfItems(items[1..])
  }

  function SizeOfMembers(members: seq<Member>): nat {
    if members == [] then 0 else 1 + Size(members[0].value) + SizeOfMembers(members[1..])
  }

  function StackSize(stack: seq<Frame>): nat {
    if stack == [] then 0 else StackSize(stack[..|stack| - 1]) + Size(stack[|stack| - 1].node)
  }

  lemma {:induction false} StackSizeAppend(xs: seq<Frame>, ys: seq<Frame>)
    ensures StackSize(xs + ys) == StackSize(xs) + StackSize(ys)
  {
    if ys == [] {
      assert xs + ys == xs;
    } else {
      assert (xs + ys)[..|xs + ys| - 1] == xs + ys[..|ys| - 1];
      StackSizeAppend(xs, ys[..|ys| - 1]);
    }
  }

  lemma {:induction false} ItemFramesAreSmall(items: seq<Json>, path: seq<string>)
    ensures StackSize(ItemFrames(items, path)) == SizeOfItems(items)
  {
    if items != [] {
      ItemFramesAreSmall(items[1..], path);
      StackSizeAppend([Frame(items[0], path, false)], ItemFrames(items[1..], path));
      assert ItemFrames(items, path) == [Frame(items[0], path, false)] + ItemFrames(items[1..], path);
      assert [Frame(items[0], path, false)][..0] == [];
    }
  }

  lemma {:induction false} TableFramesAreSmall(members: seq<Member>, path: seq<string>, reachable: bool)
    ensures StackSize(PropertyFrames(members, path, reachable)) <= SizeOfMembers(members)
    ensures StackSize(ValueFrames(members, path)) <= SizeOfMembers(members)
  {
    if members != [] {
      var m, rest := members[0], members[1..];
      TableFramesAreSmall(rest, path, reachable);
      var first, other := Frame(m.value, path + [m.key], reachable), Frame(m.value, path, false);
      StackSizeAppend([first], PropertyFrames(rest, path, reachable));
      StackSizeAppend([other], ValueFrames(rest, path));
      assert PropertyFrames(members, path, reachable) == [first] + PropertyFrames(rest, path, reachable);
      assert ValueFrames(members, path) == [other] + ValueFrames(rest, path);
      assert [first][..0] == [] && [other][..0] == [];
    }
  }

  lemma MemberFramesAreSmall(m: Member, path: seq<string>, reachable: bool)
    ensures StackSize(MemberFrames(m, path, reachable)) <= Size(m.value)
  {
    if m.value.JObject? {
      TableFramesAreSmall(m.value.members, path, reachable);
    }
    assert [Frame(m.value, path, false)][..0] == [];
  }

  lemma {:induction false} SizeOfMembersSnoc(members: seq<Member>, m: Member)
    ensures SizeOfMembers(members + [m]) == SizeOfMembers(members) + 1 + Size(m.value)
  {
    if members != [] {
      SizeOfMembersSnoc(members[1..], m);
      assert (members + [m])[1..] == members[1..] + [m];
    }
  }

  lemma {:induction false} MembersFramesAreSmall(members: seq<Member>, path: seq<string>, reachable: bool)
    ensures StackSize(MembersFrames(members, path, reachable)) <= SizeOfMembers(members)
  {
    if members != [] {
      var front, last := members[..|members| - 1], members[|members| - 1];
      MembersFramesAreSmall(front, path, reachable);
      MemberFramesAreSmall(last, path, reachable);
      StackSizeAppend(MembersFrames(front, path, reachable), MemberFrames(last, path, reachable));
      SizeOfMembersSnoc(front, last);
      assert front + [last] == members;
    }
  }

  lemma ChildrenAreSmall(f: Frame)
    ensures StackSize(Children(f)) < Size(f.node)
  {
    match f.node
    case JArray(items) => ItemFramesAreSmall(items, f.path);
    case JObject(members) => MembersFramesAreSmall(members, f.path, f.reachable);
    case _ =>
  }

  // ---------------------------------------------------------------- the recursive reading

  /** All annotations of the schema under `f`: the node's own, then those of its children, last child first. */
  function Annotations(f: Frame): seq<Annotation>
    decreases Size(f.node), 1, 0
  {
    ChildrenAreSmall(f);
    Here(f) + AnnotationsOfAll(Children(f), Size(f.node))
  }

  /** The annotations under a stack of frames, taken from its top. */
  function AnnotationsOfAll(stack: seq<Frame>, ghost limit: nat): seq<Annotation>
    requires StackSize(stack) < limit
    decreases limit, 0, |stack|
  {
    if stack == [] then []
    else
      Annotations(stack[|stack| - 1]) + AnnotationsOfAll(stack[..|stack| - 1], limit)
  }

  function StackAnnotations(stack: seq<Frame>): seq<Annotation> {
    AnnotationsOfAll(stack, StackSize(stack) + 1)
  }

  lemma {:induction false} LimitIsIrrelevant(stack: seq<Frame>, one: nat, two: nat)
    requires StackSize(stack) < one && StackSize(stack) < two
    ensures AnnotationsOfAll(stack, one) == AnnotationsOfAll(stack, two)
  {
    if stack != [] {
      LimitIsIrrelevant(stack[..|stack| - 1], one, two);
    }
  }

  /** Popping a frame and pushing its children leaves what is still to be found unchanged. */
  lemma PopAndPush(rest: seq<Frame>, f: Frame)
    ensures StackSize(rest + Children(f)) < StackSize(rest + [f])
    ensures StackAnnotations(rest + [f]) == Here(f) + StackAnnotations(rest + Children(f))
  {
    ChildrenAreSmall(f);
    StackSizeAppend(rest, [f]);
    StackSizeAppend(rest, Children(f));
    assert [f][..0] == [];
    var limit := StackSize(rest + [f]) + 1;
    TopFirst(rest, f, limit);
    AppendedStack(rest, Children(f), limit);
    LimitIsIrrelevant(rest + Children(f), StackSize(rest + Children(f)) + 1, limit);
  }

  lemma TopFirst(rest: seq<Frame>, f: Frame, limit: nat)
    requires StackSize(rest) < limit && StackSize(rest + [f]) < limit && StackSize(Children(f)) < limit
    requires StackSize(Children(f)) < Size(f.node)
    ensures AnnotationsOfAll(rest + [f], limit)
            == Here(f) + (AnnotationsOfAll(Children(f), limit) + AnnotationsOfAll(rest, limit))
  {
    assert (rest + [f])[..|rest|] == rest && (rest + [f])[|rest|] == f;
    LimitIsIrrelevant(Children(f), Size(f.node), limit);
    Regroup(Here(f), AnnotationsOfAll(Children(f), limit), AnnotationsOfAll(rest, limit));
  }

  lemma {:induction false} AppendedStack(xs: seq<Frame>, ys: seq<Frame>, limit: nat)
    requires StackSize(xs + ys) < limit && StackSize(xs) < limit && StackSize(ys) < limit
    ensures AnnotationsOfAll(xs + ys, limit) == AnnotationsOfAll(ys, limit) + AnnotationsOfAll(xs, limit)
  {
    if ys == [] {
      assert xs + ys == xs;
    } else {
      var front, top := ys[..|ys| - 1], ys[|ys| - 1];
      assert (xs + ys)[..|xs + ys| - 1] == xs + front;
      StackSizeAppend(xs, front);
      StackSizeAppend(xs, ys);
      AppendedStack(xs, front, limit);
    }
  }

  // ---------------------------------------------------------------- when a schema is accepted

  predicate Distinct(names: seq<string>) {
    forall j, k :: 0 <= j < k < |names| ==> names[j] != names[k]
  }

  function Names(found: seq<Annotation>): (r: seq<string>)
    ensures |r| == |found|
  {
    seq(|found|, k requires 0 <= k < |found| => if found[k].name.JString? then Lower(found[k].name.text) else "")
  }

  predicate Acceptable(found: seq<Annotation>) {
    && (forall k :: 0 <= k < |found| ==> Supported(found[k]))
    && Distinct(Names(found))
    && |found| <= MAX_BINDINGS
  }

  function BindingsOf(found: seq<Annotation>): (r: seq<Binding>)
    requires forall k :: 0 <= k < |found| ==> Supported(found[k])
    ensures |r| == |found|
  {
    seq(|found|, k requires 0 <= k < |found| => BindingOf(found[k]))
  }

  lemma PrefixIsAcceptable(found: seq<Annotation>, more: seq<Annotation>)
    requires Acceptable(found + more)
    ensures Acceptable(found)
  {
    assert forall k :: 0 <= k < |found| ==> (found + more)[k] == found[k];
    assert forall k :: 0 <= k < |found| ==> Names(found + more)[k] == Names(found)[k];
  }

  function RootFrame(schema: Json): Frame {
    Frame(schema, [], true)
  }

  /** What the tool list may be used with. */
  predicate UsableSchema(inputSchema: Option<Json>) {
    inputSchema.Some? && inputSchema.value.JObject? && Acceptable(Annotations(RootFrame(inputSchema.value)))
  }

  /** The explicit-stack traversal: it accepts exactly the usable schemas, and returns their annotations in the
      order of the recursive reading. */
  method ExtractBindings(inputSchema: Option<Json>) returns (result: Result)
    ensures UsableSchema(inputSchema) ==>
              result == Bindings(BindingsOf(Annotations(RootFrame(inputSchema.value))))
    ensures !UsableSchema(inputSchema) ==> result == UnsupportedSchema
  {
    if inputSchema.None? || !inputSchema.value.JObject? {
      return UnsupportedSchema;
    }
    var root := RootFrame(inputSchema.value);
    var stack := [root];
    var bindings: seq<Binding> := [];
    var names: set<string> := {};
    var ok := true;
    ghost var all := Annotations(root);
    ghost var found: seq<Annotation> := [];
    SingleFrame(root);
    while stack != []
      invariant found + StackAnnotations(stack) == all
      invariant Acceptable(found) && Collected(found, bindings, names)
      decreases StackSize(stack)
    {
      var frame := stack[|stack| - 1];
      assert stack == stack[..|stack| - 1] + [frame];
      stack := stack[..|stack| - 1];
      ghost var later := StackAnnotations(stack + Children(frame));
      PopAndPush(stack, frame);
      Regroup(found, Here(frame), later);
      assert (found + Here(frame)) + later == all;
      ok, bindings, names := Visit(frame, found, bindings, names);
      if !ok {
        FirstFaultRejects(found + Here(frame), later);
        return UnsupportedSchema;
      }
      found := found + Here(frame);
      stack := PushChildren(stack, frame);
    }
    assert found + [] == found;
    return Bindings(bindings);
  }

  ghost predicate Collected(found: seq<Annotation>, bindings: seq<Binding>, names: set<string>)
    requires Acceptable(found)
  {
    bindings == BindingsOf(found) && forall name :: name in names <==> name in Names(found)
  }

  lemma Regroup<T>(x: seq<T>, y: seq<T>, z: seq<T>)
    ensures x + (y + z) == (x + y) + z
  {
  }

  lemma FirstFaultRejects(found: seq<Annotation>, more: seq<Annotation>)
    requires !Acceptable(found)
    ensures !Acceptable(found + more)
  {
    if Acceptable(found + more) {
      PrefixIsAcceptable(found, more);
    }
  }

  /** The annotation of one node, if any, is checked and recorded. */
  method Visit(frame: Frame, ghost found: seq<Annotation>, bindings: seq<Binding>, names: set<string>)
    returns (ok: bool, bindings': seq<Binding>, names': set<string>)
    requires Acceptable(found) && Collected(found, bindings, names)
    ensures ok <==> Acceptable(found + Here(frame))
    ensures ok ==> Collected(found + Here(frame), bindings', names')
  {
    ok, bindings', names' := true, bindings, names;
    if !frame.node.JObject? || Lookup(frame.node.members, ANNOTATION).None? {
      assert found + Here(frame) == found;
      return;
    }
    var members := frame.node.members;
    var a := Annotation(frame.path, frame.reachable, Lookup(members, ANNOTATION).value, Lookup(members, "type"));
    OneMoreAnnotation(found, a);
    if !Supported(a) || Lower(a.name.text) in names {
      ok := false;
      return;
    }
    names' := names + {Lower(a.name.text)};
    bindings' := bindings + [BindingOf(a)];
    ok := |bindings'| <= MAX_BINDINGS;
  }

  method PushChildren(base: seq<Frame>, frame: Frame) returns (stack: seq<Frame>)
    ensures stack == base + Children(frame)
  {
    match frame.node {
      case JArray(items) =>
        stack := base + ItemFrames(items, frame.path);
      case JObject(members) =>
        stack := PushMembers(base, members, frame.path, frame.reachable);
      case _ =>
        stack := base;
    }
  }

  method PushMembers(base: seq<Frame>, members: seq<Member>, path: seq<string>, reachable: bool)
    returns (stack: seq<Frame>)
    ensures stack == base + MembersFrames(members, path, reachable)
  {
    stack := base;
    assert members[..0] == [];
    for i := 0 to |members|
      invariant stack == base + MembersFrames(members[..i], path, reachable)
    {
      var key, value := members[i].key, members[i].value;
      assert members[..i + 1][..i] == members[..i];
      if Literal(key) {
      } else if key == "properties" && value.JObject? {
        stack := stack + PropertyFrames(value.members, path, reachable);
      } else if SchemaTable(key) && value.JObject? {
        stack := stack + ValueFrames(value.members, path);
      } else if value.JObject? || value.JArray? {
        stack := stack + [Frame(value, path, false)];
      }
    }
    assert members[..|members|] == members;
  }

  lemma SingleFrame(f: Frame)
    ensures StackAnnotations([f]) == Annotations(f)
  {
    var limit := StackSize([f]) + 1;
    assert [f][..0] == [] && AnnotationsOfAll([], limit) == [];
    assert AnnotationsOfAll([f], limit) == Annotations([f][0]) + AnnotationsOfAll([f][..0], limit);
    assert Annotations(f) + [] == Annotations(f);
  }

  lemma OneMoreAnnotation(found: seq<Annotation>, a: Annotation)
    requires Acceptable(found)
    ensures Supported(a) ==> BindingsOf(found + [a]) == BindingsOf(found) + [BindingOf(a)]
    ensures Supported(a) ==> Names(found + [a]) == Names(found) + [Lower(a.name.text)]
    ensures Acceptable(found + [a]) <==> Supported(a) && Lower(a.name.text) !in Names(found) && |found| < MAX_BINDINGS
  {
    var more := found + [a];
    assert more[|found|] == a && (Supported(more[|found|]) <==> Supported(a));
    assert forall k :: 0 <= k < |found| ==> more[k] == found[k];
    if Supported(a) {
      var names, name := Names(found), Lower(a.name.text);
      assert Names(more) == names + [name];
      assert BindingsOf(more) == BindingsOf(found) + [BindingOf(a)];
      if name in names {
        var j :| 0 <= j < |found| && names[j] == name;
        assert Names(more)[j] == Names(more)[|found|];
        assert !Distinct(Names(more));
      } else {
        DistinctSnoc(names, name);
        assert forall k :: 0 <= k < |more| ==> Supported(more[k]);
      }
    }
  }

  lemma DistinctSnoc(names: seq<string>, name: string)
    requires Distinct(names) && name !in names
    ensures Distinct(names + [name])
  {
    var more := names + [name];
    forall j, k | 0 <= j < k < |more| ensures more[j] != more[k] {
      assert more[j] == names[j] && more[j] in names;
    }
  }

  // ---------------------------------------------------------------- which nodes those are

  /** The node at a path of property names, by the schema itself. */
  function PropertyNode(schema: Json, path: seq<string>): Option<Json>
    decreases |path|
  {
    if path == [] then Some(schema)
    else if !schema.JObject? then None
    else
      var table := Lookup(schema.members, "properties");
      if table.None? || !table.value.JObject? then None
      else
        var child := Lookup(table.value.members, path[0]);
        if child.None? then None else PropertyNode(child.value, path[1..])
  }

  /** Object keys are unique, as in any parsed JSON object. */
  ghost predicate UniqueKeys(j: Json) {
    match j
    case JArray(items) => forall k :: 0 <= k < |items| ==> UniqueKeys(items[k])
    case JObject(members) =>
      && (forall i, k :: 0 <= i < k < |members| ==> members[i].key != members[k].key)
      && (forall k :: 0 <= k < |members| ==> UniqueKeys(members[k].value))
    case _ => true
  }

  lemma {:induction false} LookupFinds(members: seq<Member>, k: nat)
    requires k < |members| && forall i, j :: 0 <= i < j < |members| ==> members[i].key != members[j].key
    ensures Lookup(members, members[k].key) == Some(members[k].value)
  {
    if k > 0 {
      LookupFinds(members[1..], k - 1);
    }
  }

  lemma {:induction false} LookupIsMember(members: seq<Member>, key: string) returns (k: nat)
    requires Lookup(members, key).Some?
    ensures k < |members| && members[k].key == key && members[k].value == Lookup(members, key).value
  {
    if members[0].key == key {
      k := 0;
    } else {
      k := LookupIsMember(members[1..], key);
      k := k + 1;
    }
  }

  lemma {:induction false} InMembersFrames(members: seq<Member>, path: seq<string>, reachable: bool, f: Frame)
    ensures f in MembersFrames(members, path, reachable)
            <==> exists k :: 0 <= k < |members| && f in MemberFrames(members[k], path, reachable)
  {
    if members != [] {
      var front, last := members[..|members| - 1], members[|members| - 1];
      InMembersFrames(front, path, reachable, f);
      if k :| 0 <= k < |members| && f in MemberFrames(members[k], path, reachable) {
        if k < |front| {
          assert f in MemberFrames(front[k], path, reachable);
        }
      }
      if k :| 0 <= k < |front| && f in MemberFrames(front[k], path, reachable) {
        assert f in MemberFrames(members[k], path, reachable);
      }
    }
  }

  ghost predicate FoundUnder(stack: seq<Frame>, a: Annotation) {
    exists f :: f in stack && a in Annotations(f)
  }

  lemma FoundUnderSnoc(front: seq<Frame>, top: Frame, a: Annotation)
    ensures FoundUnder(front + [top], a) <==> FoundUnder(front, a) || a in Annotations(top)
  {
    var stack := front + [top];
    if FoundUnder(stack, a) {
      var f :| f in stack && a in Annotations(f);
      assert f in front || f == top;
    }
    if FoundUnder(front, a) {
      var f :| f in front && a in Annotations(f);
      assert f in stack;
    }
    assert top in stack;
  }

  lemma InConcat<T>(x: T, xs: seq<T>, ys: seq<T>)
    ensures x in xs + ys <==> x in xs || x in ys
  {
  }

  lemma {:induction false} InAnnotationsOfAll(stack: seq<Frame>, limit: nat, a: Annotation)
    requires StackSize(stack) < limit
    ensures a in AnnotationsOfAll(stack, limit) <==> FoundUnder(stack, a)
  {
    if stack != [] {
      var front, top := stack[..|stack| - 1], stack[|stack| - 1];
      InAnnotationsOfAll(front, limit, a);
      FoundUnderSnoc(front, top, a);
      assert front + [top] == stack;
      InConcat(a, Annotations(top), AnnotationsOfAll(front, limit));
    }
  }

  lemma AnnotationsUnfold(f: Frame, a: Annotation)
    ensures a in Annotations(f) <==> a in Here(f) || FoundUnder(Children(f), a)
  {
    ChildrenAreSmall(f);
    InAnnotationsOfAll(Children(f), Size(f.node), a);
    InConcat(a, Here(f), AnnotationsOfAll(Children(f), Size(f.node)));
  }

  lemma {:induction false} ChildIsSmaller(stack: seq<Frame>, f: Frame)
    requires f in stack
    ensures Size(f.node) <= StackSize(stack)
  {
    if f != stack[|stack| - 1] {
      ChildIsSmaller(stack[..|stack| - 1], f);
    }
  }

  lemma TableChild(members: seq<Member>, path: seq<string>, reachable: bool, m: Member, child: Frame)
    requires child in MemberFrames(m, path, reachable) && UniqueKeys(m.value)
    ensures UniqueKeys(child.node)
    ensures child.reachable ==>
              reachable && m.key == "properties" && m.value.JObject?
              && exists name :: child.path == path + [name] && Lookup(m.value.members, name) == Some(child.node)
  {
    if m.value.JObject? {
      var table := m.value.members;
      assert forall j :: 0 <= j < |table| ==> UniqueKeys(table[j].value);
      if child.reachable {
        var j :| 0 <= j < |table| && child == PropertyFrames(table, path, reachable)[j];
        LookupFinds(table, j);
      }
    }
  }

  /** A reachable child is the value of a property, at the path extended by its name. */
  lemma ReachableChild(f: Frame, child: Frame)
    requires child in Children(f) && UniqueKeys(f.node)
    ensures UniqueKeys(child.node)
    ensures child.reachable ==>
              f.reachable && exists name :: child.path == f.path + [name] && PropertyNode(f.node, [name]) == Some(child.node)
  {
    match f.node
    case JArray(items) =>
    case JObject(members) =>
      InMembersFrames(members, f.path, f.reachable, child);
      var i :| 0 <= i < |members| && child in MemberFrames(members[i], f.path, f.reachable);
      assert UniqueKeys(members[i].value);
      TableChild(members, f.path, f.reachable, members[i], child);
      if child.reachable {
        LookupFinds(members, i);
        var name :| child.path == f.path + [name] && Lookup(members[i].value.members, name) == Some(child.node);
        assert [name][1..] == [] && PropertyNode(child.node, []) == Some(child.node);
        assert PropertyNode(f.node, [name]) == Some(child.node);
      }
    case _ =>
  }

  ghost predicate AtProperty(f: Frame, a: Annotation) {
    exists q :: a.path == f.path + q && PropertyNode(f.node, q).Some?
                && Here(Frame(PropertyNode(f.node, q).value, a.path, true)) == [a]
  }

  /** Every reachable annotation sits on the node found by following property names from the root. */
  lemma {:induction false} ReachableIsByProperties(f: Frame, a: Annotation)
    requires UniqueKeys(f.node) && a in Annotations(f) && a.reachable
    ensures f.reachable && AtProperty(f, a)
    decreases Size(f.node)
  {
    AnnotationsUnfold(f, a);
    if a in Here(f) {
      assert f.path + [] == f.path && PropertyNode(f.node, []) == Some(f.node);
    } else {
      var child :| child in Children(f) && a in Annotations(child);
      ChildrenAreSmall(f);
      ChildIsSmaller(Children(f), child);
      ReachableChild(f, child);
      ReachableIsByProperties(child, a);
      AtPropertyOfChild(f, child, a);
    }
  }

  lemma AtPropertyOfChild(f: Frame, child: Frame, a: Annotation)
    requires exists name :: child.path == f.path + [name] && PropertyNode(f.node, [name]) == Some(child.node)
    requires AtProperty(child, a)
    ensures AtProperty(f, a)
  {
    var name :| child.path == f.path + [name] && PropertyNode(f.node, [name]) == Some(child.node);
    var q :| a.path == child.path + q && PropertyNode(child.node, q).Some?
             && Here(Frame(PropertyNode(child.node, q).value, a.path, true)) == [a];
    PropertyNodeStep(f.node, name, q);
    assert f.path + ([name] + q) == a.path;
  }

  lemma PropertyNodeStep(schema: Json, name: string, q: seq<string>)
    requires PropertyNode(schema, [name]).Some?
    ensures PropertyNode(schema, [name] + q) == PropertyNode(PropertyNode(schema, [name]).value, q)
  {
    assert ([name] + q)[1..] == q && [name][1..] == [];
  }

  /** Conversely every annotated node reached by property names is found, as reachable. */
  lemma {:induction false} ByPropertiesIsReachable(f: Frame, q: seq<string>)
    requires f.reachable && PropertyNode(f.node, q).Some?
    ensures forall a :: a in Here(Frame(PropertyNode(f.node, q).value, f.path + q, true)) ==> a in Annotations(f)
    decreases |q|
  {
    if q == [] {
      assert f.path + q == f.path;
      forall a | a in Here(f) ensures a in Annotations(f) {
        AnnotationsUnfold(f, a);
      }
    } else {
      var child := PropertyChild(f, q);
      ByPropertiesIsReachable(child, q[1..]);
      assert child.path + q[1..] == f.path + q;
      forall a | a in Annotations(child) ensures a in Annotations(f) {
        AnnotationsUnfold(f, a);
      }
    }
  }

  lemma PropertyChild(f: Frame, q: seq<string>) returns (child: Frame)
    requires f.reachable && q != [] && PropertyNode(f.node, q).Some?
    ensures child in Children(f) && child.reachable && child.path == f.path + [q[0]]
    ensures PropertyNode(child.node, q[1..]) == PropertyNode(f.node, q)
  {
    var members := f.node.members;
    var i := LookupIsMember(members, "properties");
    var table := members[i].value;
    var j := LookupIsMember(table.members, q[0]);
    child := Frame(table.members[j].value, f.path + [q[0]], true);
    assert child == PropertyFrames(table.members, f.path, f.reachable)[j];
    assert child in MemberFrames(members[i], f.path, f.reachable);
    InMembersFrames(members, f.path, f.reachable, child);
  }

  /** An accepted schema mirrors exactly the annotated nodes reached by property names; an annotation anywhere
      else makes the whole schema unsupported. */
  lemma MirroredExactlyByProperties(schema: Json)
    requires schema.JObject? && UniqueKeys(schema)
    ensures forall a :: a in Annotations(RootFrame(schema)) && !AtProperty(RootFrame(schema), a) ==> !UsableSchema(Some(schema))
    ensures forall q, a :: PropertyNode(schema, q).Some? && a in Here(Frame(PropertyNode(schema, q).value, q, true)) ==>
              a in Annotations(RootFrame(schema))
  {
    var root := RootFrame(schema);
    forall a | a in Annotations(root) && !AtProperty(root, a) ensures !UsableSchema(Some(schema)) {
      if a.reachable {
        ReachableIsByProperties(root, a);
      } else {
        var k :| 0 <= k < |Annotations(root)| && Annotations(root)[k] == a;
        assert !Supported(Annotations(root)[k]);
      }
    }
    forall q, a | PropertyNode(schema, q).Some? && a in Here(Frame(PropertyNode(schema, q).value, q, true))
      ensures a in Annotations(root)
    {
      ByPropertiesIsReachable(root, q);
      assert [] + q == q;
    }
  }
}
