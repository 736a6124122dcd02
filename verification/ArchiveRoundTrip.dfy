/** What an accepted archive yields, however it was made, and when the builder's own archive is accepted. */
module ArchiveRoundTrip {
  import opened Common
  import opened ArchiveNames
  import opened Archive
  import opened ArchiveExtraction

  // ---------------------------------------------------------------- what was written

  ghost predicate HoldsNames(key: string -> string, p: Progress, names: seq<string>) {
    p.tree.files.Keys == Folds(key, names) && p.tree.dirs == AllParents(key, names)
  }

  ghost predicate HoldsFile(key: string -> string, p: Progress, m: Member) {
    && m.data.Some?
    && key(m.name) in p.tree.files && p.tree.files[key(m.name)] == m.data.value
    && m.name in p.digests && p.digests[m.name] == m.data.value
  }

  ghost predicate HoldsFiles(key: string -> string, p: Progress, files: seq<Member>) {
    p.digests.Keys == NameSet(files) && forall m | m in files :: HoldsFile(key, p, m)
  }

  /** Every file of the archive is on the disk under its name, with its digest, and nothing else is. */
  ghost predicate Holds(key: string -> string, p: Progress, members: seq<Member>) {
    HoldsNames(key, p, FileNames(members)) && HoldsFiles(key, p, FilesIn(members)) && p.manifest == LastManifest(members)
  }

  lemma {:induction false} FileNamesHold(key: string -> string, members: seq<Member>)
    ensures forall m | m in FilesIn(members) :: m.name in FileNames(members) && key(m.name) in Folds(key, FileNames(members))
  {
    FileNamesAreNamesOfFiles(members);
    forall m | m in FilesIn(members)
      ensures m.name in FileNames(members)
    {
      var i :| 0 <= i < |FilesIn(members)| && FilesIn(members)[i] == m;
      assert FileNames(members)[i] == m.name;
    }
  }

  lemma OneMore(front: seq<Member>, m: Member)
    ensures FilesIn(front + [m]) == if m.name == MANIFEST_MEMBER then FilesIn(front) else FilesIn(front) + [m]
    ensures FileNames(front + [m]) == if m.name == MANIFEST_MEMBER then FileNames(front) else FileNames(front) + [m.name]
    ensures LastManifest(front + [m]) == if m.name == MANIFEST_MEMBER then m.data else LastManifest(front)
    ensures HasManifest(front + [m]) <==> HasManifest(front) || m.name == MANIFEST_MEMBER
  {
    assert (front + [m])[..|front|] == front;
    assert FilesIn(front) + [] == FilesIn(front) && FileNames(front) + [] == FileNames(front);
  }

  lemma NameSetSnoc(files: seq<Member>, m: Member)
    ensures NameSet(files + [m]) == NameSet(files) + {m.name}
  {
    assert (files + [m])[..|files|] == files;
  }

  lemma {:induction false} WritingHoldsNames(key: string -> string, p: Progress, names: seq<string>, m: Member)
    requires HoldsNames(key, p, names) && m.name != MANIFEST_MEMBER && WriteOne(key, p, m).Some?
    ensures HoldsNames(key, WriteOne(key, p, m).value, names + [m.name])
  {
    FoldsSnoc(key, names, m.name);
  }

  /** Writing one file under a new key leaves the others as they are. */
  lemma {:induction false} WritingLeavesFile(key: string -> string, p: Progress, m: Member, x: Member)
    requires HoldsFile(key, p, x) && WriteOne(key, p, m).Some?
    requires m.name != MANIFEST_MEMBER ==> key(x.name) != key(m.name)
    ensures HoldsFile(key, WriteOne(key, p, m).value, x)
  {
  }

  lemma {:induction false} WritingHoldsFiles(key: string -> string, p: Progress, files: seq<Member>, m: Member)
    requires HoldsFiles(key, p, files) && m.name != MANIFEST_MEMBER && WriteOne(key, p, m).Some?
    requires forall x | x in files :: key(x.name) != key(m.name)
    ensures HoldsFiles(key, WriteOne(key, p, m).value, files + [m])
  {
    var p' := WriteOne(key, p, m).value;
    NameSetSnoc(files, m);
    forall x | x in files + [m]
      ensures HoldsFile(key, p', x)
    {
      if x in files {
        WritingLeavesFile(key, p, m, x);
      }
    }
  }

  lemma {:induction false} WritingHolds(key: string -> string, p: Progress, front: seq<Member>, m: Member)
    requires Holds(key, p, front) && WriteOne(key, p, m).Some?
    requires m.name != MANIFEST_MEMBER ==> Avoids(key, FileNames(front), m.name)
    ensures Holds(key, WriteOne(key, p, m).value, front + [m])
  {
    OneMore(front, m);
    if m.name != MANIFEST_MEMBER {
      FileNamesHold(key, front);
      WritingHoldsNames(key, p, FileNames(front), m);
      WritingHoldsFiles(key, p, FilesIn(front), m);
    } else {
      var p' := WriteOne(key, p, m).value;
      assert forall x | x in FilesIn(front) :: HoldsFile(key, p, x) ==> HoldsFile(key, p', x);
    }
  }

  lemma {:induction false} FrontStaysGood(key: string -> string, members: seq<Member>)
    requires members != [] && GoodNames(key, FileNames(members))
    ensures var front, last := members[..|members| - 1], members[|members| - 1];
            GoodNames(key, FileNames(front)) && (last.name != MANIFEST_MEMBER ==> Avoids(key, FileNames(front), last.name))
  {
    var front, last := members[..|members| - 1], members[|members| - 1];
    assert members == front + [last];
    OneMore(front, last);
    if last.name != MANIFEST_MEMBER {
      GoodNamesSnoc(key, FileNames(front), last.name);
    }
  }

  lemma {:induction false} WrittenHolds(key: string -> string, members: seq<Member>)
    requires GoodNames(key, FileNames(members)) && Written(key, members).Some?
    ensures Holds(key, Written(key, members).value, members)
  {
    if members != [] {
      var front, last := members[..|members| - 1], members[|members| - 1];
      assert members == front + [last];
      FrontStaysGood(key, members);
      WrittenHolds(key, front);
      WritingHolds(key, Written(key, front).value, front, last);
    }
  }

  predicate Readable(members: seq<Member>) {
    forall m | m in members :: m.data.Some? && (m.name != MANIFEST_MEMBER ==> Size(m.data.value) <= m.declared)
  }

  /** A name that avoids the others can always be written. */
  lemma {:induction false} AvoidingIsPlaced(key: string -> string, p: Progress, front: seq<Member>, m: Member)
    requires Holds(key, p, front) && m.name != MANIFEST_MEMBER && Avoids(key, FileNames(front), m.name)
    ensures WriteOne(key, p, m).Some? <==> m.data.Some? && Size(m.data.value) <= m.declared
  {
  }

  /** Good names never get in each other's way, so only an unreadable member can stop the writing. */
  lemma {:induction false} WritingNeverInterferes(key: string -> string, members: seq<Member>)
    requires GoodNames(key, FileNames(members))
    ensures Written(key, members).Some? <==> Readable(members)
  {
    if members != [] {
      var front, last := members[..|members| - 1], members[|members| - 1];
      assert last in members && (forall m | m in front :: m in members) && (forall m | m in members :: m in front || m == last);
      FrontStaysGood(key, members);
      WritingNeverInterferes(key, front);
      if Written(key, front).Some? {
        WrittenHolds(key, front);
        if last.name != MANIFEST_MEMBER {
          AvoidingIsPlaced(key, Written(key, front).value, front, last);
        }
      }
    }
  }

  // ---------------------------------------------------------------- soundness

  /** What the embedded manifest states about one name. */
  predicate States(manifest: Option<Content>, name: string, size: int, sha256: Content) {
    match manifest
    case Some(ManifestText(m, _)) =>
      m.files.Some? && Expected(m.files.value).Some? && name in Expected(m.files.value).value
      && Expected(m.files.value).value[name] == (size, sha256)
    case _ => false
  }

  /** The names an embedded manifest states anything about. */
  function NamedBy(manifest: Option<Content>): set<string> {
    match manifest
    case Some(ManifestText(m, _)) => if m.files.Some? && Expected(m.files.value).Some? then Expected(m.files.value).value.Keys else {}
    case _ => {}
  }

  /** Any accepted archive, however made, yields exactly its non-manifest members, each with the size and digest its
      manifest states, within the size bounds; and the manifest names nothing else. */
  lemma {:induction false} AcceptedArchivesAreSound(key: string -> string, lower: string -> string, limits: Limits, members: seq<Member>)
    requires Finer(key, lower) && ExtractOf(key, lower, limits, members).Some?
    ensures var tree := ExtractOf(key, lower, limits, members).value;
            && tree.files.Keys == Folds(key, FileNames(members))
            && |tree.files| == |FileNames(members)|
            && forall m | m in FilesIn(members) ::
                 && m.data.Some? && key(m.name) in tree.files && tree.files[key(m.name)] == m.data.value
                 && Size(m.data.value) <= m.declared <= limits.maxMember
                 && States(LastManifest(members), m.name, Size(m.data.value), m.data.value)
    ensures NamedBy(LastManifest(members)) == NameSet(FilesIn(members))
    ensures TotalDeclared(members) <= limits.maxExpanded && |members| <= limits.maxEntries
  {
    var names := FileNames(members);
    FinerKeepsGood(key, lower, names);
    WrittenHolds(key, members);
    WritingNeverInterferes(key, members);
    GoodNamesBySets(key, names);
    HeadersMean(ValidName, members, limits);
    var p := Written(key, members).value;
    assert |p.tree.files| == |p.tree.files.Keys|;
    forall m | m in FilesIn(members)
      ensures m.data.Some? && key(m.name) in p.tree.files && p.tree.files[key(m.name)] == m.data.value
      ensures Size(m.data.value) <= m.declared <= limits.maxMember
      ensures States(LastManifest(members), m.name, Size(m.data.value), m.data.value)
    {
      assert m in members && HoldsFile(key, p, m);
    }
  }

  // ---------------------------------------------------------------- the manifest's own name

  lemma {:induction false} NoSlashOneComponent(name: string)
    requires '/' !in name
    ensures Components(name) == [name]
  {
    if name != "" {
      var front := name[..|name| - 1];
      NoSlashOneComponent(front);
      assert name == front + [name[|name| - 1]];
      assert [front][0 := front + [name[|name| - 1]]] == [name];
    }
  }

  lemma {:induction false} Utf8Bound(s: string)
    ensures Utf8Length(s) <= 4 * |s|
  {
    if s != "" {
      Utf8Bound(s[..|s| - 1]);
    }
  }

  lemma LongStemIsNoDevice(name: string)
    requires |name| > 5 && name[3] != '.' && name[4] != '.' && name[|name| - 1] != '\n'
    ensures !DeviceName(name)
  {
    forall k | 0 <= k <= |name| && IsDevice(name[..k])
      ensures k < |name| && name[k] != '.'
    {
      assert k == 3 || k == 4;
    }
  }

  lemma ManifestNameIsValid()
    ensures ValidName(MANIFEST_MEMBER)
  {
    var name := MANIFEST_MEMBER;
    assert |name| == 20 && name[0] == 'm' && name[1] == 'a' && name[3] == 'i' && name[4] == 'f' && name[19] == 'n';
    NoSlashOneComponent(name);
    Utf8Bound(name);
    LongStemIsNoDevice(name);
    assert ValidComponent(name);
  }

  // ---------------------------------------------------------------- the builder's archive

  ghost predicate SameFiles(a: seq<Member>, b: seq<Member>) {
    FilesIn(a) == FilesIn(b) && FileNames(a) == FileNames(b)
  }

  ghost predicate ManifestAdded(m: Member, after: seq<Member>, before: seq<Member>) {
    SameFiles(after, before) && HasManifest(after) && LastManifest(after) == m.data
  }

  lemma OneMoreFile(m: Member, after: seq<Member>, before: seq<Member>, last: Member)
    requires ManifestAdded(m, after, before) && last.name != MANIFEST_MEMBER
    ensures ManifestAdded(m, after + [last], before + [last])
  {
    OneMore(after, last);
    OneMore(before, last);
  }

  lemma InsertedLast(m: Member, ms: seq<Member>)
    requires m.name == MANIFEST_MEMBER
    ensures ManifestAdded(m, ms + [m], ms)
  {
    OneMore(ms, m);
  }

  lemma Regroup<T>(a: seq<T>, b: seq<T>, x: T)
    ensures a + (b + [x]) == (a + b) + [x]
  {
  }

  lemma {:induction false} InsertedBefore(m: Member, a: seq<Member>, b: seq<Member>)
    requires m.name == MANIFEST_MEMBER && forall x | x in b :: x.name != MANIFEST_MEMBER
    ensures ManifestAdded(m, a + [m] + b, a + b)
  {
    if b == [] {
      InsertedLast(m, a);
      assert a + [m] + b == a + [m] && a + b == a;
    } else {
      var front, last := b[..|b| - 1], b[|b| - 1];
      assert b == front + [last];
      InsertedBefore(m, a, front);
      OneMoreFile(m, a + [m] + front, a + front, last);
      Regroup(a + [m], front, last);
      Regroup(a, front, last);
    }
  }

  /** A member is inserted before members with greater names only. */
  lemma {:induction false} InsertSplits(m: Member, ms: seq<Member>) returns (a: seq<Member>, b: seq<Member>)
    ensures ms == a + b && Insert(m, ms) == a + [m] + b
    ensures forall x | x in b :: x.name != m.name
  {
    if ms != [] && Before(m.name, ms[|ms| - 1].name) {
      var last := ms[|ms| - 1];
      BeforeIsTotal(m.name, last.name);
      a, b := InsertSplits(m, ms[..|ms| - 1]);
      assert a + [m] + (b + [last]) == (a + [m] + b) + [last];
      assert a + (b + [last]) == (a + b) + [last];
      b := b + [last];
    } else {
      a, b := ms, [];
      assert ms + [] == ms && ms + [m] + [] == ms + [m];
    }
  }

  /** Inserting a manifest changes no file, and it becomes the manifest that counts. */
  lemma InsertManifest(m: Member, ms: seq<Member>)
    requires m.name == MANIFEST_MEMBER
    ensures ManifestAdded(m, Insert(m, ms), ms)
  {
    var a, b := InsertSplits(m, ms);
    InsertedBefore(m, a, b);
  }

  lemma {:induction false} AllAreFiles(ms: seq<Member>)
    requires forall m | m in ms :: m.name != MANIFEST_MEMBER
    ensures FilesIn(ms) == ms && FileNames(ms) == NamesOf(ms)
  {
    if ms != [] {
      var front, last := ms[..|ms| - 1], ms[|ms| - 1];
      assert ms == front + [last] && last in ms && forall m | m in front :: m in ms;
      AllAreFiles(front);
      OneMore(front, last);
      FileNamesAreNamesOfFiles(ms);
    }
  }

  lemma {:induction false} FewerFiles(ms: seq<Member>)
    requires exists m | m in ms :: m.name == MANIFEST_MEMBER
    ensures |FilesIn(ms)| < |ms|
  {
    var front, last := ms[..|ms| - 1], ms[|ms| - 1];
    assert ms == front + [last];
    OneMore(front, last);
    if last.name != MANIFEST_MEMBER {
      FewerFiles(front);
    }
  }

  lemma ExpectedSnoc(entries: seq<Option<Entry>>, e: Entry)
    requires Expected(entries).Some?
    ensures Expected(entries + [Some(e)]) == Some(Expected(entries).value[e.name := (e.size, e.sha256)])
  {
    assert (entries + [Some(e)])[..|entries|] == entries;
  }

  lemma EntriesSnoc(ms: seq<Member>)
    requires ms != []
    ensures Entries(ms) == Entries(ms[..|ms| - 1]) + [EntryOf(ms[|ms| - 1])]
  {
  }

  /** The entries state each member's size and digest. */
  ghost predicate StateAll(expected: Option<map<string, (int, Content)>>, ms: seq<Member>) {
    && expected.Some? && expected.value.Keys == NameSet(ms)
    && forall m | m in ms :: m.data.Some? && m.name in expected.value && expected.value[m.name] == (Size(m.data.value), m.data.value)
  }

  lemma StateOneMore(entries: seq<Option<Entry>>, front: seq<Member>, last: Member)
    requires StateAll(Expected(entries), front) && last.data.Some? && last.name !in NameSet(front)
    ensures StateAll(Expected(entries + [EntryOf(last)]), front + [last])
  {
    ExpectedSnoc(entries, EntryOf(last).value);
    NameSetSnoc(front, last);
    assert forall m | m in front :: m.name in NameSet(front);
  }

  lemma {:induction false} EntriesState(ms: seq<Member>)
    requires DistinctNames(ms) && forall m | m in ms :: m.data.Some?
    ensures StateAll(Expected(Entries(ms)), ms)
  {
    if ms != [] {
      var front, last := ms[..|ms| - 1], ms[|ms| - 1];
      assert ms == front + [last];
      DistinctSnoc(ms);
      EntriesState(front);
      StateOneMore(Entries(front), front, last);
      EntriesSnoc(ms);
    }
  }

  lemma MemberFacts(files: seq<File>)
    ensures forall m | m in Members(files) :: m.regular && m.data.Some? && m.declared == Size(m.data.value)
    ensures forall m | m in Members(files) :: exists f :: f in files && m == MemberOf(f)
    ensures forall f | f in files :: MemberOf(f) in Members(files)
  {
    forall m | m in Members(files)
      ensures exists f :: f in files && m == MemberOf(f)
    {
      var i :| 0 <= i < |files| && Members(files)[i] == m;
      assert files[i] in files;
    }
    forall f | f in files
      ensures MemberOf(f) in Members(files)
    {
      var i :| 0 <= i < |files| && files[i] == f;
      assert Members(files)[i] == MemberOf(f);
    }
  }

  /** Room for the manifest beside the files, which the builder does not check. */
  predicate RoomForManifest(files: seq<File>, limits: Limits, length: nat) {
    && |files| + 1 <= limits.maxEntries && length <= limits.maxMember
    && TotalDeclared(Members(files)) + length <= limits.maxExpanded
  }

  predicate NamesValid(files: seq<File>) {
    forall f | f in files :: ValidName(f.name)
  }

  lemma PackedIsPermutation(files: seq<File>, length: nat)
    ensures multiset(Packed(files, length)) == multiset(Members(files) + [ManifestMember(Sort(Members(files)), length)])
  {
    SortIsPermutation(Members(files));
    InsertIsPermutation(ManifestMember(Sort(Members(files)), length), Sort(Members(files)));
  }

  lemma PackedMembers(files: seq<File>, length: nat)
    ensures var m := ManifestMember(Sort(Members(files)), length);
            forall x :: x in Packed(files, length) <==> x in Members(files) || x == m
  {
    var all, packed := Members(files) + [ManifestMember(Sort(Members(files)), length)], Packed(files, length);
    PackedIsPermutation(files, length);
    SameMembers(packed, all);
    SameMembers(all, packed);
  }

  lemma PackedSize(files: seq<File>, length: nat)
    ensures TotalDeclared(Packed(files, length)) == TotalDeclared(Members(files)) + length
    ensures |Packed(files, length)| == |files| + 1
  {
    var ms, m, packed := Members(files), ManifestMember(Sort(Members(files)), length), Packed(files, length);
    PackedIsPermutation(files, length);
    SameTotal(packed, ms + [m]);
    assert |packed| == |multiset(packed)| == |multiset(ms + [m])| == |ms| + 1;
    assert (ms + [m])[..|ms|] == ms;
  }

  lemma {:induction false} PackedMembersFit(valid: string -> bool, files: seq<File>, limits: Limits, length: nat)
    requires valid(MANIFEST_MEMBER) && (forall f | f in files :: valid(f.name)) && BuildFits(files, limits)
    ensures (forall m | m in Packed(files, length) :: valid(m.name) && m.regular && m.declared <= limits.maxMember) <==> length <= limits.maxMember
  {
    var m := ManifestMember(Sort(Members(files)), length);
    PackedMembers(files, length);
    MemberFacts(files);
    assert m in Packed(files, length) && m.declared == length;
    forall x | x in Members(files)
      ensures valid(x.name) && x.regular && x.declared <= limits.maxMember
    {
      var f :| f in files && x == MemberOf(f);
    }
  }

  lemma {:induction false} PackedHeadersFor(valid: string -> bool, files: seq<File>, limits: Limits, length: nat)
    requires valid(MANIFEST_MEMBER) && (forall f | f in files :: valid(f.name)) && BuildFits(files, limits)
    ensures |Packed(files, length)| <= limits.maxEntries && HeadersFit(valid, Packed(files, length), limits)
            <==> RoomForManifest(files, limits, length)
  {
    PackedSize(files, length);
    PackedMembersFit(valid, files, limits, length);
    HeadersMean(valid, Packed(files, length), limits);
  }

  /** The headers of the builder's archive pass exactly when the manifest fits too. */
  lemma PackedHeaders(files: seq<File>, limits: Limits, length: nat)
    requires NamesValid(files) && BuildFits(files, limits)
    ensures |Packed(files, length)| <= limits.maxEntries && HeadersFit(ValidName, Packed(files, length), limits)
            <==> RoomForManifest(files, limits, length)
  {
    ManifestNameIsValid();
    PackedHeadersFor(ValidName, files, limits, length);
  }

  lemma SortedFacts(files: seq<File>)
    requires DistinctNames(Members(files))
    ensures DistinctNames(Sort(Members(files))) && |Sort(Members(files))| == |files|
    ensures forall m :: m in Sort(Members(files)) <==> m in Members(files)
    ensures multiset(NamesOf(Sort(Members(files)))) == multiset(NamesOf(Members(files)))
  {
    var ms, sorted := Members(files), Sort(Members(files));
    SortIsPermutation(ms);
    DistinctPermuted(ms, sorted);
    SameMembers(ms, sorted);
    SameMembers(sorted, ms);
    assert |sorted| == |multiset(sorted)| == |multiset(ms)| == |ms|;
    NamesPermuted(ms, sorted);
  }

  lemma {:induction false} NamesPermuted(a: seq<Member>, b: seq<Member>)
    requires multiset(a) == multiset(b)
    ensures multiset(NamesOf(a)) == multiset(NamesOf(b))
  {
    if a == [] {
      assert |b| == |multiset(b)| == 0;
    } else {
      var last := a[|a| - 1];
      assert last in multiset(a) && last in multiset(b) && last in b;
      var i :| 0 <= i < |b| && b[i] == last;
      var left, right := b[..i], b[i + 1..];
      assert b == left + [last] + right;
      RestMatches(a, left, last, right);
      NamesPermuted(a[..|a| - 1], left + right);
      NamesTakeOut(left, last, right);
      assert NamesOf(a) == NamesOf(a[..|a| - 1]) + [last.name];
    }
  }

  lemma {:induction false} NamesConcat(a: seq<Member>, b: seq<Member>)
    ensures NamesOf(a + b) == NamesOf(a) + NamesOf(b)
  {
    if b == [] {
      assert a + b == a;
    } else {
      var front, last := b[..|b| - 1], b[|b| - 1];
      NamesConcat(a, front);
      assert a + b == (a + front) + [last] && b == front + [last];
      NamesSnoc(a + front, last);
      NamesSnoc(front, last);
    }
  }

  lemma NamesTakeOut(left: seq<Member>, m: Member, right: seq<Member>)
    ensures multiset(NamesOf(left + [m] + right)) == multiset(NamesOf(left + right)) + multiset{m.name}
  {
    NamesConcat(left + [m], right);
    NamesSnoc(left, m);
    NamesConcat(left, right);
  }

  /** Every member of the builder's archive can be read. */
  lemma PackedIsReadable(files: seq<File>, length: nat)
    ensures Readable(Packed(files, length))
  {
    PackedMembers(files, length);
    MemberFacts(files);
  }

  /** What was written, and the builder's entries, agree. */
  lemma {:induction false} WrittenAgrees(key: string -> string, p: Progress, sorted: seq<Member>)
    requires HoldsFiles(key, p, sorted) && DistinctNames(sorted)
    ensures |p.digests| == |sorted|
    ensures Expected(Entries(sorted)).Some? && Agrees(key, p.tree, p.digests, Expected(Entries(sorted)).value)
  {
    assert forall m | m in sorted :: HoldsFile(key, p, m) && m.data.Some?;
    EntriesState(sorted);
    DistinctByCount(sorted);
    assert |p.digests| == |p.digests.Keys|;
    forall name | name in NameSet(sorted)
      ensures name in p.digests && key(name) in p.tree.files
      ensures Expected(Entries(sorted)).value[name] == (Size(p.tree.files[key(name)]), p.digests[name])
    {
      var x :| x in sorted && x.name == name;
      assert HoldsFile(key, p, x);
    }
  }

  lemma PackedFiles(files: seq<File>, length: nat)
    requires DistinctNames(Members(files)) && forall f | f in files :: f.name != MANIFEST_MEMBER
    ensures FilesIn(Packed(files, length)) == Sort(Members(files))
    ensures LastManifest(Packed(files, length)) == Some(ManifestText(ManifestOf(Sort(Members(files))), length))
  {
    var sorted := Sort(Members(files));
    SortedFacts(files);
    MemberFacts(files);
    AllAreFiles(sorted);
    InsertManifest(ManifestMember(sorted, length), sorted);
  }

  /** With good names, and none of them the manifest's, the builder's manifest holds of what is written. */
  lemma {:induction false} PackedManifestHolds(key: string -> string, files: seq<File>, length: nat)
    requires DistinctNames(Members(files)) && forall f | f in files :: f.name != MANIFEST_MEMBER
    requires GoodNames(key, FileNames(Packed(files, length)))
    ensures Written(key, Packed(files, length)).Some?
    ensures var p := Written(key, Packed(files, length)).value;
            ManifestHolds(key, p, TotalDeclared(FilesIn(Packed(files, length)))) && Holds(key, p, Packed(files, length))
    ensures FilesIn(Packed(files, length)) == Sort(Members(files))
  {
    var packed := Packed(files, length);
    PackedIsReadable(files, length);
    WritingNeverInterferes(key, packed);
    WrittenHolds(key, packed);
    PackedFiles(files, length);
    SortedFacts(files);
    WrittenAgrees(key, Written(key, packed).value, Sort(Members(files)));
  }

  /** A file with the manifest's own name makes the archive's manifest count one file too many. */
  lemma {:induction false} ManifestNamedFileSpoils(key: string -> string, files: seq<File>, length: nat)
    requires exists f | f in files :: f.name == MANIFEST_MEMBER
    requires DistinctNames(Members(files)) && GoodNames(key, FileNames(Packed(files, length)))
    requires Written(key, Packed(files, length)).Some?
    ensures !ManifestHolds(key, Written(key, Packed(files, length)).value, TotalDeclared(FilesIn(Packed(files, length))))
  {
    var sorted, packed := Sort(Members(files)), Packed(files, length);
    SortedFacts(files);
    MemberFacts(files);
    var f :| f in files && f.name == MANIFEST_MEMBER;
    assert MemberOf(f) in sorted;
    FewerFiles(sorted);
    InsertManifest(ManifestMember(sorted, length), sorted);
    WrittenHolds(key, packed);
    var p := Written(key, packed).value;
    DistinctByCount(FilesIn(packed));
    assert |p.digests| == |p.digests.Keys| < |sorted|;
  }

  lemma {:induction false} PackedNamesGood(lower: string -> string, files: seq<File>, length: nat)
    requires DistinctNames(Members(files)) && forall f | f in files :: f.name != MANIFEST_MEMBER
    ensures GoodNames(lower, FileNames(Packed(files, length))) <==> GoodNames(lower, NamesOf(Members(files)))
  {
    var sorted := Sort(Members(files));
    SortedFacts(files);
    MemberFacts(files);
    AllAreFiles(sorted);
    InsertManifest(ManifestMember(sorted, length), sorted);
    GoodNamesPermuted(lower, NamesOf(sorted), NamesOf(Members(files)));
  }

  lemma {:induction false} OrdinaryFilesRoundTrip(key: string -> string, lower: string -> string, files: seq<File>, limits: Limits, length: nat)
    requires Finer(key, lower) && DistinctNames(Members(files)) && forall f | f in files :: f.name != MANIFEST_MEMBER
    ensures ExtractOf(key, lower, limits, Packed(files, length)).Some? <==> WellFormed(lower, Packed(files, length), limits)
  {
    if WellFormed(lower, Packed(files, length), limits) {
      FinerKeepsGood(key, lower, FileNames(Packed(files, length)));
      PackedManifestHolds(key, files, length);
    }
  }

  lemma {:induction false} ManifestNamedFileFails(key: string -> string, lower: string -> string, files: seq<File>, limits: Limits, length: nat)
    requires Finer(key, lower) && DistinctNames(Members(files)) && exists f | f in files :: f.name == MANIFEST_MEMBER
    ensures ExtractOf(key, lower, limits, Packed(files, length)).None?
  {
    var packed := Packed(files, length);
    if WellFormed(lower, packed, limits) && Written(key, packed).Some? {
      FinerKeepsGood(key, lower, FileNames(packed));
      ManifestNamedFileSpoils(key, files, length);
    }
  }

  lemma {:induction false} PackedWellFormed(lower: string -> string, files: seq<File>, limits: Limits, length: nat)
    requires NamesValid(files) && BuildFits(files, limits)
    ensures WellFormed(lower, Packed(files, length), limits) <==>
              RoomForManifest(files, limits, length) && GoodNames(lower, FileNames(Packed(files, length)))
  {
    InsertManifest(ManifestMember(Sort(Members(files)), length), Sort(Members(files)));
    PackedHeaders(files, limits, length);
  }

  /** Extracting what was built succeeds exactly when the names pass the check, none of them is the manifest's own, and
      the manifest fits the limits beside the files; the builder itself checks none of the three. */
  lemma {:induction false} RoundTripExactly(key: string -> string, lower: string -> string, files: seq<File>, limits: Limits, length: nat)
    requires Finer(key, lower) && DistinctNames(Members(files)) && NamesValid(files) && BuildFits(files, limits)
    ensures ExtractOf(key, lower, limits, Packed(files, length)).Some? <==>
              && GoodNames(lower, NamesOf(Members(files)))
              && (forall f | f in files :: f.name != MANIFEST_MEMBER)
              && RoomForManifest(files, limits, length)
  {
    if forall f | f in files :: f.name != MANIFEST_MEMBER {
      OrdinaryFilesRoundTrip(key, lower, files, limits, length);
      PackedWellFormed(lower, files, limits, length);
      PackedNamesGood(lower, files, length);
    } else {
      ManifestNamedFileFails(key, lower, files, limits, length);
    }
  }

  /** And what comes out is what went in, file by file and nothing else. */
  lemma {:induction false} RoundTripRestores(key: string -> string, lower: string -> string, files: seq<File>, limits: Limits, length: nat)
    requires Finer(key, lower) && DistinctNames(Members(files)) && NamesValid(files) && BuildFits(files, limits)
    requires ExtractOf(key, lower, limits, Packed(files, length)).Some?
    ensures var tree := ExtractOf(key, lower, limits, Packed(files, length)).value;
            && |tree.files| == |files|
            && forall f | f in files :: key(f.name) in tree.files && tree.files[key(f.name)] == f.content
  {
    RoundTripExactly(key, lower, files, limits, length);
    FinerKeepsGood(key, lower, FileNames(Packed(files, length)));
    PackedManifestHolds(key, files, length);
    AcceptedArchivesAreSound(key, lower, limits, Packed(files, length));
    SortedFacts(files);
    MemberFacts(files);
    FileNamesAreNamesOfFiles(Packed(files, length));
    forall f | f in files
      ensures key(f.name) in ExtractOf(key, lower, limits, Packed(files, length)).value.files
      ensures ExtractOf(key, lower, limits, Packed(files, length)).value.files[key(f.name)] == f.content
    {
      assert MemberOf(f) in FilesIn(Packed(files, length));
    }
  }
}
