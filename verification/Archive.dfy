/** The deterministic archive: its builder and its strict, atomic extractor (archive_profile.py). */
module Archive {
  import opened Common
  import opened ArchiveNames

  const MANIFEST_MEMBER := "manifest.sha256.json"

  /** File contents; a manifest's text is kept parsed, with its length in bytes. A digest is the content it is of. */
  datatype Content = Raw(bytes: Bytes) | ManifestText(manifest: Manifest, length: nat)

  /** The members of the manifest's JSON object; None where the member is missing or has the wrong type. */
  datatype Manifest = Manifest(profileMatches: bool, memberCount: Option<int>, totalBytes: Option<int>, files: Option<seq<Option<Entry>>>)

  datatype Entry = Entry(name: string, size: int, sha256: Content)

  /** One archive member: its header, and what reading it yields if the stored bytes pass their own check. */
  datatype Member = Member(name: string, regular: bool, declared: nat, data: Option<Content>)

  datatype Limits = Limits(maxEntries: nat, maxExpanded: nat, maxMember: nat)

  function Size(c: Content): nat {
    match c
    case Raw(bytes) => |bytes|
    case ManifestText(_, length) => length
  }

  // ---------------------------------------------------------------- order

  /** The order of the names' bytes, which for UTF-8 is the order of their code points. */
  predicate Before(a: string, b: string) {
    if b == "" then false
    else if a == "" then true
    else a[0] < b[0] || (a[0] == b[0] && Before(a[1..], b[1..]))
  }

  lemma {:induction false} BeforeIsTotal(a: string, b: string)
    ensures !Before(a, a)
    ensures a != b ==> Before(a, b) || Before(b, a)
    ensures !(Before(a, b) && Before(b, a))
  {
    if a != "" {
      BeforeIsTotal(a[1..], if b == "" then "" else b[1..]);
      assert a == [a[0]] + a[1..];
    }
    if b != "" {
      assert b == [b[0]] + b[1..];
    }
  }

  lemma {:induction false} BeforeIsTransitive(a: string, b: string, c: string)
    requires Before(a, b) && Before(b, c)
    ensures Before(a, c)
  {
    if a != "" && a[0] == b[0] && b[0] == c[0] {
      BeforeIsTransitive(a[1..], b[1..], c[1..]);
    }
  }

  /** Putting a member behind every member whose name is not greater. */
  function Insert(m: Member, ms: seq<Member>): seq<Member> {
    if ms != [] && Before(m.name, ms[|ms| - 1].name) then Insert(m, ms[..|ms| - 1]) + [ms[|ms| - 1]] else ms + [m]
  }

  /** A stable sort by name. */
  function Sort(ms: seq<Member>): seq<Member> {
    if ms == [] then [] else Insert(ms[|ms| - 1], Sort(ms[..|ms| - 1]))
  }

  predicate Sorted(ms: seq<Member>) {
    forall i, j | 0 <= i < j < |ms| :: Before(ms[i].name, ms[j].name)
  }

  predicate DistinctNames(ms: seq<Member>) {
    forall i, j | 0 <= i < j < |ms| :: ms[i].name != ms[j].name
  }

  lemma {:induction false} InsertIsPermutation(m: Member, ms: seq<Member>)
    ensures multiset(Insert(m, ms)) == multiset(ms) + multiset{m}
  {
    if ms != [] && Before(m.name, ms[|ms| - 1].name) {
      InsertIsPermutation(m, ms[..|ms| - 1]);
      assert ms == ms[..|ms| - 1] + [ms[|ms| - 1]];
    }
  }

  lemma SplitLast(ms: seq<Member>)
    requires ms != []
    ensures multiset(ms) == multiset(ms[..|ms| - 1]) + multiset{ms[|ms| - 1]}
  {
    assert ms == ms[..|ms| - 1] + [ms[|ms| - 1]];
  }

  lemma {:induction false} SortIsPermutation(ms: seq<Member>)
    ensures multiset(Sort(ms)) == multiset(ms)
  {
    if ms != [] {
      SortIsPermutation(ms[..|ms| - 1]);
      InsertIsPermutation(ms[|ms| - 1], Sort(ms[..|ms| - 1]));
      SplitLast(ms);
    }
  }

  lemma {:induction false} InsertIsSorted(m: Member, ms: seq<Member>)
    requires Sorted(ms) && forall x | x in ms :: x.name != m.name
    ensures Sorted(Insert(m, ms))
  {
    if ms != [] {
      var front, last := ms[..|ms| - 1], ms[|ms| - 1];
      assert last in ms;
      BeforeIsTotal(m.name, last.name);
      if Before(m.name, last.name) {
        assert forall x | x in front :: x in ms;
        InsertIsSorted(m, front);
        InsertIsPermutation(m, front);
        forall x | x in Insert(m, front)
          ensures Before(x.name, last.name)
        {
          assert x in multiset(Insert(m, front));
          if x != m {
            assert x in multiset(front) && x in front;
            var i :| 0 <= i < |front| && front[i] == x;
            assert ms[i] == x;
          }
        }
      } else {
        forall i | 0 <= i < |ms|
          ensures Before(ms[i].name, m.name)
        {
          if i < |ms| - 1 {
            BeforeIsTransitive(ms[i].name, last.name, m.name);
          }
        }
      }
    }
  }

  lemma {:induction false} SortIsSorted(ms: seq<Member>)
    requires DistinctNames(ms)
    ensures Sorted(Sort(ms))
  {
    if ms != [] {
      var front, last := ms[..|ms| - 1], ms[|ms| - 1];
      SortIsSorted(front);
      SortIsPermutation(front);
      forall x | x in Sort(front)
        ensures x.name != last.name
      {
        assert x in multiset(Sort(front)) && x in multiset(front) && x in front;
        var i :| 0 <= i < |front| && front[i] == x;
        assert ms[i] == x;
      }
      InsertIsSorted(last, Sort(front));
    }
  }

  lemma SplitFirst(ms: seq<Member>)
    requires ms != []
    ensures multiset(ms[1..]) == multiset(ms) - multiset{ms[0]} && ms == [ms[0]] + ms[1..]
  {
    assert ms == [ms[0]] + ms[1..];
  }

  lemma RestIsSorted(ms: seq<Member>)
    requires Sorted(ms) && ms != []
    ensures Sorted(ms[1..])
  {
  }

  /** Two sorted sequences with the same members are equal. */
  lemma {:induction false} SortedIsUnique(a: seq<Member>, b: seq<Member>)
    requires Sorted(a) && Sorted(b) && multiset(a) == multiset(b)
    ensures a == b
  {
    assert |b| == |multiset(b)| == |multiset(a)| == |a|;
    if a != [] {
      FirstIsLeast(a, b);
      FirstIsLeast(b, a);
      BeforeIsTotal(a[0].name, b[0].name);
      SplitFirst(a);
      SplitFirst(b);
      RestIsSorted(a);
      RestIsSorted(b);
      SortedIsUnique(a[1..], b[1..]);
    }
  }

  lemma FirstIsLeast(a: seq<Member>, b: seq<Member>)
    requires Sorted(a) && a != [] && b != [] && multiset(a) == multiset(b)
    ensures b[0] == a[0] || Before(a[0].name, b[0].name)
  {
    assert b[0] in multiset(b) && b[0] in multiset(a) && b[0] in a;
    var i :| 0 <= i < |a| && a[i] == b[0];
  }

  // ---------------------------------------------------------------- the builder

  datatype File = File(name: string, content: Content)

  function MemberOf(f: File): Member {
    Member(f.name, true, Size(f.content), Some(f.content))
  }

  function Members(files: seq<File>): (ms: seq<Member>)
    ensures |ms| == |files| && forall i | 0 <= i < |files| :: ms[i] == MemberOf(files[i])
  {
    if files == [] then [] else Members(files[..|files| - 1]) + [MemberOf(files[|files| - 1])]
  }

  function TotalDeclared(ms: seq<Member>): nat {
    if ms == [] then 0 else TotalDeclared(ms[..|ms| - 1]) + ms[|ms| - 1].declared
  }

  function EntryOf(m: Member): Option<Entry> {
    if m.data.Some? then Some(Entry(m.name, Size(m.data.value), m.data.value)) else None
  }

  function Entries(ms: seq<Member>): (es: seq<Option<Entry>>)
    ensures |es| == |ms| && forall i | 0 <= i < |ms| :: es[i] == EntryOf(ms[i])
  {
    if ms == [] then [] else Entries(ms[..|ms| - 1]) + [EntryOf(ms[|ms| - 1])]
  }

  function ManifestOf(sorted: seq<Member>): Manifest {
    Manifest(true, Some(|sorted|), Some(TotalDeclared(sorted)), Some(Entries(sorted)))
  }

  function ManifestMember(sorted: seq<Member>, length: nat): Member {
    Member(MANIFEST_MEMBER, true, length, Some(ManifestText(ManifestOf(sorted), length)))
  }

  /** The archive of the files, in any order they were found; `length` is the length of the manifest's text. */
  function Packed(files: seq<File>, length: nat): seq<Member> {
    Insert(ManifestMember(Sort(Members(files)), length), Sort(Members(files)))
  }

  predicate MembersFit(ms: seq<Member>, limits: Limits) {
    && |ms| <= limits.maxEntries
    && (forall m | m in ms :: m.declared <= limits.maxMember)
    && TotalDeclared(ms) <= limits.maxExpanded
  }

  /** What the builder checks: the files alone, without the manifest. */
  predicate BuildFits(files: seq<File>, limits: Limits) {
    MembersFit(Members(files), limits)
  }

  lemma FitsPermuted(a: seq<Member>, b: seq<Member>, limits: Limits)
    requires multiset(a) == multiset(b) && MembersFit(a, limits)
    ensures MembersFit(b, limits)
  {
    SameTotal(a, b);
    SameMembers(b, a);
    assert |a| == |multiset(a)| == |multiset(b)| == |b|;
  }

  lemma SortedFits(files: seq<File>, limits: Limits)
    ensures MembersFit(Sort(Members(files)), limits) <==> BuildFits(files, limits)
  {
    SortIsPermutation(Members(files));
    if BuildFits(files, limits) {
      FitsPermuted(Members(files), Sort(Members(files)), limits);
    } else if MembersFit(Sort(Members(files)), limits) {
      FitsPermuted(Sort(Members(files)), Members(files), limits);
    }
  }

  /** The manifest of the sorted members, with running totals against the limits. */
  method DescribeMembers(sorted: seq<Member>, limits: Limits) returns (manifest: Option<Manifest>)
    requires |sorted| <= limits.maxEntries
    ensures manifest == if MembersFit(sorted, limits) then Some(ManifestOf(sorted)) else None
  {
    var total := 0;
    var entries: seq<Option<Entry>> := [];
    for i := 0 to |sorted|
      invariant total == TotalDeclared(sorted[..i]) <= limits.maxExpanded
      invariant entries == Entries(sorted[..i])
      invariant forall j | 0 <= j < i :: sorted[j].declared <= limits.maxMember
    {
      assert sorted[..i + 1][..i] == sorted[..i];
      if sorted[i].declared > limits.maxMember {
        assert sorted[i] in sorted;
        return None;
      }
      total := total + sorted[i].declared;
      if total > limits.maxExpanded {
        PrefixTotal(sorted, i + 1);
        return None;
      }
      entries := entries + [EntryOf(sorted[i])];
    }
    assert sorted[..|sorted|] == sorted;
    return Some(Manifest(true, Some(|sorted|), Some(total), Some(entries)));
  }

  /** `build_archive`; what it refuses is a file too many, a file too long, or too many bytes. */
  method BuildArchive(files: seq<File>, limits: Limits, length: nat) returns (archive: Option<seq<Member>>)
    ensures archive == if BuildFits(files, limits) then Some(Packed(files, length)) else None
  {
    var sorted := Sort(Members(files));
    SortedFits(files, limits);
    if |sorted| > limits.maxEntries {
      return None;
    }
    var manifest := DescribeMembers(sorted, limits);
    if manifest.None? {
      return None;
    }
    return Some(Insert(Member(MANIFEST_MEMBER, true, length, Some(ManifestText(manifest.value, length))), sorted));
  }

  lemma {:induction false} TotalAppend(a: seq<Member>, b: seq<Member>)
    ensures TotalDeclared(a + b) == TotalDeclared(a) + TotalDeclared(b)
  {
    if b == [] {
      assert a + b == a;
    } else {
      assert (a + b)[..|a + b| - 1] == a + b[..|b| - 1];
      TotalAppend(a, b[..|b| - 1]);
    }
  }

  lemma PrefixTotal(ms: seq<Member>, n: nat)
    requires n <= |ms|
    ensures TotalDeclared(ms[..n]) <= TotalDeclared(ms)
  {
    TotalAppend(ms[..n], ms[n..]);
    assert ms == ms[..n] + ms[n..];
  }

  lemma TakeOut(a: seq<Member>, m: Member, b: seq<Member>)
    ensures multiset(a + [m] + b) == multiset(a + b) + multiset{m}
    ensures TotalDeclared(a + [m] + b) == TotalDeclared(a + b) + m.declared
  {
    TotalAppend(a + [m], b);
    TotalAppend(a, [m]);
    TotalAppend(a, b);
    assert [m][..0] == [];
  }

  lemma RestMatches(a: seq<Member>, left: seq<Member>, m: Member, right: seq<Member>)
    requires a != [] && a[|a| - 1] == m && multiset(a) == multiset(left + [m] + right)
    ensures multiset(a[..|a| - 1]) == multiset(left + right)
  {
    SplitLast(a);
    TakeOut(left, m, right);
    assert multiset(a[..|a| - 1]) == multiset(a) - multiset{m};
    assert multiset(left + right) == multiset(left + [m] + right) - multiset{m};
  }

  lemma {:induction false} SameTotal(a: seq<Member>, b: seq<Member>)
    requires multiset(a) == multiset(b)
    ensures TotalDeclared(a) == TotalDeclared(b)
  {
    if a == [] {
      assert |b| == |multiset(b)| == 0;
    } else {
      var last := a[|a| - 1];
      assert last in multiset(a) && last in multiset(b) && last in b;
      var i :| 0 <= i < |b| && b[i] == last;
      var left, right := b[..i], b[i + 1..];
      assert b == left + [last] + right;
      RestMatches(a, left, last, right);
      SameTotal(a[..|a| - 1], left + right);
      TakeOut(left, last, right);
    }
  }

  /** The archive depends on the name-to-bytes map alone: files found in another order give the same archive. */
  lemma BuildIgnoresScanOrder(a: seq<File>, b: seq<File>, length: nat)
    requires DistinctNames(Members(a)) && multiset(Members(a)) == multiset(Members(b))
    ensures Packed(a, length) == Packed(b, length)
  {
    SortIsPermutation(Members(a));
    SortIsPermutation(Members(b));
    SortIsSorted(Members(a));
    DistinctPermuted(Members(a), Members(b));
    SortIsSorted(Members(b));
    SortedIsUnique(Sort(Members(a)), Sort(Members(b)));
  }

  function NamesOf(ms: seq<Member>): (names: seq<string>)
    ensures |names| == |ms| && forall i | 0 <= i < |ms| :: names[i] == ms[i].name
  {
    if ms == [] then [] else NamesOf(ms[..|ms| - 1]) + [ms[|ms| - 1].name]
  }

  function NameSet(ms: seq<Member>): (names: set<string>)
    ensures forall m | m in ms :: m.name in names
    ensures forall name | name in names :: exists m :: m in ms && m.name == name
  {
    if ms == [] then {} else NameSet(ms[..|ms| - 1]) + {ms[|ms| - 1].name}
  }

  lemma NameIsAt(ms: seq<Member>, name: string) returns (i: nat)
    requires name in NameSet(ms)
    ensures i < |ms| && ms[i].name == name
  {
    var m :| m in ms && m.name == name;
    i :| 0 <= i < |ms| && ms[i] == m;
  }

  lemma DistinctSnoc(ms: seq<Member>)
    requires ms != []
    ensures DistinctNames(ms) <==> DistinctNames(ms[..|ms| - 1]) && ms[|ms| - 1].name !in NameSet(ms[..|ms| - 1])
  {
    var front, last := ms[..|ms| - 1], ms[|ms| - 1];
    assert forall i | 0 <= i < |front| :: front[i] == ms[i] && front[i] in front;
    if last.name in NameSet(front) {
      var i := NameIsAt(front, last.name);
      assert ms[i].name == ms[|ms| - 1].name;
    }
  }

  /** Names are distinct exactly when they are as many as the members. */
  lemma {:induction false} DistinctByCount(ms: seq<Member>)
    ensures DistinctNames(ms) <==> |NameSet(ms)| == |ms|
    ensures |NameSet(ms)| <= |ms|
  {
    if ms != [] {
      DistinctByCount(ms[..|ms| - 1]);
      DistinctSnoc(ms);
    }
  }

  lemma DistinctPermuted(a: seq<Member>, b: seq<Member>)
    requires DistinctNames(a) && multiset(a) == multiset(b)
    ensures DistinctNames(b)
  {
    DistinctByCount(a);
    DistinctByCount(b);
    SameMembers(a, b);
    SameMembers(b, a);
    assert NameSet(a) == NameSet(b);
    assert |a| == |multiset(a)| == |multiset(b)| == |b|;
  }
}
