/** Member names of the archive profile, and what files of those names do to a disk (archive_profile.py). */
module ArchiveNames {
  import opened Common

  // ---------------------------------------------------------------- one name

  function Utf8Length(s: string): nat {
    if s == "" then 0
    else
      var c := s[|s| - 1] as int;
      Utf8Length(s[..|s| - 1]) + if c < 0x80 then 1 else if c < 0x800 then 2 else if c < 0x1_0000 then 3 else 4
  }

  function Components(name: string): (parts: seq<string>)
    ensures |parts| > 0
  {
    if name == "" then [""]
    else
      var front := Components(name[..|name| - 1]);
      var c := name[|name| - 1];
      if c == '/' then front + [""] else front[|front| - 1 := front[|front| - 1] + [c]]
  }

  function AsciiLower(c: char): char {
    if 'A' <= c <= 'Z' then (c as int + 32) as char else c
  }

  predicate IsDevice(stem: string) {
    var s := seq(|stem|, i requires 0 <= i < |stem| => AsciiLower(stem[i]));
    || s in {"con", "prn", "aux", "nul"}
    || (|s| == 4 && s[..3] in {"com", "lpt"} && '1' <= s[3] <= '9')
  }

  /** A device name alone or before a dot; a final line break does not hide it. */
  predicate DeviceName(component: string) {
    var body := if component != "" && component[|component| - 1] == '\n' then component[..|component| - 1] else component;
    exists k | 0 <= k <= |body| ::
      IsDevice(body[..k]) && (k == |body| || (body[k] == '.' && '\n' !in body[k..]))
  }

  predicate ValidComponent(component: string) {
    && component != "" && component != "." && component != ".."
    && component[|component| - 1] != '.' && component[|component| - 1] != ' '
    && !DeviceName(component)
    && Utf8Length(component) <= 255
  }

  /** `validate_member_name`. */
  predicate ValidName(name: string) {
    && name != "" && (0 as char) !in name && '\\' !in name
    && name[0] != '/' && name[|name| - 1] != '/'
    && !(|name| >= 2 && 'a' <= AsciiLower(name[0]) <= 'z' && name[1] == ':')
    && (forall component | component in Components(name) :: ValidComponent(component))
    && Utf8Length(name) <= 1024
  }

  // ---------------------------------------------------------------- a set of names

  /** The member nests under the directory whose name is its first `k` characters. */
  predicate Nests(name: string, k: int) {
    0 < k < |name| && name[k] == '/'
  }

  predicate DistinctFolds(lower: string -> string, names: seq<string>) {
    forall i, j | 0 <= i < j < |names| :: lower(names[i]) != lower(names[j])
  }

  predicate NoneNests(lower: string -> string, names: seq<string>) {
    forall i, j, k | 0 <= i < |names| && 0 <= j < |names| && 0 < k < |names[i]| ::
      Nests(names[i], k) ==> lower(names[i][..k]) != lower(names[j])
  }

  predicate GoodNames(lower: string -> string, names: seq<string>) {
    DistinctFolds(lower, names) && NoneNests(lower, names)
  }

  datatype NameVerdict = Accepted | Duplicate(name: string) | CaseClash(first: string, second: string) | Conflict(name: string, file: string)

  /** `check_name_set`; the order of `names` decides only which clash is reported. */
  method CheckNameSet(lower: string -> string, names: seq<string>) returns (verdict: NameVerdict)
    requires forall name | name in names :: ValidName(name)
    ensures verdict.Accepted? <==> GoodNames(lower, names)
    ensures verdict.Conflict? ==> DistinctFolds(lower, names) && !NoneNests(lower, names)
    ensures verdict.Duplicate? || verdict.CaseClash? ==> !DistinctFolds(lower, names)
  {
    var folded: map<string, string> := map[];
    for i := 0 to |names|
      invariant forall j | 0 <= j < i :: lower(names[j]) in folded && folded[lower(names[j])] == names[j]
      invariant forall key | key in folded :: exists j :: 0 <= j < i && lower(names[j]) == key
      invariant DistinctFolds(lower, names[..i])
    {
      var name, key := names[i], lower(names[i]);
      assert names[..i + 1] == names[..i] + [name];
      if key in folded {
        var j :| 0 <= j < i && lower(names[j]) == key;
        return if folded[key] == name then Duplicate(name) else CaseClash(folded[key], name);
      }
      folded := folded[key := name];
    }
    assert names[..|names|] == names;
    for i := 0 to |names|
      invariant forall i', j, k | 0 <= i' < i && 0 <= j < |names| && 0 < k < |names[i']| ::
                  Nests(names[i'], k) ==> lower(names[i'][..k]) != lower(names[j])
    {
      var name := names[i];
      assert name in names && ValidName(name);
      for k := 1 to |name|
        invariant forall j, k' | 0 <= j < |names| && 0 < k' < k :: Nests(name, k') ==> lower(name[..k']) != lower(names[j])
      {
        if name[k] == '/' && lower(name[..k]) in folded {
          var j :| 0 <= j < |names| && lower(names[j]) == lower(name[..k]);
          assert Nests(names[i], k) && lower(names[i][..k]) == lower(names[j]);
          return Conflict(name, folded[lower(name[..k])]);
        }
      }
    }
    return Accepted;
  }

  // ---------------------------------------------------------------- a disk

  /** Files and directories, under the keys by which the disk tells names apart. */
  datatype Tree<C> = Tree(files: map<string, C>, dirs: set<string>)

  function Parents(key: string -> string, name: string): set<string> {
    set k | 0 < k < |name| && Nests(name, k) :: key(name[..k])
  }

  /** Making the parents of a file and writing it; None when a parent is a file or the name is a directory. */
  function Put<C>(key: string -> string, tree: Tree<C>, name: string, content: C): Option<Tree<C>> {
    var dirs := tree.dirs + Parents(key, name);
    if (exists p | p in Parents(key, name) :: p in tree.files) || key(name) in dirs then None
    else Some(Tree(tree.files[key(name) := content], dirs))
  }

  function PutAll<C>(key: string -> string, names: seq<string>, contents: seq<C>): Option<Tree<C>>
    requires |names| == |contents|
  {
    if names == [] then Some(Tree(map[], {}))
    else
      match PutAll(key, names[..|names| - 1], contents[..|names| - 1])
      case None => None
      case Some(tree) => Put(key, tree, names[|names| - 1], contents[|names| - 1])
  }

  function Folds(lower: string -> string, names: seq<string>): set<string> {
    set name | name in names :: lower(name)
  }

  function AllParents(key: string -> string, names: seq<string>): set<string> {
    set i, k | 0 <= i < |names| && 0 < k < |names[i]| && Nests(names[i], k) :: key(names[i][..k])
  }

  /** What the last of several names must avoid. */
  predicate Avoids(lower: string -> string, names: seq<string>, name: string) {
    && lower(name) !in Folds(lower, names)
    && lower(name) !in AllParents(lower, names) + Parents(lower, name)
    && Parents(lower, name) !! Folds(lower, names)
  }

  lemma {:induction false} GoodNamesSnoc(lower: string -> string, names: seq<string>, name: string)
    ensures GoodNames(lower, names + [name]) <==> GoodNames(lower, names) && Avoids(lower, names, name)
  {
    var all := names + [name];
    assert forall i | 0 <= i < |names| :: all[i] == names[i];
    if GoodNames(lower, all) {
      GoodNamesLast(lower, names, name);
    } else if GoodNames(lower, names) && Avoids(lower, names, name) {
      GoodNamesBuild(lower, names, name);
    }
  }

  lemma {:induction false} GoodNamesLast(lower: string -> string, names: seq<string>, name: string)
    requires GoodNames(lower, names + [name])
    ensures GoodNames(lower, names) && Avoids(lower, names, name)
  {
    var all := names + [name];
    var last := |names|;
    assert all[last] == name && forall i | 0 <= i < |names| :: all[i] == names[i];
    forall i | 0 <= i < |names|
      ensures lower(names[i]) != lower(name)
    {
      assert lower(all[i]) != lower(all[last]);
    }
    forall i, k | 0 <= i < |all| && 0 < k < |all[i]| && Nests(all[i], k)
      ensures forall j | 0 <= j < |all| :: lower(all[i][..k]) != lower(all[j])
    {
    }
    forall p | p in AllParents(lower, names) + Parents(lower, name)
      ensures p != lower(name)
    {
      if p in AllParents(lower, names) {
        var i, k :| 0 <= i < |names| && 0 < k < |names[i]| && Nests(names[i], k) && p == lower(names[i][..k]);
        assert lower(all[i][..k]) != lower(all[last]);
      } else {
        var k :| 0 < k < |name| && Nests(name, k) && p == lower(name[..k]);
        assert lower(all[last][..k]) != lower(all[last]);
      }
    }
    forall p | p in Parents(lower, name)
      ensures p !in Folds(lower, names)
    {
      var k :| 0 < k < |name| && Nests(name, k) && p == lower(name[..k]);
      forall other | other in names
        ensures lower(other) != p
      {
        var j :| 0 <= j < |names| && names[j] == other;
        assert lower(all[last][..k]) != lower(all[j]);
      }
    }
  }

  lemma {:induction false} GoodNamesBuild(lower: string -> string, names: seq<string>, name: string)
    requires GoodNames(lower, names) && Avoids(lower, names, name)
    ensures GoodNames(lower, names + [name])
  {
    var all := names + [name];
    assert forall i | 0 <= i < |names| :: all[i] == names[i] && names[i] in names;
    forall i, j, k | 0 <= i < |all| && 0 <= j < |all| && 0 < k < |all[i]| && Nests(all[i], k)
      ensures lower(all[i][..k]) != lower(all[j])
    {
      var p := lower(all[i][..k]);
      if i < |names| {
        assert p in AllParents(lower, names);
        assert j < |names| ==> lower(names[i][..k]) != lower(names[j]);
      } else {
        assert p in Parents(lower, name);
        assert j < |names| ==> lower(names[j]) in Folds(lower, names);
      }
    }
  }

  /** What several writes leave on the disk. */
  lemma {:induction false} PutAllKeys<C>(key: string -> string, names: seq<string>, contents: seq<C>)
    requires |names| == |contents| && PutAll(key, names, contents).Some?
    ensures PutAll(key, names, contents).value.files.Keys == Folds(key, names)
    ensures PutAll(key, names, contents).value.dirs == AllParents(key, names)
  {
    if names != [] {
      var front, last := names[..|names| - 1], names[|names| - 1];
      PutAllKeys(key, front, contents[..|names| - 1]);
      FoldsSnoc(key, front, last);
      assert names == front + [last];
    }
  }

  lemma {:induction false} FoldsSnoc(key: string -> string, names: seq<string>, name: string)
    ensures Folds(key, names + [name]) == Folds(key, names) + {key(name)}
    ensures AllParents(key, names + [name]) == AllParents(key, names) + Parents(key, name)
  {
    var all := names + [name];
    assert forall n :: n in all <==> n in names || n == name;
    assert all[|names|] == name && forall i | 0 <= i < |names| :: all[i] == names[i];
    forall p
      ensures p in AllParents(key, all) <==> p in AllParents(key, names) + Parents(key, name)
    {
      if p in AllParents(key, all) {
        var i, k :| 0 <= i < |all| && 0 < k < |all[i]| && Nests(all[i], k) && p == key(all[i][..k]);
        if i < |names| {
          assert Nests(names[i], k) && p == key(names[i][..k]);
        }
      }
      if p in AllParents(key, names) {
        var i, k :| 0 <= i < |names| && 0 < k < |names[i]| && Nests(names[i], k) && p == key(names[i][..k]);
        assert Nests(all[i], k) && p == key(all[i][..k]);
      }
      if p in Parents(key, name) {
        var k :| 0 < k < |name| && Nests(name, k) && p == key(name[..k]);
        assert Nests(all[|names|], k) && p == key(all[|names|][..k]);
      }
    }
  }

  /** The check accepts exactly the names whose files a disk that folds case as the check does keeps apart: every
      write succeeds and none overwrites another. */
  lemma {:induction false} GoodNamesKeepApart<C>(lower: string -> string, names: seq<string>, contents: seq<C>)
    requires |names| == |contents|
    ensures GoodNames(lower, names) <==>
              PutAll(lower, names, contents).Some? && |PutAll(lower, names, contents).value.files| == |names|
  {
    if names != [] {
      var front, last := names[..|names| - 1], names[|names| - 1];
      var before := PutAll(lower, front, contents[..|names| - 1]);
      GoodNamesKeepApart(lower, front, contents[..|names| - 1]);
      assert names == front + [last];
      GoodNamesSnoc(lower, front, last);
      if before.Some? {
        PutAllKeys(lower, front, contents[..|names| - 1]);
        PutAllSize(lower, front, contents[..|names| - 1]);
        PutKeepsApart(before.value, lower, front, last, contents[|names| - 1]);
      }
    }
  }

  /** Writing one more file keeps all apart exactly when its name avoids the others. */
  lemma {:induction false} PutKeepsApart<C>(tree: Tree<C>, lower: string -> string, names: seq<string>, name: string, content: C)
    requires tree.files.Keys == Folds(lower, names) && tree.dirs == AllParents(lower, names) && |tree.files| <= |names|
    ensures Avoids(lower, names, name) && |tree.files| == |names| <==>
              Put(lower, tree, name, content).Some? && |Put(lower, tree, name, content).value.files| == |names| + 1
  {
    if Put(lower, tree, name, content).Some? {
      PutAddsOne(tree, lower, name, content);
    }
  }

  lemma {:induction false} PutAddsOne<C>(tree: Tree<C>, key: string -> string, name: string, content: C)
    requires Put(key, tree, name, content).Some?
    ensures |Put(key, tree, name, content).value.files| == |tree.files| + if key(name) in tree.files then 0 else 1
  {
    var next := Put(key, tree, name, content).value.files;
    assert next.Keys == tree.files.Keys + {key(name)};
    assert |tree.files| == |tree.files.Keys| && |next| == |next.Keys|;
    if key(name) in tree.files {
      assert next.Keys == tree.files.Keys;
    }
  }

  lemma {:induction false} PutAllSize<C>(key: string -> string, names: seq<string>, contents: seq<C>)
    requires |names| == |contents| && PutAll(key, names, contents).Some?
    ensures |PutAll(key, names, contents).value.files| <= |names|
  {
    if names != [] {
      var before := PutAll(key, names[..|names| - 1], contents[..|names| - 1]).value;
      PutAllSize(key, names[..|names| - 1], contents[..|names| - 1]);
      PutAddsOne(before, key, names[|names| - 1], contents[|names| - 1]);
    }
  }

  /** A disk may tell more names apart than the check does, but no fewer. */
  ghost predicate Finer(key: string -> string, lower: string -> string) {
    forall a, b :: key(a) == key(b) ==> lower(a) == lower(b)
  }

  lemma {:induction false} FinerKeepsGood(key: string -> string, lower: string -> string, names: seq<string>)
    requires Finer(key, lower) && GoodNames(lower, names)
    ensures GoodNames(key, names)
  {
  }

  ghost predicate FilesHold<C>(key: string -> string, files: map<string, C>, names: seq<string>, contents: seq<C>)
    requires |names| == |contents|
  {
    forall i | 0 <= i < |names| :: key(names[i]) in files && files[key(names[i])] == contents[i]
  }

  lemma {:induction false} PutHolds<C>(key: string -> string, tree: Tree<C>, names: seq<string>, contents: seq<C>, name: string, content: C)
    requires |names| == |contents| && FilesHold(key, tree.files, names, contents) && Put(key, tree, name, content).Some?
    requires key(name) !in Folds(key, names)
    ensures FilesHold(key, Put(key, tree, name, content).value.files, names + [name], contents + [content])
  {
    var files := Put(key, tree, name, content).value.files;
    forall i | 0 <= i < |names + [name]|
      ensures key((names + [name])[i]) in files && files[key((names + [name])[i])] == (contents + [content])[i]
    {
      if i < |names| {
        assert names[i] in names && key(names[i]) in Folds(key, names);
      }
    }
  }

  /** And each file has the content that was written under its name. */
  lemma {:induction false} PutAllContents<C>(key: string -> string, names: seq<string>, contents: seq<C>)
    requires |names| == |contents| && GoodNames(key, names)
    ensures PutAll(key, names, contents).Some? && FilesHold(key, PutAll(key, names, contents).value.files, names, contents)
  {
    GoodNamesKeepApart(key, names, contents);
    if names != [] {
      var front, last := names[..|names| - 1], names[|names| - 1];
      assert names == front + [last] && contents == contents[..|names| - 1] + [contents[|names| - 1]];
      GoodNamesSnoc(key, front, last);
      PutAllContents(key, front, contents[..|names| - 1]);
      PutHolds(key, PutAll(key, front, contents[..|names| - 1]).value, front, contents[..|names| - 1], last, contents[|names| - 1]);
    }
  }

  /** Being good depends on the set of names and their number alone. */
  lemma {:induction false} GoodNamesBySets(lower: string -> string, names: seq<string>)
    ensures GoodNames(lower, names) <==> |Folds(lower, names)| == |names| && AllParents(lower, names) !! Folds(lower, names)
    ensures |Folds(lower, names)| <= |names|
  {
    if names != [] {
      var front, last := names[..|names| - 1], names[|names| - 1];
      GoodNamesBySets(lower, front);
      assert names == front + [last];
      GoodNamesSnoc(lower, front, last);
      FoldsSnoc(lower, front, last);
    }
  }

  lemma {:induction false} GoodNamesPermuted(lower: string -> string, a: seq<string>, b: seq<string>)
    requires multiset(a) == multiset(b)
    ensures GoodNames(lower, a) <==> GoodNames(lower, b)
  {
    GoodNamesBySets(lower, a);
    GoodNamesBySets(lower, b);
    assert |a| == |multiset(a)| == |multiset(b)| == |b|;
    SameMembers(a, b);
    SameMembers(b, a);
    ParentsOfMembers(lower, a, b);
    ParentsOfMembers(lower, b, a);
    assert Folds(lower, a) == Folds(lower, b);
    assert AllParents(lower, a) == AllParents(lower, b);
  }

  lemma SameMembers<T>(a: seq<T>, b: seq<T>)
    requires multiset(a) == multiset(b)
    ensures forall x :: x in a ==> x in b
  {
    forall x | x in a
      ensures x in b
    {
      assert x in multiset(a);
    }
  }

  lemma {:induction false} ParentsOfMembers(lower: string -> string, a: seq<string>, b: seq<string>)
    requires forall x :: x in a ==> x in b
    ensures AllParents(lower, a) <= AllParents(lower, b)
  {
    forall p | p in AllParents(lower, a)
      ensures p in AllParents(lower, b)
    {
      var i, k :| 0 <= i < |a| && 0 < k < |a[i]| && Nests(a[i], k) && p == lower(a[i][..k]);
      assert a[i] in a;
      var j :| 0 <= j < |b| && b[j] == a[i];
      assert Nests(b[j], k) && p == lower(b[j][..k]);
    }
  }
}
