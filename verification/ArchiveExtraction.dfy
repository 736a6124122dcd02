/** Strict extraction: soundness against any archive, atomicity, and the exact condition of the round trip
    (archive_profile.py, _validate_entries and extract_archive). */
module ArchiveExtraction {
  import opened Common
  import opened ArchiveNames
  import opened Archive

  // ---------------------------------------------------------------- what an archive holds

  function FilesIn(members: seq<Member>): (files: seq<Member>)
    ensures forall m :: m in files <==> m in members && m.name != MANIFEST_MEMBER
    ensures |files| <= |members|
  {
    if members == [] then []
    else FilesIn(members[..|members| - 1]) + if members[|members| - 1].name == MANIFEST_MEMBER then [] else [members[|members| - 1]]
  }

  /** The names of the files, in order. */
  function FileNames(members: seq<Member>): seq<string> {
    if members == [] then []
    else FileNames(members[..|members| - 1])
         + if members[|members| - 1].name == MANIFEST_MEMBER then [] else [members[|members| - 1].name]
  }

  lemma NamesSnoc(files: seq<Member>, m: Member)
    ensures NamesOf(files + [m]) == NamesOf(files) + [m.name]
  {
    assert (files + [m])[..|files|] == files;
  }

  lemma FilesSnoc(members: seq<Member>)
    requires members != []
    ensures var last := members[|members| - 1];
            FilesIn(members) == if last.name == MANIFEST_MEMBER then FilesIn(members[..|members| - 1]) else FilesIn(members[..|members| - 1]) + [last]
  {
  }

  lemma {:induction false} FileNamesAreNamesOfFiles(members: seq<Member>)
    ensures FileNames(members) == NamesOf(FilesIn(members))
  {
    if members != [] {
      var front, last := members[..|members| - 1], members[|members| - 1];
      FileNamesAreNamesOfFiles(front);
      FilesSnoc(members);
      NamesSnoc(FilesIn(front), last);
    }
  }

  /** The manifest read last counts. */
  function LastManifest(members: seq<Member>): Option<Content> {
    if members == [] then None
    else if members[|members| - 1].name == MANIFEST_MEMBER then members[|members| - 1].data
    else LastManifest(members[..|members| - 1])
  }

  predicate HasManifest(members: seq<Member>) {
    members != [] && (members[|members| - 1].name == MANIFEST_MEMBER || HasManifest(members[..|members| - 1]))
  }

  /** Names, kinds and sizes, one member after the other. */
  predicate HeadersFit(valid: string -> bool, members: seq<Member>, limits: Limits) {
    members == [] ||
    (var m := members[|members| - 1];
     && HeadersFit(valid, members[..|members| - 1], limits)
     && valid(m.name) && m.regular && m.declared <= limits.maxMember && TotalDeclared(members) <= limits.maxExpanded)
  }

  /** `_validate_entries`. */
  predicate WellFormed(lower: string -> string, members: seq<Member>, limits: Limits) {
    && |members| <= limits.maxEntries
    && HeadersFit(ValidName, members, limits)
    && HasManifest(members)
    && GoodNames(lower, FileNames(members))
  }

  lemma {:induction false} HeadersMean(valid: string -> bool, members: seq<Member>, limits: Limits)
    ensures HeadersFit(valid, members, limits) <==>
              && (forall m | m in members :: valid(m.name) && m.regular && m.declared <= limits.maxMember)
              && (members != [] ==> TotalDeclared(members) <= limits.maxExpanded)
  {
    if members != [] {
      var front, last := members[..|members| - 1], members[|members| - 1];
      HeadersMean(valid, front, limits);
      assert members == front + [last];
      assert last in members && forall m | m in front :: m in members;
    }
  }

  lemma {:induction false} MisfitStays(valid: string -> bool, members: seq<Member>, limits: Limits, i: nat)
    requires i <= |members| && !HeadersFit(valid, members[..i], limits)
    ensures !HeadersFit(valid, members, limits)
    decreases |members|
  {
    if i == |members| {
      assert members[..i] == members;
    } else {
      assert members[..|members| - 1][..i] == members[..i];
      MisfitStays(valid, members[..|members| - 1], limits, i);
    }
  }

  /** The manifest's entries by name; the last entry of a name counts, and one malformed entry spoils all. */
  function Expected(entries: seq<Option<Entry>>): Option<map<string, (int, Content)>> {
    if entries == [] then Some(map[])
    else
      match (Expected(entries[..|entries| - 1]), entries[|entries| - 1])
      case (Some(earlier), Some(e)) => Some(earlier[e.name := (e.size, e.sha256)])
      case _ => None
  }

  predicate Agrees(key: string -> string, tree: Tree<Content>, digests: map<string, Content>, expected: map<string, (int, Content)>) {
    && expected.Keys == digests.Keys
    && forall name | name in expected ::
         name in digests && key(name) in tree.files && expected[name] == (Size(tree.files[key(name)]), digests[name])
  }

  /** What writing the members one by one has produced so far. */
  datatype Progress = Progress(tree: Tree<Content>, digests: map<string, Content>, manifest: Option<Content>)

  const NOTHING_WRITTEN := Progress(Tree(map[], {}), map[], None)

  /** A member that cannot be read, is longer than declared or cannot be placed ends the extraction. */
  function WriteOne(key: string -> string, p: Progress, m: Member): Option<Progress> {
    if m.data.None? then None
    else if m.name == MANIFEST_MEMBER then Some(p.(manifest := m.data))
    else if Size(m.data.value) > m.declared then None
    else
      match Put(key, p.tree, m.name, m.data.value)
      case None => None
      case Some(tree) => Some(p.(tree := tree, digests := p.digests[m.name := m.data.value]))
  }

  function Written(key: string -> string, members: seq<Member>): Option<Progress> {
    if members == [] then Some(NOTHING_WRITTEN)
    else
      match Written(key, members[..|members| - 1])
      case None => None
      case Some(p) => WriteOne(key, p, members[|members| - 1])
  }

  /** The embedded manifest describes what was written. */
  predicate ManifestHolds(key: string -> string, p: Progress, total: nat) {
    match p.manifest
    case Some(ManifestText(m, _)) =>
      && m.profileMatches && m.files.Some?
      && m.memberCount == Some(|p.digests|) && m.totalBytes == Some(total)
      && Expected(m.files.value).Some?
      && Agrees(key, p.tree, p.digests, Expected(m.files.value).value)
    case _ => false
  }

  /** The tree that extraction yields, or None. */
  function ExtractOf(key: string -> string, lower: string -> string, limits: Limits, members: seq<Member>): Option<Tree<Content>> {
    if !WellFormed(lower, members, limits) then None
    else
      match Written(key, members)
      case Some(p) => if ManifestHolds(key, p, TotalDeclared(FilesIn(members))) then Some(p.tree) else None
      case None => None
  }

  lemma {:induction false} FailureStays(key: string -> string, members: seq<Member>, i: nat)
    requires i <= |members| && Written(key, members[..i]).None?
    ensures Written(key, members).None?
    decreases |members|
  {
    if i == |members| {
      assert members[..i] == members;
    } else {
      assert members[..|members| - 1][..i] == members[..i];
      FailureStays(key, members[..|members| - 1], i);
    }
  }

  lemma {:induction false} MalformedSpoils(entries: seq<Option<Entry>>, i: nat)
    requires i < |entries| && entries[i].None?
    ensures Expected(entries).None?
  {
    if i < |entries| - 1 {
      MalformedSpoils(entries[..|entries| - 1], i);
    }
  }

  lemma FilesHaveValidNames(members: seq<Member>)
    requires forall m | m in members :: ValidName(m.name)
    ensures forall name | name in FileNames(members) :: ValidName(name)
  {
    var files := FilesIn(members);
    FileNamesAreNamesOfFiles(members);
    forall name | name in FileNames(members)
      ensures ValidName(name)
    {
      var i :| 0 <= i < |files| && files[i].name == name;
      assert files[i] in members;
    }
  }

  // ---------------------------------------------------------------- the extractor

  lemma {:induction false} HeaderStep(valid: string -> bool, members: seq<Member>, limits: Limits, i: nat)
    requires i < |members|
    ensures TotalDeclared(members[..i + 1]) == TotalDeclared(members[..i]) + members[i].declared
    ensures FileNames(members[..i + 1]) == FileNames(members[..i]) + if members[i].name == MANIFEST_MEMBER then [] else [members[i].name]
    ensures HasManifest(members[..i + 1]) <==> HasManifest(members[..i]) || members[i].name == MANIFEST_MEMBER
    ensures HeadersFit(valid, members[..i + 1], limits) <==>
              && HeadersFit(valid, members[..i], limits) && valid(members[i].name) && members[i].regular
              && members[i].declared <= limits.maxMember && TotalDeclared(members[..i + 1]) <= limits.maxExpanded
  {
    assert members[..i + 1][..i] == members[..i];
  }

  method CheckHeaders(valid: string -> bool, members: seq<Member>, limits: Limits)
    returns (names: seq<string>, hasManifest: bool, ok: bool)
    ensures ok <==> HeadersFit(valid, members, limits)
    ensures ok ==> names == FileNames(members) && (hasManifest <==> HasManifest(members))
  {
    names, hasManifest, ok := [], false, true;
    var total := 0;
    for i := 0 to |members|
      invariant total == TotalDeclared(members[..i]) && HeadersFit(valid, members[..i], limits)
      invariant names == FileNames(members[..i]) && (hasManifest <==> HasManifest(members[..i]))
    {
      var m := members[i];
      HeaderStep(valid, members, limits, i);
      total := total + m.declared;
      if !valid(m.name) || !m.regular || m.declared > limits.maxMember || total > limits.maxExpanded {
        MisfitStays(valid, members, limits, i + 1);
        return names, hasManifest, false;
      }
      hasManifest := hasManifest || m.name == MANIFEST_MEMBER;
      names := names + if m.name == MANIFEST_MEMBER then [] else [m.name];
    }
    assert members[..|members|] == members;
  }

  /** The read-only pre-pass. */
  method ValidateEntries(lower: string -> string, members: seq<Member>, limits: Limits) returns (ok: bool)
    ensures ok <==> WellFormed(lower, members, limits)
  {
    if |members| > limits.maxEntries {
      return false;
    }
    var names, hasManifest, fit := CheckHeaders(ValidName, members, limits);
    if !fit || !hasManifest {
      return false;
    }
    HeadersMean(ValidName, members, limits);
    FilesHaveValidNames(members);
    var verdict := CheckNameSet(lower, names);
    return verdict.Accepted?;
  }

  method CheckManifest(key: string -> string, p: Progress, total: nat) returns (ok: bool)
    ensures ok <==> ManifestHolds(key, p, total)
  {
    if p.manifest.None? || p.manifest.value.Raw? || !p.manifest.value.manifest.profileMatches || p.manifest.value.manifest.files.None? {
      return false;
    }
    var m := p.manifest.value.manifest;
    if m.memberCount != Some(|p.digests|) || m.totalBytes != Some(total) {
      return false;
    }
    var entries := m.files.value;
    var expected: map<string, (int, Content)> := map[];
    for i := 0 to |entries|
      invariant Expected(entries[..i]) == Some(expected)
    {
      assert entries[..i + 1][..i] == entries[..i];
      if entries[i].None? {
        MalformedSpoils(entries, i);
        return false;
      }
      var e := entries[i].value;
      expected := expected[e.name := (e.size, e.sha256)];
    }
    assert entries[..|entries|] == entries;
    return Agrees(key, p.tree, p.digests, expected);
  }

  /** A directory with its entries; a destination or a partial tree is one of them. */
  class Workspace {
    var entries: map<string, Tree<Content>>

    constructor (entries: map<string, Tree<Content>>)
      ensures this.entries == entries
    {
      this.entries := entries;
    }

    /** Writes the members one by one into the partial tree. */
    method WriteMembers(key: string -> string, members: seq<Member>, temporary: string)
      returns (digests: map<string, Content>, manifest: Option<Content>, ok: bool)
      requires temporary in entries && entries[temporary] == NOTHING_WRITTEN.tree
      modifies this
      ensures temporary in entries && entries - {temporary} == old(entries) - {temporary}
      ensures ok ==> Written(key, members) == Some(Progress(entries[temporary], digests, manifest))
      ensures !ok ==> Written(key, members).None?
    {
      digests, manifest, ok := map[], None, true;
      for i := 0 to |members|
        invariant temporary in entries && entries - {temporary} == old(entries) - {temporary}
        invariant Written(key, members[..i]) == Some(Progress(entries[temporary], digests, manifest))
      {
        var m := members[i];
        assert members[..i + 1][..i] == members[..i];
        if m.data.None? {
          FailureStays(key, members, i + 1);
          return digests, manifest, false;
        }
        if m.name == MANIFEST_MEMBER {
          manifest := m.data;
        } else {
          var next := Put(key, entries[temporary], m.name, m.data.value);
          if Size(m.data.value) > m.declared || next.None? {
            FailureStays(key, members, i + 1);
            return digests, manifest, false;
          }
          entries := entries[temporary := next.value];
          digests := digests[m.name := m.data.value];
        }
      }
      assert members[..|members|] == members;
    }

    /** Atomic extraction: on success the destination is exactly the verified tree, and on any failure nothing has
        changed. `temporary` is the new name of the partial tree, `renamed` whether the final rename succeeds. */
    method ExtractArchive(key: string -> string, lower: string -> string, limits: Limits, members: seq<Member>,
                          destination: string, temporary: string, renamed: bool) returns (ok: bool)
      requires temporary !in entries && temporary != destination
      modifies this
      ensures ok <==> destination !in old(entries) && ExtractOf(key, lower, limits, members).Some? && renamed
      ensures ok ==> entries == old(entries)[destination := ExtractOf(key, lower, limits, members).value]
      ensures !ok ==> entries == old(entries)
    {
      if destination in entries {
        return false;
      }
      var valid := ValidateEntries(lower, members, limits);
      if !valid {
        return false;
      }
      entries := entries[temporary := NOTHING_WRITTEN.tree];
      assert entries - {temporary} == old(entries);
      var digests, manifest, written := WriteMembers(key, members, temporary);
      if written {
        var agrees := CheckManifest(key, Progress(entries[temporary], digests, manifest), TotalDeclared(FilesIn(members)));
        if agrees && renamed {
          entries := (entries - {temporary})[destination := entries[temporary]];
          return true;
        }
      }
      entries := entries - {temporary};
      return false;
    }
  }
}
