/** The start-up self-check: a walk over manifests, file metadata and refs that counts findings, and
    what a walk without findings promises to those who resolve refs and files. */
module SelfCheck {
  import opened Common
  import opened Manifests
  import opened Paths
  import opened Text
  import opened FileTree
  import opened Readers

  datatype FindingKind = InvalidManifest | UnreadableArchive | UnsafePath | MissingFile | SizeMismatch | DanglingRef

  predicate IsCommit(text: string) {
    1 <= |text| <= 128 && forall i :: 0 <= i < |text| ==> IsHexDigit(text[i])
  }

  predicate IsComponent(text: string) {
    text != "" && text != "." && text != ".." && '/' !in text && '\\' !in text && forall c :: c in text ==> !IsControl(c)
  }

  // ---------------------------------------------------------------- one revision

  /** What the check finds about one manifest entry; ModelKeep's own paths are passed over. A path that does
      not end in a name can only be a directory's. */
  function EntryFinding(t: Tree, rev: Place, e: Entry): Option<FindingKind> {
    if !ValidRelative(e.path) then
      if IsInternal(e.path) then None else Some(UnsafePath)
    else
      var place := rev + Key(e.path);
      var node := Lstat(t, place);
      if !EndsInName(e.path) then
        if Stat(t, place) == Some(Directory) || Absent(t, [], place, MAX_LINKS) then Some(MissingFile) else Some(UnreadableArchive)
      else if node.None? then if IsMissing(t, place) then Some(MissingFile) else Some(UnreadableArchive)
      else if node.value.Link? && !StaysInside(t, rev, place) then Some(UnsafePath)
      else
        match Stat(t, place)
        case Some(File(bytes, _, _)) => if |bytes| != e.size then Some(SizeMismatch) else None
        case _ => Some(MissingFile)
  }

  /** Nothing is under the path for a reader, for the reason the system gives. */
  predicate IsAbsent(t: Tree, rev: Place, path: string) {
    var place := rev + Key(path);
    if EndsInName(path) then IsMissing(t, place) else Absent(t, [], place, MAX_LINKS)
  }

  /** The path is a symbolic link that leads out of the revision. */
  predicate Escapes(t: Tree, rev: Place, path: string) {
    var node := Lstat(t, rev + Key(path));
    node.Some? && node.value.Link? && !StaysInside(t, rev, rev + Key(path))
  }

  /** Which finding one entry draws, kind by kind. */
  lemma FindingMeans(t: Tree, rev: Place, e: Entry)
    ensures var found := EntryFinding(t, rev, e);
            var (valid, named, place) := (ValidRelative(e.path), EndsInName(e.path), rev + Key(e.path));
            var (there, node) := (Lstat(t, place).Some? && !Escapes(t, rev, e.path), Stat(t, place));
            && (found.None? <==> if valid then named && there && node.Some? && node.value.File? && |node.value.bytes| == e.size
                                 else IsInternal(e.path))
            && (found == Some(UnsafePath) <==> if valid then named && Escapes(t, rev, e.path) else !IsInternal(e.path))
            && (found == Some(SizeMismatch) <==> valid && named && there && node.Some? && node.value.File? && |node.value.bytes| != e.size)
            && (found == Some(MissingFile) <==>
                  valid && (IsAbsent(t, rev, e.path)
                            || (named && there && (node.None? || !node.value.File?)) || (!named && node == Some(Directory))))
            && (found == Some(UnreadableArchive) <==>
                  valid && !IsAbsent(t, rev, e.path) && (if named then Lstat(t, place).None? else node != Some(Directory)))
  {
    hide ValidRelative, EndsInName, Key, IsInternal, Canonical, Absent;
    if rev + Key(e.path) != [] { MissingIsNotThere(t, rev + Key(e.path)); }
  }

  lemma MissingIsNotThere(t: Tree, p: Place)
    requires p != []
    ensures IsMissing(t, p) ==> Lstat(t, p).None?
  {
    if Absent(t, [], Parent(p), MAX_LINKS) { AbsentIsNotFound(t, [], Parent(p), MAX_LINKS); }
  }

  /** What is absent does not resolve. */
  lemma {:induction false} AbsentIsNotFound(t: Tree, at: Place, rest: seq<string>, links: nat)
    requires Absent(t, at, rest, links)
    ensures Walk(t, at, rest, links).None?
    decreases links, |rest|
  {
    var next := at + [rest[0]];
    if next in t {
      if t[next].Link? {
        AbsentIsNotFound(t, [], t[next].target + rest[1..], links - 1);
      } else {
        AbsentIsNotFound(t, next, rest[1..], links);
      }
    }
  }

  predicate StaysInside(t: Tree, rev: Place, place: Place) {
    var root, target := Canonical(t, rev), Canonical(t, place);
    root.Some? && target.Some? && Within(root.value, target.value)
  }

  function EntryFindings(t: Tree, rev: Place, entries: seq<Entry>): seq<FindingKind> {
    if entries == [] then []
    else
      var finding := EntryFinding(t, rev, entries[0]);
      (if finding.Some? then [finding.value] else []) + EntryFindings(t, rev, entries[1..])
  }

  /** A ref may resolve to this revision: its manifest is usable, whatever its files. */
  predicate Servable(t: Tree, rev: Place, repoType: RepositoryType) {
    var m := ReadManifest(t, rev, repoType);
    m.Ok? && m.value.complete
  }

  function RevisionFindings(t: Tree, rev: Place, repoType: RepositoryType): seq<FindingKind> {
    if Servable(t, rev, repoType) then EntryFindings(t, rev, ReadManifest(t, rev, repoType).value.entries)
    else [InvalidManifest]
  }

  lemma {:induction false} FindingsOfJoined(t: Tree, rev: Place, a: seq<Entry>, e: Entry)
    ensures EntryFindings(t, rev, a + [e]) == EntryFindings(t, rev, a) + EntryFindings(t, rev, [e])
  {
    hide EntryFinding;
    if a == [] {
      assert a + [e] == [e];
    } else {
      FindingsOfJoined(t, rev, a[1..], e);
      assert (a + [e])[1..] == a[1..] + [e];
    }
  }

  lemma {:induction false} NoFindings(t: Tree, rev: Place, entries: seq<Entry>)
    ensures EntryFindings(t, rev, entries) == [] <==> forall i :: 0 <= i < |entries| ==> EntryFinding(t, rev, entries[i]).None?
  {
    hide EntryFinding;
    if entries != [] {
      NoFindings(t, rev, entries[1..]);
      assert forall i :: 0 < i < |entries| ==> entries[i] == entries[1..][i - 1];
    }
  }

  // ---------------------------------------------------------------- one repository

  /** The real directory a path leads to, if it is one. */
  function DirectoryAt(t: Tree, p: Place): Option<Place> {
    var dir := Canonical(t, p);
    if dir.Some? && IsDir(t, dir.value) then dir else None
  }

  predicate IsSubdirectory(t: Tree, dir: Place, name: string) {
    name in Names(t, dir) && dir + [name] in t && t[dir + [name]].Directory?
  }

  /** The entry at `revisions/name` is not worth a finding. */
  predicate RevisionClean(t: Tree, revisions: Place, dir: Place, repoType: RepositoryType, name: string) {
    IsSubdirectory(t, dir, name) ==> IsCommit(name) && RevisionFindings(t, revisions + [name], repoType) == []
  }

  predicate IsServable(t: Tree, revisions: Place, dir: Place, repoType: RepositoryType, name: string) {
    IsSubdirectory(t, dir, name) && IsCommit(name) && Servable(t, revisions + [name], repoType)
  }

  function ServableAmong(t: Tree, revisions: Place, dir: Place, repoType: RepositoryType, names: set<string>): set<string> {
    set name | name in names && IsServable(t, revisions, dir, repoType, name)
  }

  lemma OneMoreName(t: Tree, revisions: Place, dir: Place, repoType: RepositoryType, names: set<string>, name: string)
    ensures ServableAmong(t, revisions, dir, repoType, names + {name})
         == ServableAmong(t, revisions, dir, repoType, names) + if IsServable(t, revisions, dir, repoType, name) then {name} else {}
  {
    hide IsServable;
  }

  lemma NoNames(t: Tree, revisions: Place, dir: Place, repoType: RepositoryType)
    ensures ServableAmong(t, revisions, dir, repoType, {}) == {}
  {
  }

  function ServableCommits(t: Tree, revisions: Place, repoType: RepositoryType): set<string> {
    var dir := DirectoryAt(t, revisions);
    if dir.None? then {} else ServableAmong(t, revisions, dir.value, repoType, Names(t, dir.value))
  }

  predicate RevisionsClean(t: Tree, revisions: Place, repoType: RepositoryType) {
    var dir := DirectoryAt(t, revisions);
    dir.Some? ==> forall name :: name in Names(t, dir.value) ==> RevisionClean(t, revisions, dir.value, repoType, name)
  }

  /** Refs are regular files; names beginning with a dot are left-over temporary files. */
  predicate IsRef(t: Tree, dir: Place, name: string) {
    name in Names(t, dir) && IsFile(t, dir + [name]) && name != "" && name[0] != '.'
  }

  predicate RefClean(t: Tree, dir: Place, name: string, servable: set<string>) {
    IsRef(t, dir, name) ==>
      && IsComponent(name)
      && t[dir + [name]].line.Some? && IsCommit(t[dir + [name]].line.value) && t[dir + [name]].line.value in servable
  }

  predicate RefsClean(t: Tree, refs: Place, servable: set<string>) {
    var dir := DirectoryAt(t, refs);
    dir.Some? ==> forall name :: name in Names(t, dir.value) ==> RefClean(t, dir.value, name, servable)
  }

  predicate RepositoryClean(t: Tree, repo: Place, repoType: RepositoryType) {
    && RevisionsClean(t, repo + ["revisions"], repoType)
    && RefsClean(t, repo + ["refs"], ServableCommits(t, repo + ["revisions"], repoType))
  }

  function TypeDirectory(repoType: RepositoryType): string {
    match repoType
    case Model => "models"
    case Dataset => "datasets"
  }

  predicate IsRepository(t: Tree, root: Place, dir: Place, namespace: string, name: string) {
    && IsSubdirectory(t, dir, namespace) && IsComponent(namespace)
    && IsSubdirectory(t, dir + [namespace], name) && IsComponent(name)
  }

  /** No finding below one repository type's directory. */
  predicate TypeClean(t: Tree, repoType: RepositoryType) {
    var root := [TypeDirectory(repoType)];
    var dir := DirectoryAt(t, root);
    dir.Some? ==> forall namespace :: namespace in Names(t, dir.value) ==> NamespaceClean(t, root, dir.value, repoType, namespace)
  }

  predicate NamespaceClean(t: Tree, root: Place, dir: Place, repoType: RepositoryType, namespace: string) {
    IsSubdirectory(t, dir, namespace) ==>
      && IsComponent(namespace)
      && forall name :: name in Names(t, dir + [namespace]) ==> NameClean(t, root, dir, repoType, namespace, name)
  }

  predicate NameClean(t: Tree, root: Place, dir: Place, repoType: RepositoryType, namespace: string, name: string) {
    IsSubdirectory(t, dir + [namespace], name) ==> IsComponent(name) && RepositoryClean(t, root + [namespace, name], repoType)
  }

  // ---------------------------------------------------------------- the walk

  /** The report of one walk. */
  class Report {
    var findings: seq<FindingKind>
    var revisionsChecked: nat
    var filesChecked: nat
    var refsChecked: nat
    var repositoriesChecked: nat

    constructor ()
      ensures findings == [] && revisionsChecked == 0 && filesChecked == 0 && refsChecked == 0 && repositoriesChecked == 0
    {
      findings, revisionsChecked, filesChecked, refsChecked, repositoriesChecked := [], 0, 0, 0, 0;
    }

    method Note(kind: FindingKind)
      modifies `findings
      ensures findings == old(findings) + [kind]
    {
      findings := findings + [kind];
    }

    /** One revision: its manifest, and the metadata of every path it lists. */
    method CheckRevision(t: Tree, rev: Place, repoType: RepositoryType) returns (servable: bool)
      modifies this
      ensures findings == old(findings) + RevisionFindings(t, rev, repoType)
      ensures servable == Servable(t, rev, repoType)
      ensures servable ==> filesChecked == old(filesChecked) + |ReadManifest(t, rev, repoType).value.entries|
    {
      hide EntryFinding, ReadManifest;
      var m := ReadManifest(t, rev, repoType);
      if m.Err? || !m.value.complete {
        Note(InvalidManifest);
        return false;
      }
      var entries := m.value.entries;
      for i := 0 to |entries|
        invariant findings == old(findings) + EntryFindings(t, rev, entries[..i])
        invariant filesChecked == old(filesChecked) + i
      {
        filesChecked := filesChecked + 1;
        assert entries[..i + 1] == entries[..i] + [entries[i]];
        FindingsOfJoined(t, rev, entries[..i], entries[i]);
        var finding := EntryFinding(t, rev, entries[i]);
        if finding.Some? { Note(finding.value); }
      }
      assert entries[..|entries|] == entries;
      return true;
    }

    /** One entry of the revisions directory. */
    method CheckRevisionEntry(t: Tree, revisions: Place, dir: Place, repoType: RepositoryType, name: string) returns (servable: bool)
      requires name in Names(t, dir)
      modifies this
      ensures old(findings) <= findings
      ensures findings == old(findings) <==> RevisionClean(t, revisions, dir, repoType, name)
      ensures servable == IsServable(t, revisions, dir, repoType, name)
    {
      hide RevisionFindings, Servable, IsCommit, Names;
      if dir + [name] !in t || !t[dir + [name]].Directory? { return false; }
      if !IsCommit(name) {
        Note(UnsafePath);
        return false;
      }
      revisionsChecked := revisionsChecked + 1;
      servable := CheckRevision(t, revisions + [name], repoType);
    }

    /** Every revision of a repository, in any reading order. */
    method CheckRevisions(t: Tree, revisions: Place, repoType: RepositoryType) returns (servable: set<string>)
      modifies this
      ensures old(findings) <= findings
      ensures findings == old(findings) <==> RevisionsClean(t, revisions, repoType)
      ensures servable == ServableCommits(t, revisions, repoType)
    {
      hide RevisionClean, IsServable, Names, DirectoryAt;
      var dir := DirectoryAt(t, revisions);
      if dir.None? { return {}; }
      servable := CheckRevisionsIn(t, revisions, dir.value, repoType);
    }

    method CheckRevisionsIn(t: Tree, revisions: Place, dir: Place, repoType: RepositoryType) returns (servable: set<string>)
      modifies this
      ensures old(findings) <= findings
      ensures findings == old(findings) <==> forall n :: n in Names(t, dir) ==> RevisionClean(t, revisions, dir, repoType, n)
      ensures servable == ServableAmong(t, revisions, dir, repoType, Names(t, dir))
    {
      hide RevisionClean, IsServable, Names, ServableAmong;
      servable := {};
      NoNames(t, revisions, dir, repoType);
      var rest := Names(t, dir);
      ghost var done := {};
      while rest != {}
        invariant old(findings) <= findings && Names(t, dir) == done + rest && done !! rest
        invariant findings == old(findings) <==> forall n :: n in done ==> RevisionClean(t, revisions, dir, repoType, n)
        invariant servable == ServableAmong(t, revisions, dir, repoType, done)
        decreases |rest|
      {
        var name :| name in rest;
        rest := rest - {name};
        OneMoreName(t, revisions, dir, repoType, done, name);
        done := done + {name};
        var ok := CheckRevisionEntry(t, revisions, dir, repoType, name);
        if ok { servable := servable + {name}; }
      }
    }

    /** Every ref of a repository, in any reading order. */
    method CheckRefs(t: Tree, refs: Place, servable: set<string>)
      modifies this
      ensures old(findings) <= findings
      ensures findings == old(findings) <==> RefsClean(t, refs, servable)
    {
      hide IsCommit, IsComponent, Names;
      var dir := DirectoryAt(t, refs);
      if dir.None? { return; }
      var rest := Names(t, dir.value);
      ghost var done := {};
      while rest != {}
        invariant old(findings) <= findings && Names(t, dir.value) == done + rest && done !! rest
        invariant findings == old(findings) <==> forall n :: n in done ==> RefClean(t, dir.value, n, servable)
        decreases |rest|
      {
        var name :| name in rest;
        rest := rest - {name};
        done := done + {name};
        var place := dir.value + [name];
        if place in t && t[place].File? && name != "" && name[0] != '.' {
          refsChecked := refsChecked + 1;
          if !IsComponent(name) {
            Note(UnsafePath);
          } else if t[place].line.None? || !IsCommit(t[place].line.value) || t[place].line.value !in servable {
            Note(DanglingRef);
          }
        }
      }
    }

    method CheckRepository(t: Tree, repo: Place, repoType: RepositoryType)
      modifies this
      ensures old(findings) <= findings
      ensures findings == old(findings) <==> RepositoryClean(t, repo, repoType)
    {
      hide RevisionsClean, RefsClean, ServableCommits;
      repositoriesChecked := repositoriesChecked + 1;
      var servable := CheckRevisions(t, repo + ["revisions"], repoType);
      CheckRefs(t, repo + ["refs"], servable);
    }

    /** Every repository of one type. */
    method CheckType(t: Tree, repoType: RepositoryType)
      modifies this
      ensures old(findings) <= findings
      ensures findings == old(findings) <==> TypeClean(t, repoType)
    {
      hide NamespaceClean, Names;
      var root := [TypeDirectory(repoType)];
      var dir := DirectoryAt(t, root);
      if dir.None? { return; }
      var rest := Names(t, dir.value);
      ghost var done := {};
      while rest != {}
        invariant old(findings) <= findings && Names(t, dir.value) == done + rest && done !! rest
        invariant findings == old(findings) <==> forall n :: n in done ==> NamespaceClean(t, root, dir.value, repoType, n)
        decreases |rest|
      {
        var namespace :| namespace in rest;
        rest := rest - {namespace};
        done := done + {namespace};
        CheckNamespace(t, root, dir.value, repoType, namespace);
      }
    }

    method CheckName(t: Tree, root: Place, dir: Place, repoType: RepositoryType, namespace: string, name: string)
      requires name in Names(t, dir + [namespace])
      modifies this
      ensures old(findings) <= findings
      ensures findings == old(findings) <==> NameClean(t, root, dir, repoType, namespace, name)
    {
      hide RepositoryClean, IsComponent, Names;
      var place := dir + [namespace] + [name];
      if place !in t || !t[place].Directory? { return; }
      if !IsComponent(name) {
        Note(UnsafePath);
      } else {
        CheckRepository(t, root + [namespace, name], repoType);
      }
    }

    method CheckNamespace(t: Tree, root: Place, dir: Place, repoType: RepositoryType, namespace: string)
      requires namespace in Names(t, dir)
      modifies this
      ensures old(findings) <= findings
      ensures findings == old(findings) <==> NamespaceClean(t, root, dir, repoType, namespace)
    {
      hide NameClean, IsComponent, Names;
      if dir + [namespace] !in t || !t[dir + [namespace]].Directory? { return; }
      if !IsComponent(namespace) {
        Note(UnsafePath);
        return;
      }
      CheckNames(t, root, dir, repoType, namespace);
    }

    method CheckNames(t: Tree, root: Place, dir: Place, repoType: RepositoryType, namespace: string)
      modifies this
      ensures old(findings) <= findings
      ensures findings == old(findings) <==>
                forall n :: n in Names(t, dir + [namespace]) ==> NameClean(t, root, dir, repoType, namespace, n)
    {
      hide NameClean, Names;
      var rest := Names(t, dir + [namespace]);
      ghost var done := {};
      while rest != {}
        invariant old(findings) <= findings && Names(t, dir + [namespace]) == done + rest && done !! rest
        invariant findings == old(findings) <==> forall n :: n in done ==> NameClean(t, root, dir, repoType, namespace, n)
        decreases |rest|
      {
        var name :| name in rest;
        rest := rest - {name};
        done := done + {name};
        CheckName(t, root, dir, repoType, namespace, name);
      }
    }
  }

  // ---------------------------------------------------------------- the readers agree

  /** A revision that verifies gives the self-check nothing to find. */
  lemma VerifiedIsClean(t: Tree, rev: Place, repoType: RepositoryType)
    requires WellFormed(t) && Verified(t, rev, repoType)
    ensures RevisionFindings(t, rev, repoType) == [] && Servable(t, rev, repoType)
  {
    hide Canonical, Stat, Lstat, ValidRelative, AllCollectable, IsContent, Key, EntryFinding, EntryVerifies;
    var entries := ReadManifest(t, rev, repoType).value.entries;
    forall i | 0 <= i < |entries| ensures EntryFinding(t, rev, entries[i]).None? {
      VerifiedEntryIsClean(t, rev, repoType, entries[i]);
    }
    NoFindings(t, rev, entries);
  }

  lemma VerifiedEntryIsClean(t: Tree, rev: Place, repoType: RepositoryType, e: Entry)
    requires WellFormed(t) && EntryVerifies(t, rev, repoType, e)
    ensures EntryFinding(t, rev, e).None?
  {
    hide Canonical, ValidRelative, Key, ReadManifest, WellFormed, Find, IsInternal;
    var place := rev + Key(e.path);
    RootIsNoNode(t);
    if place == [] {
      RootIsCanonical(t);
    } else {
      StatAndLstat(t, place);
    }
  }

  lemma RootIsNoNode(t: Tree)
    requires WellFormed(t)
    ensures [] !in t
  {
  }

  /** In a revision without findings a listed path of ours resolves, with its recorded size, exactly
      when its real place is inside the revision. */
  lemma CleanFileResolvesIffInside(t: Tree, rev: Place, repoType: RepositoryType, e: Entry)
    requires RevisionFindings(t, rev, repoType) == [] && e in ReadManifest(t, rev, repoType).value.entries
    requires Servable(t, rev, repoType) && !IsInternal(e.path)
    ensures var r := ResolveFile(t, rev, repoType, e.path);
            && (r.Ok? ==> r.value.size == e.size)
            && (r.Ok? <==> StaysInside(t, rev, rev + Key(e.path)))
  {
    hide Canonical, ValidRelative, EndsInName, Key, IsInternal, EntryFinding, ResolveFile, IsAbsent, Lstat, ReadManifest;
    var entries := ReadManifest(t, rev, repoType).value.entries;
    NoFindings(t, rev, entries);
    var i :| 0 <= i < |entries| && entries[i] == e;
    FindingMeans(t, rev, e);
    ResolvedMeans(t, rev, repoType, e.path);
    assert e.path in Listed(entries);
  }

  /** Without a link among a path's directories its real place is inside. */
  lemma NoLinkStaysInside(t: Tree, rev: Place, repoType: RepositoryType, e: Entry)
    requires WellFormed(t) && rev in t && t[rev].Directory?
    requires EntryFinding(t, rev, e).None? && ValidRelative(e.path) && Key(e.path) != []
    requires IsDir(t, rev + Key(e.path)[..|Key(e.path)| - 1])
    ensures StaysInside(t, rev, rev + Key(e.path))
  {
    hide WellFormed, Canonical, ValidRelative, Key;
    var place := rev + Key(e.path);
    assert Parent(place) == rev + Key(e.path)[..|Key(e.path)| - 1];
    DirectIsCanonical(t, rev);
    if Parent(place) == [] { RootIsCanonical(t); } else { DirectIsCanonical(t, Parent(place)); }
    StatAndLstat(t, place);
    assert place == Parent(place) + [place[|place| - 1]];
    assert Within(rev, place);
  }

  /** What resolving a ref answers. */
  function ResolveRef(t: Tree, repo: Place, reference: string): Outcome<string> {
    if !IsComponent(reference) then Err(InvalidPath)
    else
      match Stat(t, repo + ["refs", reference])
      case Some(File(_, _, Some(line))) => if IsCommit(line) then Ok(line) else Err(InvalidPath)
      case _ => Err(NotFound)
  }

  lemma EntryIsReal(t: Tree, path: Place, dir: Place, name: string)
    requires DirectoryAt(t, path) == Some(dir) && dir + [name] in t && !t[dir + [name]].Link?
    ensures Canonical(t, path + [name]) == Some(dir + [name]) && Stat(t, path + [name]) == Some(t[dir + [name]])
  {
    WalkLast(t, [], path, name, MAX_LINKS);
  }

  /** In a repository without findings every ref resolves, to a revision whose manifest is complete. */
  lemma CleanRefsResolve(t: Tree, repo: Place, repoType: RepositoryType, dir: Place, reference: string)
    requires RepositoryClean(t, repo, repoType)
    requires DirectoryAt(t, repo + ["refs"]) == Some(dir) && IsRef(t, dir, reference)
    ensures var r := ResolveRef(t, repo, reference);
            r.Ok? && Servable(t, repo + ["revisions", r.value], repoType)
  {
    hide Canonical, Stat, IsCommit, IsComponent, Servable, Names, RevisionsClean, DirectoryAt;
    EntryIsReal(t, repo + ["refs"], dir, reference);
    assert repo + ["refs"] + [reference] == repo + ["refs", reference];
    assert RefClean(t, dir, reference, ServableCommits(t, repo + ["revisions"], repoType));
    var commit := t[dir + [reference]].line.value;
    assert repo + ["revisions"] + [commit] == repo + ["revisions", commit];
  }

  /** A clean self-check covers every repository it can see: each is clean. */
  lemma CleanCoversEveryRepository(t: Tree, repoType: RepositoryType, dir: Place, namespace: string, name: string)
    requires TypeClean(t, repoType) && DirectoryAt(t, [TypeDirectory(repoType)]) == Some(dir)
    requires IsRepository(t, [TypeDirectory(repoType)], dir, namespace, name)
    ensures RepositoryClean(t, [TypeDirectory(repoType), namespace, name], repoType)
  {
    hide RepositoryClean, IsComponent, Names, DirectoryAt;
    var root := [TypeDirectory(repoType)];
    assert NamespaceClean(t, root, dir, repoType, namespace) && NameClean(t, root, dir, repoType, namespace, name);
    assert root + [namespace, name] == [TypeDirectory(repoType), namespace, name];
  }

  // ---------------------------------------------------------------- where they do not agree

  /** A file whose name begins with a dot resolves like any ref, and whatever it names is never
      checked. */
  lemma HiddenRefsAreUnchecked(t: Tree, repo: Place, dir: Place, name: string, servable: set<string>)
    requires DirectoryAt(t, repo + ["refs"]) == Some(dir) && name in Names(t, dir) && IsFile(t, dir + [name])
    requires IsComponent(name) && name[0] == '.' && t[dir + [name]].line.Some? && IsCommit(t[dir + [name]].line.value)
    ensures RefClean(t, dir, name, servable) && ResolveRef(t, repo, name) == Ok(t[dir + [name]].line.value)
  {
    hide Canonical, Stat, IsCommit, IsComponent, Names, DirectoryAt;
    EntryIsReal(t, repo + ["refs"], dir, name);
    assert repo + ["refs"] + [name] == repo + ["refs", name];
  }

  /** A regular file reached through a linked directory outside the revision draws no finding, and
      does not resolve. */
  lemma LinkedDirectoryEscapes(t: Tree, rev: Place, repoType: RepositoryType, target: Place, e: Entry)
    requires WellFormed(t) && rev in t && t[rev].Directory? && e.path == "d/f"
    requires rev + ["d"] in t && t[rev + ["d"]] == Link(target)
    requires IsFile(t, target + ["f"]) && |t[target + ["f"]].bytes| == e.size && !Within(rev, target + ["f"])
    ensures EntryFinding(t, rev, e).None? && ResolveFile(t, rev, repoType, e.path).Err?
  {
    hide WellFormed, ValidRelative, Key, ReadManifest, EndsInName, IsMissing, Absent;
    LinkedSpelling();
    var place := rev + ["d", "f"];
    assert Parent(place) == rev + ["d"];
    Ancestor(t, target + ["f"], |target|);
    assert (target + ["f"])[..|target|] == target;
    DirectIsCanonical(t, rev);
    WalkToLink(t, rev, ["d", "f"], target, ["f"]);
    WalkToLink(t, rev, ["d"], target, []);
    assert [] + (target + ["f"]) == target + ["f"] && target + [] == target && [] + target == target;
    WalkDirect(t, [], target + ["f"], MAX_LINKS - 1);
    if target != [] { RootIsNoNode(t); }
    WalkDirect(t, [], target, MAX_LINKS - 1);
  }

  lemma LinkedSpelling()
    ensures ValidRelative("d/f") && EndsInName("d/f") && Key("d/f") == ["d", "f"]
  {
    SplitAtFirst('/', "d", "f");
    SplitOfFree('/', "f");
    assert "d" + ['/'] + "f" == "d/f";
    assert Split("d/f") == ["d", "f"];
    NormalKey("d/f");
  }

  /** A lookup through a real directory follows the link it meets there. */
  lemma WalkToLink(t: Tree, dir: Place, rest: seq<string>, target: Place, more: seq<string>)
    requires WellFormed(t) && dir in t && t[dir].Directory? && rest != [] && rest[1..] == more
    requires dir + [rest[0]] in t && t[dir + [rest[0]]] == Link(target)
    ensures Canonical(t, dir + rest) == Walk(t, [], target + more, MAX_LINKS - 1)
  {
    hide WellFormed;
    assert [] + dir == dir;
    WalkThrough(t, [], dir, rest, MAX_LINKS);
  }

  lemma {:induction false} WalkThrough(t: Tree, at: Place, dir: seq<string>, rest: seq<string>, links: nat)
    requires WellFormed(t) && (at + dir == [] || (at + dir in t && !t[at + dir].Link?))
    ensures Walk(t, at, dir + rest, links) == Walk(t, at + dir, rest, links)
    decreases |dir|
  {
    hide WellFormed;
    if dir == [] {
      assert at + dir == at && dir + rest == rest;
    } else {
      NextIsReal(t, at, dir);
      WalkThrough(t, at + [dir[0]], dir[1..], rest, links);
      assert (dir + rest)[1..] == dir[1..] + rest;
    }
  }
}
