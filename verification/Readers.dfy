/** Reading a published revision: resolving one listed file, and verifying the whole revision. */
module Readers {
  import opened Common
  import opened Manifests
  import opened Paths
  import opened Text
  import opened FileTree
  import opened Cleanup

  datatype ReadError = InvalidPath | NotFound | Integrity

  datatype Outcome<+T> = Ok(value: T) | Err(error: ReadError)

  /** The manifest of the revision at `rev`. */
  function ReadManifest(t: Tree, rev: Place, repoType: RepositoryType): Outcome<Manifest> {
    match Stat(t, rev + [MANIFEST_NAME])
    case Some(File(_, Some(m), _)) => if m.repoType == repoType then Ok(m) else Err(Integrity)
    case Some(File(_, None, _)) => Err(Integrity)
    case _ => Err(NotFound)
  }

  datatype Resolved = Resolved(place: Place, size: nat, digest: Digest)

  predicate IsFile(t: Tree, p: Place) {
    p in t && t[p].File?
  }

  /** The file a listed path serves: it must be a regular file whose real place is inside the
      revision's. No file resolves under a path that does not end in a name. */
  function ResolveFile(t: Tree, rev: Place, repoType: RepositoryType, path: string): (r: Outcome<Resolved>)
    ensures r.Ok? ==> IsFile(t, r.value.place) && r.value.size == |t[r.value.place].bytes|
  {
    if !ValidRelative(path) then Err(InvalidPath)
    else
      match ReadManifest(t, rev, repoType)
      case Err(e) => Err(e)
      case Ok(m) =>
        if !m.complete then Err(Integrity)
        else
          var i := Find(m.entries, path);
          var root, place := Canonical(t, rev), Canonical(t, rev + Key(path));
          if i == |m.entries| || root.None? || place.None? || !EndsInName(path) then Err(NotFound)
          else if !Within(root.value, place.value) || !IsFile(t, place.value) then Err(NotFound)
          else Ok(Resolved(place.value, |t[place.value].bytes|, m.entries[i].digest))
  }

  /** A path is served exactly if it is valid, ends in a name, is listed by a complete manifest and leads to a
      regular file inside the revision; and what is served is that file, under the digest of the first entry
      with the path. A path that is not valid, and one that is not there, are told apart. */
  lemma ResolvedMeans(t: Tree, rev: Place, repoType: RepositoryType, path: string)
    ensures var (r, m) := (ResolveFile(t, rev, repoType, path), ReadManifest(t, rev, repoType));
            var (root, place) := (Canonical(t, rev), Canonical(t, rev + Key(path)));
            && (r.Ok? <==>
                  && ValidRelative(path) && EndsInName(path) && m.Ok? && m.value.complete && path in Listed(m.value.entries)
                  && root.Some? && place.Some? && Within(root.value, place.value) && IsFile(t, place.value))
            && (r.Ok? ==> r.value.place == place.value && r.value.size == |t[place.value].bytes|)
            && (r.Ok? ==> exists i :: 0 <= i < |m.value.entries| && m.value.entries[i].path == path
                            && r.value.digest == m.value.entries[i].digest
                            && forall j :: 0 <= j < i ==> m.value.entries[j].path != path)
            && (r == Err(InvalidPath) <==> !ValidRelative(path))
            && (ValidRelative(path) && m.Err? ==> r == Err(m.error))
            && (ValidRelative(path) && m.Ok? && !m.value.complete ==> r == Err(Integrity))
            && (ValidRelative(path) && m.Ok? && m.value.complete && !r.Ok? ==> r == Err(NotFound))
  {
    hide Canonical, ValidRelative, EndsInName, Key, Stat;
  }

  // ---------------------------------------------------------------- the file set

  /** A spelling names a regular file below `dir` that is not ModelKeep's own. */
  predicate IsContent(t: Tree, root: Place, dir: Place, text: string) {
    var p := root + Split(text);
    IsFile(t, p) && Under(dir, p) && !IsInternal(text)
  }

  /** Nothing but directories and regular files with acceptable names may be found. */
  predicate Collectable(t: Tree, root: Place, p: Place)
    requires Under(root, p) && p in t
  {
    t[p].Directory? || (t[p].File? && ValidRelative(Spelling(Rel(root, p))))
  }

  predicate AllCollectable(t: Tree, root: Place, dir: Place) {
    forall p :: p in t && Under(dir, p) && Under(root, p) && !IsInternalKey(Rel(root, p)) ==> Collectable(t, root, p)
  }

  predicate ChildCollectable(t: Tree, root: Place, dir: Place, name: string) {
    forall p :: p in t && Of(dir, name, p) && Under(root, p) && !IsInternalKey(Rel(root, p)) ==> Collectable(t, root, p)
  }

  lemma InternalBelow(root: Place, dir: Place, name: string, p: Place)
    requires Within(root, dir) && Of(dir, name, p)
    ensures Under(root, dir + [name]) && Under(root, p)
    ensures IsInternalKey(Rel(root, dir + [name])) ==> IsInternalKey(Rel(root, p))
  {
    assert p[..|root|] == p[..|dir|][..|root|];
    var rel, below := Rel(root, dir + [name]), Rel(root, p);
    assert forall i :: 0 <= i < |rel| ==> rel[i] == below[i];
    if ".cache" in rel {
      var i :| 0 <= i < |rel| && rel[i] == ".cache";
      assert below[i] in below;
    }
  }

  lemma SpellingOf(t: Tree, root: Place, p: Place)
    requires WellFormed(t) && p in t && Under(root, p)
    ensures var text := Spelling(Rel(root, p));
            && Split(text) == Rel(root, p) && root + Split(text) == p && Normal(text)
            && (IsInternal(text) <==> IsInternalKey(Rel(root, p)))
  {
    var rel := Rel(root, p);
    forall i | 0 <= i < |rel| ensures IsName(rel[i]) { assert rel[i] == p[|root| + i]; }
    SpellingIsNormal(rel);
    assert root + rel == p;
  }

  lemma ContentSpelling(root: Place, text: string)
    ensures Under(root, root + Split(text)) && Spelling(Rel(root, root + Split(text))) == text
  {
    JoinInvertsSplit('/', text);
    assert Rel(root, root + Split(text)) == Split(text);
  }

  /** What one directory entry contributes. */
  predicate Contributes(t: Tree, root: Place, dir: Place, name: string, text: string) {
    IsContent(t, root, dir, text) && Of(dir, name, root + Split(text))
  }

  lemma LeafIsAlone(t: Tree, dir: Place, name: string, p: Place)
    requires WellFormed(t) && dir + [name] in t && !t[dir + [name]].Directory? && p in t && Of(dir, name, p)
    ensures p == dir + [name]
  {
    hide WellFormed;
    UnderChild(dir, name, p);
    assert p[..|dir| + 1] == dir + [name];
    if p != dir + [name] { Ancestor(t, p, |dir| + 1); }
  }

  /** A regular file contributes its own spelling. */
  lemma FileContributes(t: Tree, root: Place, dir: Place, name: string, text: string)
    requires WellFormed(t) && Within(root, dir) && IsFile(t, dir + [name])
    requires Under(root, dir + [name]) && !IsInternalKey(Rel(root, dir + [name]))
    ensures Contributes(t, root, dir, name, text) <==> text == Spelling(Rel(root, dir + [name]))
  {
    hide WellFormed, IsInternalKey, Spelling, IsInternal;
    SpellingOf(t, root, dir + [name]);
    ContentSpelling(root, text);
    if Contributes(t, root, dir, name, text) {
      LeafIsAlone(t, dir, name, root + Split(text));
    }
    assert Of(dir, name, dir + [name]);
  }

  /** Collects the spellings of every regular file below `dir`, in any reading order. It fails on
      anything that is neither a directory nor an acceptable regular file. */
  method CollectFiles(t: Tree, root: Place, dir: Place, files: set<string>) returns (ok: bool, files': set<string>)
    requires WellFormed(t) && IsDir(t, dir) && Within(root, dir)
    requires Under(root, dir) ==> !IsInternalKey(Rel(root, dir))
    ensures ok <==> AllCollectable(t, root, dir)
    ensures ok ==> forall text :: text in files' <==> text in files || IsContent(t, root, dir, text)
    decreases |Subtree(t, dir)|, 1
  {
    hide WellFormed, IsInternalKey, IsContent, ChildCollectable, AllCollectable, IsDir, Under, Gathered, Contributes;
    files' := files;
    NothingGathered(t, root, dir);
    var rest := Names(t, dir);
    ghost var done := {};
    while rest != {}
      invariant Names(t, dir) == done + rest && done !! rest
      invariant forall name :: name in done ==> ChildCollectable(t, root, dir, name)
      invariant forall text :: text in files' <==> text in files || Gathered(t, root, dir, done, text)
      decreases |rest|
    {
      var name :| name in rest;
      rest := rest - {name};
      NamesAre(t, dir, name);
      ok, files' := CollectOne(t, root, dir, name, files');
      OneOfAll(t, root, dir, name);
      if !ok { return; }
      GatherOne(t, root, dir, done, name);
      done := done + {name};
    }
    EveryChild(t, root, dir, done);
    return true, files';
  }

  /** A spelling contributed by one of the entries in `done`. */
  predicate Gathered(t: Tree, root: Place, dir: Place, done: set<string>, text: string) {
    exists name :: name in done && Contributes(t, root, dir, name, text)
  }

  lemma NothingGathered(t: Tree, root: Place, dir: Place)
    ensures forall text :: !Gathered(t, root, dir, {}, text)
  {
  }

  lemma GatherOne(t: Tree, root: Place, dir: Place, done: set<string>, name: string)
    ensures forall text :: Gathered(t, root, dir, done + {name}, text) <==>
              Gathered(t, root, dir, done, text) || Contributes(t, root, dir, name, text)
  {
    hide Contributes;
  }

  lemma OneOfAll(t: Tree, root: Place, dir: Place, name: string)
    ensures AllCollectable(t, root, dir) ==> ChildCollectable(t, root, dir, name)
  {
  }

  lemma EveryChild(t: Tree, root: Place, dir: Place, done: set<string>)
    requires WellFormed(t) && done == Names(t, dir) && forall name :: name in done ==> ChildCollectable(t, root, dir, name)
    ensures AllCollectable(t, root, dir)
    ensures forall text :: IsContent(t, root, dir, text) <==> Gathered(t, root, dir, done, text)
  {
    hide WellFormed, IsInternalKey, Collectable, IsInternal;
    forall p | p in t && Under(dir, p) ensures p[|dir|] in done && Of(dir, p[|dir|], p) {
      ChildOf(t, dir, p);
    }
    forall text | IsContent(t, root, dir, text) ensures Gathered(t, root, dir, done, text) {
      assert Contributes(t, root, dir, (root + Split(text))[|dir|], text);
    }
  }

  method CollectOne(t: Tree, root: Place, dir: Place, name: string, files: set<string>) returns (ok: bool, files': set<string>)
    requires WellFormed(t) && IsDir(t, dir) && Within(root, dir) && dir + [name] in t
    requires Under(root, dir) ==> !IsInternalKey(Rel(root, dir))
    ensures ok <==> ChildCollectable(t, root, dir, name)
    ensures ok ==> forall text :: text in files' <==> text in files || Contributes(t, root, dir, name, text)
    decreases |Subtree(t, dir)|, 0
  {
    hide WellFormed, IsInternalKey, IsInternal, ValidRelative, Subtree, Split;
    var p := dir + [name];
    assert Of(dir, name, p);
    InternalBelow(root, dir, name, p);
    SpellingOf(t, root, p);
    if IsInternal(Spelling(Rel(root, p))) {
      InternalContributesNothing(t, root, dir, name);
      return true, files;
    }
    if t[p].Directory? {
      ChildIsSmaller(t, t, dir, name);
      ok, files' := CollectFiles(t, root, p, files);
      DirectoryContributes(t, root, dir, name);
    } else if t[p].File? {
      FileIsCollectable(t, root, dir, name);
      forall text ensures Contributes(t, root, dir, name, text) <==> text == Spelling(Rel(root, p)) {
        FileContributes(t, root, dir, name, text);
      }
      if !ValidRelative(Spelling(Rel(root, p))) {
        return false, files;
      }
      return true, files + {Spelling(Rel(root, p))};
    } else {
      assert !Collectable(t, root, p);
      return false, files;
    }
  }

  lemma InternalContributesNothing(t: Tree, root: Place, dir: Place, name: string)
    requires WellFormed(t) && Within(root, dir) && Under(root, dir + [name]) && IsInternalKey(Rel(root, dir + [name]))
    ensures ChildCollectable(t, root, dir, name) && forall text :: !Contributes(t, root, dir, name, text)
  {
    hide WellFormed, IsInternalKey, Collectable, Split;
    forall p | p in t && Of(dir, name, p) ensures Under(root, p) && IsInternalKey(Rel(root, p)) {
      InternalBelow(root, dir, name, p);
    }
    forall text | IsContent(t, root, dir, text) ensures !Of(dir, name, root + Split(text)) {
      ContentSpelling(root, text);
      SpellingOf(t, root, root + Split(text));
    }
  }

  lemma DirectoryContributes(t: Tree, root: Place, dir: Place, name: string)
    requires Within(root, dir) && dir + [name] in t && t[dir + [name]].Directory?
    ensures ChildCollectable(t, root, dir, name) <==> AllCollectable(t, root, dir + [name])
    ensures forall text :: Contributes(t, root, dir, name, text) <==> IsContent(t, root, dir + [name], text)
  {
    hide IsInternalKey, Split, IsInternal;
    forall p | p in t ensures Of(dir, name, p) <==> p == dir + [name] || Under(dir + [name], p) {
      UnderChild(dir, name, p);
      assert Of(dir, name, dir + [name]);
    }
  }

  lemma FileIsCollectable(t: Tree, root: Place, dir: Place, name: string)
    requires WellFormed(t) && Within(root, dir) && IsFile(t, dir + [name])
    requires Under(root, dir + [name]) && !IsInternalKey(Rel(root, dir + [name]))
    ensures ChildCollectable(t, root, dir, name) <==> ValidRelative(Spelling(Rel(root, dir + [name])))
  {
    hide WellFormed, IsInternalKey, ValidRelative;
    assert Of(dir, name, dir + [name]);
    forall p | p in t && Of(dir, name, p) ensures p == dir + [name] {
      LeafIsAlone(t, dir, name, p);
    }
  }

  // ---------------------------------------------------------------- verification

  predicate EntryVerifies(t: Tree, rev: Place, repoType: RepositoryType, e: Entry) {
    var r := ResolveFile(t, rev, repoType, e.path);
    r.Ok? && r.value.size == e.size && Sha256(t[r.value.place].bytes) == e.digest
  }

  /** A revision is intact: its manifest is complete, every entry's file is there with the recorded
      size and digest, and the revision holds exactly the listed files. */
  ghost predicate Verified(t: Tree, rev: Place, repoType: RepositoryType) {
    var m := ReadManifest(t, rev, repoType);
    var root := Canonical(t, rev);
    && m.Ok? && m.value.complete
    && (forall i :: 0 <= i < |m.value.entries| ==> EntryVerifies(t, rev, repoType, m.value.entries[i]))
    && root.Some? && IsDir(t, root.value) && AllCollectable(t, root.value, root.value)
    && (forall text :: text in Listed(m.value.entries) <==> IsContent(t, root.value, root.value, text))
  }

  /** Verification succeeds exactly for intact revisions, with the number of entries. */
  method VerifyRevision(t: Tree, rev: Place, repoType: RepositoryType) returns (r: Outcome<nat>)
    requires WellFormed(t)
    ensures r.Ok? <==> Verified(t, rev, repoType)
    ensures r.Ok? ==> r.value == |ReadManifest(t, rev, repoType).value.entries|
  {
    hide WellFormed, ResolveFile, Canonical, IsContent, AllCollectable, Stat;
    var m := ReadManifest(t, rev, repoType);
    if m.Err? { return Err(m.error); }
    if !m.value.complete { return Err(Integrity); }
    var entries := m.value.entries;
    var verified := 0;
    while verified < |entries|
      invariant verified <= |entries|
      invariant forall i :: 0 <= i < verified ==> EntryVerifies(t, rev, repoType, entries[i])
    {
      var e := entries[verified];
      assert !EntryVerifies(t, rev, repoType, e) ==> !Verified(t, rev, repoType);
      var resolved := ResolveFile(t, rev, repoType, e.path);
      if resolved.Err? { return Err(resolved.error); }
      if resolved.value.size != e.size || Sha256(t[resolved.value.place].bytes) != e.digest {
        return Err(Integrity);
      }
      verified := verified + 1;
    }
    var root := Canonical(t, rev);
    if root.None? || !IsDir(t, root.value) { return Err(NotFound); }
    var ok, actual := CollectFiles(t, root.value, root.value, {});
    if !ok || actual != Listed(entries) { return Err(Integrity); }
    return Ok(verified);
  }
}
