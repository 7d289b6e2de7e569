/** Publishing the directory an acquisition filled, in place: its files are checked and hashed,
    everything else in it is removed, and it is renamed to the revision. */
module ReusePublication {
  import opened Common
  import opened Manifests
  import opened Paths
  import Text
  import opened FileTree
  import opened Cleanup
  import opened Readers
  import opened PublishedTree
  import opened Publication

  /** One acquired file: its archive path, and where the acquisition says it is. */
  datatype Acquired = Acquired(path: string, source: Place)

  /** The file is a regular one, the archive path leads to the very same file inside the directory,
      and the entry records its content. */
  predicate Recorded(t: Tree, staging: Place, f: Acquired, e: Entry) {
    var s := Canonical(t, f.source);
    && ValidRelative(f.path) && EndsInName(f.path) && e.path == f.path
    && s.Some? && Canonical(t, staging + Key(f.path)) == s && IsFile(t, s.value) && Within(staging, s.value)
    && e.size == |t[s.value].bytes| && e.digest == Sha256(t[s.value].bytes)
  }

  function PathsOf(files: seq<Acquired>): set<string> {
    set i | 0 <= i < |files| :: files[i].path
  }

  predicate AllRecorded(t: Tree, staging: Place, files: seq<Acquired>, entries: seq<Entry>) {
    |entries| == |files| && forall i :: 0 <= i < |files| ==> Recorded(t, staging, files[i], entries[i])
  }

  /** The source's own directory entry is a regular file, and it is the file, inside the directory,
      that the archive path leads to. */
  predicate Acceptable(t: Tree, staging: Place, f: Acquired) {
    var entry, s := Lstat(t, f.source), Canonical(t, f.source);
    && ValidRelative(f.path) && EndsInName(f.path) && entry.Some? && entry.value.File?
    && s.Some? && Canonical(t, staging + Key(f.path)) == s && Within(staging, s.value)
  }

  predicate DistinctPaths(files: seq<Acquired>) {
    forall i, j :: 0 <= i < j < |files| ==> files[i].path != files[j].path
  }

  /** Checks and hashes every file. The files are accepted exactly when each is acceptable and no path
      is repeated. */
  method CheckSources(t: Tree, staging: Place, files: seq<Acquired>) returns (ok: bool, entries: seq<Entry>)
    ensures ok <==> DistinctPaths(files) && forall i :: 0 <= i < |files| ==> Acceptable(t, staging, files[i])
    ensures ok ==> AllRecorded(t, staging, files, entries)
  {
    hide Canonical, ValidRelative, EndsInName, Key;
    entries := [];
    var seen := {};
    for i := 0 to |files|
      invariant AllRecorded(t, staging, files[..i], entries)
      invariant forall j :: 0 <= j < i ==> Acceptable(t, staging, files[j])
      invariant seen == PathsOf(files[..i])
      invariant forall j, k :: 0 <= j < k < i ==> files[j].path != files[k].path
    {
      var f := files[i];
      assert files[..i + 1] == files[..i] + [f];
      if !ValidRelative(f.path) { return false, []; }
      if f.path in seen {
        var j :| 0 <= j < |files[..i]| && files[..i][j].path == f.path;
        assert files[j].path == files[i].path;
        return false, [];
      }
      seen := seen + {f.path};
      var source := Lstat(t, f.source);
      if source.None? || !source.value.File? { return false, []; }
      var place, archived := Canonical(t, f.source), Canonical(t, staging + Key(f.path));
      StatAndLstat(t, f.source);
      if place.None? || archived.None? || !EndsInName(f.path) || !Within(staging, place.value) || place != archived {
        return false, [];
      }
      var bytes := t[place.value].bytes;
      entries := entries + [Entry(f.path, |bytes|, Sha256(bytes))];
      forall j | 0 <= j < i ensures files[j].path != f.path {
        assert files[..i][j].path in PathsOf(files[..i]);
      }
      SeenGrows(files, i);
    }
    assert files[..|files|] == files;
    return true, entries;
  }

  lemma {:induction false} SeenGrows(files: seq<Acquired>, i: nat)
    requires i < |files|
    ensures PathsOf(files[..i + 1]) == PathsOf(files[..i]) + {files[i].path}
  {
    assert files[..i + 1] == files[..i] + [files[i]];
    assert files[..i + 1][i].path in PathsOf(files[..i + 1]);
    forall path | path in PathsOf(files[..i]) ensures path in PathsOf(files[..i + 1]) {
      var j :| 0 <= j < i && files[..i][j].path == path;
      assert files[..i + 1][j].path == path;
    }
  }

  // ---------------------------------------------------------------- what the cleanup leaves

  /** The directory has been cleared down to the listed files. */
  ghost predicate ClearedDown(t0: Tree, t: Tree, staging: Place, files: seq<Acquired>) {
    && WellFormed(t) && OnlyShrunk(t0, t, staging)
    && forall p :: p in t0 && Under(staging, p) ==> (p in t <==> Under(staging, p) && Survives(t0, staging, PathsOf(files), p))
  }

  lemma ListedIsKeyOf(t: Tree, staging: Place, files: seq<Acquired>, entries: seq<Entry>, p: Place)
    requires WellFormed(t) && AllRecorded(t, staging, files, entries) && IsListedFile(t, staging, PathsOf(files), p)
    ensures IsKeyOf(entries, Rel(staging, p))
  {
    hide WellFormed, Recorded, Key, Normal, IsInternal, IsInternalKey;
    SpellingOf(t, staging, p);
    NormalKey(Spelling(Rel(staging, p)));
    var i :| 0 <= i < |files| && files[i].path == Spelling(Rel(staging, p));
    assert Recorded(t, staging, files[i], entries[i]);
    PathOfEntry(t, staging, files[i], entries[i]);
  }

  lemma PathOfEntry(t: Tree, staging: Place, f: Acquired, e: Entry)
    requires Recorded(t, staging, f, e)
    ensures e.path == f.path && ValidRelative(e.path)
  {
  }

  lemma InPlaceIsListed(t: Tree, staging: Place, files: seq<Acquired>, path: string)
    requires path in PathsOf(files) && InPlace(t, staging, path) && ValidRelative(path)
    ensures IsListedFile(t, staging, PathsOf(files), staging + Key(path))
  {
    hide ValidRelative;
    NormalKey(path);
    ContentSpelling(staging, path);
  }

  /** A listed path is in place after the cleanup exactly when it was before. */
  lemma StaysInPlace(t0: Tree, t: Tree, staging: Place, files: seq<Acquired>, path: string)
    requires ClearedDown(t0, t, staging, files) && path in PathsOf(files) && ValidRelative(path)
    ensures InPlace(t, staging, path) <==> InPlace(t0, staging, path)
    ensures InPlace(t, staging, path) ==> t[staging + Key(path)] == t0[staging + Key(path)]
  {
    hide WellFormed, ValidRelative, Normal, Key, IsProtected, PathsOf;
    if InPlace(t0, staging, path) {
      InPlaceIsListed(t0, staging, files, path);
      assert Survives(t0, staging, PathsOf(files), staging + Key(path));
    }
  }

  /** The entry records the file that is in place. */
  lemma RecordedMatches(t0: Tree, staging: Place, f: Acquired, e: Entry)
    requires WellFormed(t0) && Recorded(t0, staging, f, e)
    ensures EntryMatches(t0, staging, e)
  {
    hide WellFormed, Key, ValidRelative, Normal, Canonical;
    if InPlace(t0, staging, e.path) {
      DirectIsCanonical(t0, staging + Key(e.path));
    }
  }

  lemma Survivor(t0: Tree, t: Tree, staging: Place, files: seq<Acquired>, entries: seq<Entry>, p: Place)
    requires WellFormed(t0) && ClearedDown(t0, t, staging, files) && AllRecorded(t0, staging, files, entries)
    requires p in t && Under(staging, p) && !IsProtected(p[|staging|])
    ensures !t[p].Link? && (t[p].File? ==> IsKeyOf(entries, Rel(staging, p)))
  {
    hide WellFormed, Key, ValidRelative, IsKeyOf, IsProtected, AllRecorded, PathsOf, Spelling;
    assert p in t0 && Survives(t0, staging, PathsOf(files), p);
    if t[p].File? { ListedIsKeyOf(t0, staging, files, entries, p); }
  }

  lemma WithinChild(dir: Place, name: string, p: Place)
    requires Under(dir, p) && p[|dir|] == name
    ensures Within(dir + [name], p)
  {
    UnderChild(dir, name, p);
  }

  /** With the manifest written, the directory is a complete revision but for its lease. */
  lemma {:induction false} ReusedIsComplete(t0: Tree, t: Tree, staging: Place, repoType: RepositoryType, files: seq<Acquired>,
                         entries: seq<Entry>, text: Bytes)
    requires WellFormed(t0) && ClearedDown(t0, t, staging, files) && AllRecorded(t0, staging, files, entries)
    requires IsDir(t, staging) && (staging + [MANIFEST_NAME] in t ==> !t[staging + [MANIFEST_NAME]].Directory?)
    ensures var t' := t[staging + [MANIFEST_NAME] := File(text, Some(Manifest(true, repoType, entries)), None)];
            && CompleteButLease(t', staging, repoType, entries)
            && (forall i :: 0 <= i < |files| ==>
                  ValidRelative(files[i].path) && (InPlace(t', staging, files[i].path) <==> InPlace(t0, staging, files[i].path)))
  {
    hide WellFormed, Key, ValidRelative, IsInternalKey, Normal, IsKeyOf, Recorded, ClearedDown, Survives, PathsOf, InPlace;
    var place := staging + [MANIFEST_NAME];
    var t' := t[place := File(text, Some(Manifest(true, repoType, entries)), None)];
    ChildPlace(staging, MANIFEST_NAME);
    ProtectedIsInternal(MANIFEST_NAME);
    forall p | p in t && Under(staging, p) && !Within(staging + [LEASE_NAME], p) && p != place
      ensures !t[p].Link? && (t[p].File? ==> IsKeyOf(entries, Rel(staging, p)))
    {
      OrdinaryChild(t0, t, staging, files, p);
      Survivor(t0, t, staging, files, entries, p);
    }
    forall i | 0 <= i < |files|
      ensures EntryMatches(t', staging, entries[i]) && ValidRelative(files[i].path)
      ensures InPlace(t', staging, files[i].path) <==> InPlace(t0, staging, files[i].path)
    {
      EntryStays(t0, t, staging, files, entries, i, t'[place]);
    }
  }

  lemma OrdinaryChild(t0: Tree, t: Tree, staging: Place, files: seq<Acquired>, p: Place)
    requires ClearedDown(t0, t, staging, files) && p in t && Under(staging, p) && !Within(staging + [LEASE_NAME], p)
    requires p != staging + [MANIFEST_NAME] && (staging + [MANIFEST_NAME] in t ==> !t[staging + [MANIFEST_NAME]].Directory?)
    ensures !IsProtected(p[|staging|])
  {
    hide WellFormed, Survives, PathsOf;
    if p[|staging|] == LEASE_NAME { WithinChild(staging, LEASE_NAME, p); }
    if p[|staging|] == MANIFEST_NAME {
      WithinChild(staging, MANIFEST_NAME, p);
      Ancestor(t, p, |staging| + 1);
    }
  }

  lemma {:induction false} EntryStays(t0: Tree, t: Tree, staging: Place, files: seq<Acquired>, entries: seq<Entry>, i: nat, node: Node)
    requires WellFormed(t0) && ClearedDown(t0, t, staging, files) && AllRecorded(t0, staging, files, entries) && i < |files|
    requires node.File?
    ensures var t' := t[staging + [MANIFEST_NAME] := node];
            && ValidRelative(files[i].path) && EntryMatches(t', staging, entries[i])
            && (InPlace(t', staging, files[i].path) <==> InPlace(t0, staging, files[i].path))
  {
    hide WellFormed, Key, ValidRelative, Normal, ClearedDown, PathsOf;
    assert Recorded(t0, staging, files[i], entries[i]);
    PathOfEntry(t0, staging, files[i], entries[i]);
    RecordedMatches(t0, staging, files[i], entries[i]);
    ListedPath(files, i);
    StaysInPlace(t0, t, staging, files, files[i].path);
    if Normal(files[i].path) { NotProtected(staging, files[i].path, MANIFEST_NAME); }
  }

  lemma {:induction false} ListedPath(files: seq<Acquired>, i: nat)
    requires i < |files|
    ensures files[i].path in PathsOf(files)
  {
  }

  // ---------------------------------------------------------------- publication by reuse

  /** The manifest's name in a directory is a symbolic link, which the cleanup spares and writing the
      manifest follows. */
  predicate IsLinked(t: Tree, staging: Place) {
    staging + [MANIFEST_NAME] in t && t[staging + [MANIFEST_NAME]].Link?
  }

  /** Nothing has changed outside the two directories but at the places in `spill`. */
  ghost predicate OnlyTheseBut(t0: Tree, t: Tree, staging: Place, published: Place, spill: set<Place>) {
    forall p :: !Within(staging, p) && !Within(published, p) && p !in spill ==> (p in t <==> p in t0) && (p in t0 ==> t[p] == t0[p])
  }

  /** Nothing about the directory keeps it from being published as these files: each is acceptable, no path
      is repeated, and no directory has the name of the manifest or of the lease. */
  predicate Reusable(t: Tree, staging: Place, files: seq<Acquired>) {
    && DistinctPaths(files) && (forall i :: 0 <= i < |files| ==> Acceptable(t, staging, files[i]))
    && IsFreeOf(t, staging, MANIFEST_NAME) && IsFreeOf(t, staging, LEASE_NAME)
  }

  /** No directory has this name. */
  predicate IsFreeOf(t: Tree, staging: Place, name: string) {
    staging + [name] in t ==> !t[staging + [name]].Directory?
  }

  /** Turns the directory into a revision: checks and hashes the files, clears everything else,
      writes the manifest. If the manifest's name is a link, the manifest ends up in the one place
      where the link leads, and the link stays. */
  method WriteSourceManifest(fs: FileSystem, staging: Place, repoType: RepositoryType, files: seq<Acquired>, text: Bytes)
    returns (ok: bool, ghost entries: seq<Entry>, ghost spill: set<Place>)
    requires WellFormed(fs.tree) && AllNames(staging) && staging in fs.tree && fs.tree[staging].Directory?
    modifies fs
    ensures fs.used >= old(fs.used)
    ensures !IsLinked(old(fs.tree), staging) && IsFreeOf(old(fs.tree), staging, LEASE_NAME) ==>
              (ok <==> fs.AllWent(old(fs.used)) && Reusable(old(fs.tree), staging, files))
    ensures ok && !IsLinked(old(fs.tree), staging) ==>
              (IsFreeOf(fs.tree, staging, LEASE_NAME) <==> IsFreeOf(old(fs.tree), staging, LEASE_NAME))
    ensures WellFormed(fs.tree) && OnlyTheseBut(old(fs.tree), fs.tree, staging, staging, spill)
    ensures !IsLinked(old(fs.tree), staging) ==> spill == {}
    ensures |spill| <= 1 && (spill != {} ==> |entries| == |files|) && forall p :: p in spill ==> IsFile(fs.tree, p) && fs.tree[p].bytes == text
    ensures forall p :: p in old(fs.tree) && !Within(staging, p) ==> p in fs.tree && (fs.tree[p].Directory? <==> old(fs.tree)[p].Directory?)
    ensures staging in fs.tree && fs.tree[staging].Directory?
    ensures ok && IsLinked(old(fs.tree), staging) ==> IsLinked(fs.tree, staging)
    ensures ok ==> |entries| == |files| && (CompleteButLease(fs.tree, staging, repoType, entries) <==> !IsLinked(old(fs.tree), staging))
    ensures ok && !IsLinked(old(fs.tree), staging) ==> forall i :: 0 <= i < |files| ==>
              && ValidRelative(files[i].path) && entries[i].path == files[i].path
              && (InPlace(fs.tree, staging, files[i].path) <==> InPlace(old(fs.tree), staging, files[i].path))
  {
    hide WellFormed, AllNames, Canonical, Key, ValidRelative, Normal, CompleteButLease, InPlace, Survives, Recorded, PathsOf,
         Landing, AllRecorded, Acceptable, DistinctPaths, OnlyTheseBut, OnlyShrunk, IsLinked, IsProtected;
    ghost var t0 := fs.tree;
    var recorded;
    spill := {};
    ok, recorded := CheckSources(fs.tree, staging, files);
    entries := recorded;
    NothingWritten(t0, t0, staging);
    if !ok { return; }
    RecordedPaths(t0, staging, files, recorded);
    CleanupApplies(t0, staging);
    ok := RemoveUnlisted(fs, staging, staging, PathsOf(files));
    NothingWritten(t0, fs.tree, staging);
    if !ok { return; }
    ManifestSurvives(t0, fs.tree, staging, PathsOf(files));
    ProtectedNames();
    ghost var t := fs.tree;
    if !IsLinked(t0, staging) { ManifestLandsHere(t, staging); }
    var at := Landing(fs.tree, staging + [MANIFEST_NAME], MAX_LINKS);
    if at.None? { return false, entries, spill; }
    LandingIsReal(fs.tree, staging + [MANIFEST_NAME], MAX_LINKS);
    if at.value in fs.tree && fs.tree[at.value].Directory? { return false, entries, spill; }
    ok := fs.Put(at.value, File(text, Some(Manifest(true, repoType, recorded)), None));
    if ok {
      if IsLinked(t0, staging) {
        spill := {at.value};
        ManifestElsewhere(t0, t, staging, at.value, repoType, recorded, text);
      } else {
        ManifestHere(t0, t, staging, repoType, files, recorded, text);
        ManifestIsNotLease(staging);
      }
      ok := fs.Sync();
      if ok { ok := fs.Sync(); }
    }
  }

  lemma ProtectedNames()
    ensures IsProtected(MANIFEST_NAME) && IsProtected(LEASE_NAME)
  {
  }

  lemma CleanupApplies(t: Tree, staging: Place)
    requires staging in t && t[staging].Directory?
    ensures IsDir(t, staging) && Within(staging, staging) && !Under(staging, staging)
  {
  }

  lemma RecordedPaths(t: Tree, staging: Place, files: seq<Acquired>, entries: seq<Entry>)
    requires AllRecorded(t, staging, files, entries)
    ensures |entries| == |files| && forall i :: 0 <= i < |files| ==> ValidRelative(files[i].path) && entries[i].path == files[i].path
  {
    hide ValidRelative, Recorded;
    forall i | 0 <= i < |files| ensures ValidRelative(files[i].path) && entries[i].path == files[i].path {
      PathOfEntry(t, staging, files[i], entries[i]);
    }
  }

  lemma NothingWritten(t0: Tree, t: Tree, staging: Place)
    requires t == t0 || OnlyShrunk(t0, t, staging)
    requires staging in t0 && t0[staging].Directory?
    ensures OnlyTheseBut(t0, t, staging, staging, {})
    ensures staging in t && t[staging].Directory?
    ensures forall p :: p in t0 && !Within(staging, p) ==> p in t && (t[p].Directory? <==> t0[p].Directory?)
  {
  }

  /** The name is not a link: the manifest is written in the directory. */
  lemma ManifestHere(t0: Tree, t: Tree, staging: Place, repoType: RepositoryType, files: seq<Acquired>, entries: seq<Entry>, text: Bytes)
    requires WellFormed(t0) && ClearedDown(t0, t, staging, files) && AllRecorded(t0, staging, files, entries)
    requires staging in t0 && t0[staging].Directory? && !IsLinked(t, staging)
    requires staging + [MANIFEST_NAME] in t ==> !t[staging + [MANIFEST_NAME]].Directory?
    ensures var t' := t[staging + [MANIFEST_NAME] := File(text, Some(Manifest(true, repoType, entries)), None)];
            && Landing(t, staging + [MANIFEST_NAME], MAX_LINKS) == Some(staging + [MANIFEST_NAME])
            && OnlyTheseBut(t0, t', staging, staging, {}) && staging in t' && t'[staging].Directory?
            && (forall p :: p in t0 && !Within(staging, p) ==> p in t' && (t'[p].Directory? <==> t0[p].Directory?))
            && CompleteButLease(t', staging, repoType, entries)
            && (forall i :: 0 <= i < |files| ==> (InPlace(t', staging, files[i].path) <==> InPlace(t0, staging, files[i].path)))
  {
    hide WellFormed, AllRecorded, Landing, CompleteButLease, InPlace, Survives, PathsOf;
    ManifestLandsHere(t, staging);
    ReusedIsComplete(t0, t, staging, repoType, files, entries, text);
    NothingWritten(t0, t, staging);
  }

  /** The name is a link: the manifest is written where it leads, and the link stays. */
  lemma ManifestElsewhere(t0: Tree, t: Tree, staging: Place, at: Place, repoType: RepositoryType, entries: seq<Entry>, text: Bytes)
    requires OnlyShrunk(t0, t, staging) && IsLinked(t, staging) && staging in t0 && t0[staging].Directory?
    requires at in t ==> !t[at].Link? && !t[at].Directory?
    ensures var t' := t[at := File(text, Some(Manifest(true, repoType, entries)), None)];
            && OnlyTheseBut(t0, t', staging, staging, {at}) && staging in t' && t'[staging].Directory?
            && (forall p :: p in t0 && !Within(staging, p) ==> p in t' && (t'[p].Directory? <==> t0[p].Directory?))
            && IsFile(t', at) && t'[at].bytes == text
            && IsLinked(t', staging) && !CompleteButLease(t', staging, repoType, entries)
  {
  }

  lemma ManifestLandsHere(t: Tree, staging: Place)
    requires WellFormed(t) && staging in t && t[staging].Directory? && !IsLinked(t, staging)
    ensures Landing(t, staging + [MANIFEST_NAME], MAX_LINKS) == Some(staging + [MANIFEST_NAME])
    ensures Within(staging, staging + [MANIFEST_NAME])
  {
    hide WellFormed;
    ProtectedName([], MANIFEST_NAME);
    LandsHere(t, staging, MANIFEST_NAME);
    ChildPlace(staging, MANIFEST_NAME);
  }

  /** The cleanup leaves the manifest's name as it is. */
  lemma ManifestSurvives(t0: Tree, t: Tree, staging: Place, listed: set<string>)
    requires OnlyShrunk(t0, t, staging)
    requires forall p :: p in t0 && Under(staging, p) ==> (p in t <==> Under(staging, p) && Survives(t0, staging, listed, p))
    ensures IsLinked(t, staging) <==> IsLinked(t0, staging)
    ensures forall name :: IsProtected(name) ==> (IsFreeOf(t, staging, name) <==> IsFreeOf(t0, staging, name))
  {
    hide Remains;
    forall name | IsProtected(name) ensures IsFreeOf(t, staging, name) <==> IsFreeOf(t0, staging, name) {
      ChildPlace(staging, name);
      assert (staging + [name])[|staging|] == name;
    }
    ChildPlace(staging, MANIFEST_NAME);
    assert (staging + [MANIFEST_NAME])[|staging|] == MANIFEST_NAME;
  }

  predicate AllWereInPlace(t: Tree, staging: Place, files: seq<Acquired>) {
    forall i :: 0 <= i < |files| ==> InPlace(t, staging, files[i].path)
  }

  /** Publishes an acquisition's own directory. Wherever the process stops or an effect fails, the
      revision directory either does not exist or is the whole revision, unless the manifest's name
      was a symbolic link: then it is never whole. If it was not, publication succeeds exactly if every
      effect takes place, the revision is not there yet and the directory is reusable. A whole one verifies exactly when every listed path
      is in normal form and named a regular file through real directories: a path that is or runs
      through a symbolic link passes every check on the way, and is lost. */
  method PublishByReuse(fs: FileSystem, staging: Place, published: Place, repoType: RepositoryType,
                        files: seq<Acquired>, text: Bytes)
    returns (ok: bool, ghost entries: seq<Entry>, ghost spill: set<Place>)
    requires WellFormed(fs.tree) && Apart(staging, published)
    requires staging != [] && AllNames(staging) && staging in fs.tree && fs.tree[staging].Directory?
    requires published != [] && AllNames(published) && IsDir(fs.tree, Parent(published))
    modifies fs
    ensures fs.used >= old(fs.used)
    ensures !IsLinked(old(fs.tree), staging) ==>
              (ok <==> fs.AllWent(old(fs.used)) && files != [] && published !in old(fs.tree) && Reusable(old(fs.tree), staging, files))
    ensures WellFormed(fs.tree) && OnlyTheseBut(old(fs.tree), fs.tree, staging, published, spill)
    ensures |spill| <= 1 && (!IsLinked(old(fs.tree), staging) ==> spill == {})
    ensures published in old(fs.tree) ==> fs.tree == old(fs.tree) && !ok
    ensures ok ==> published in fs.tree
    ensures published !in old(fs.tree) && published in fs.tree ==>
              && |entries| == |files|
              && (Complete(fs.tree, published, repoType, entries) <==> !IsLinked(old(fs.tree), staging))
    ensures published !in old(fs.tree) && published in fs.tree && !IsLinked(old(fs.tree), staging) ==>
              (Verified(fs.tree, published, repoType) <==> AllWereInPlace(old(fs.tree), staging, files))
  {
    hide WellFormed, CompleteButLease, Complete, InPlace, AllNames, ValidRelative, Verified, Normal, Key, OnlyThese, OnlyTheseBut,
         Acceptable, DistinctPaths;
    ghost var t0 := fs.tree;
    entries, spill := [], {};
    NothingElse(t0, staging, published);
    SpillsNothing(t0, t0, staging, published);
    if files == [] || published in fs.tree { return false, [], {}; }
    NothingWithin(t0, published);
    ok, entries, spill := WriteSourceManifest(fs, staging, repoType, files, text);
    ghost var t1 := fs.tree;
    WrittenButSpill(t0, t1, staging, published, spill);
    if !ok || published in fs.tree {
      if published in fs.tree {
        // the link led to the revision's own name, where a file now is
        SpilledIsNoRevision(t1, published, repoType, entries);
        RemovedIsNoRevision(t1, staging, published, repoType, entries);
      }
      RemovedOnlyThese(t1, t1, staging, published);
      SpillThenThese(t0, t1, WithoutTree(t1, staging), staging, published, spill);
      var removed := fs.RemoveAll(staging);
      return false, entries, spill;
    }
    NothingWithin(t1, published);
    ParentStaysDirectory(t0, t1, staging, published);
    ok := Finish(fs, staging, published, repoType, entries);
    SpillThenThese(t0, t1, fs.tree, staging, published, spill);
    if published in fs.tree {
      if IsLinked(t0, staging) {
        LinkedManifestIsNone(fs.tree, published, repoType, entries);
      } else {
        VerifiesIffInPlace(fs.tree, published, repoType, entries);
        ReuseVerifiesIff(t0, fs.tree, staging, published, files, entries);
      }
    }
  }

  lemma SpillsNothing(t0: Tree, t: Tree, staging: Place, published: Place)
    requires OnlyThese(t0, t, staging, published)
    ensures OnlyTheseBut(t0, t, staging, published, {})
  {
  }

  /** What writing the manifest changed. */
  lemma WrittenButSpill(t0: Tree, t: Tree, staging: Place, published: Place, spill: set<Place>)
    requires OnlyTheseBut(t0, t, staging, staging, spill)
    ensures OnlyTheseBut(t0, t, staging, published, spill)
    ensures forall p :: p in t && p !in t0 && !Within(staging, p) ==> p in spill
  {
  }

  lemma SpillThenThese(t0: Tree, t1: Tree, t2: Tree, staging: Place, published: Place, spill: set<Place>)
    requires OnlyTheseBut(t0, t1, staging, published, spill) && OnlyThese(t1, t2, staging, published)
    ensures OnlyTheseBut(t0, t2, staging, published, spill)
  {
  }

  lemma SpilledIsNoRevision(t: Tree, published: Place, repoType: RepositoryType, entries: seq<Entry>)
    requires published in t && t[published].File? && published != []
    ensures !Complete(t, published, repoType, entries)
  {
  }

  lemma RemovedIsNoRevision(t: Tree, staging: Place, published: Place, repoType: RepositoryType, entries: seq<Entry>)
    requires published in t && t[published].File? && published != [] && Apart(staging, published)
    ensures !Complete(WithoutTree(t, staging), published, repoType, entries)
  {
  }

  lemma ParentStaysDirectory(t0: Tree, t: Tree, staging: Place, published: Place)
    requires published != [] && IsDir(t0, Parent(published)) && Apart(staging, published)
    requires forall p :: p in t0 && !Within(staging, p) ==> p in t && (t[p].Directory? <==> t0[p].Directory?)
    ensures IsDir(t, Parent(published))
  {
    ParentApart(staging, published);
  }

  lemma LinkedManifestIsNone(t: Tree, published: Place, repoType: RepositoryType, entries: seq<Entry>)
    requires published + [MANIFEST_NAME] in t && t[published + [MANIFEST_NAME]].Link?
    ensures !Complete(t, published, repoType, entries)
  {
  }

  /** Nothing has changed outside the two directories but at the places in `spill`, and by creating
      directories on the way. */
  ghost predicate OnlyTheseAndParentsBut(t0: Tree, t: Tree, staging: Place, published: Place, spill: set<Place>) {
    forall p :: !Within(staging, p) && !Within(published, p) && p !in spill ==>
      (p in t0 ==> p in t && t[p] == t0[p]) && (p in t && p !in t0 ==> t[p].Directory? && |p| < |published|)
  }

  lemma ParentsThenTheseBut(t0: Tree, t1: Tree, t2: Tree, staging: Place, published: Place, spill: set<Place>)
    requires forall p :: p in t0 ==> p in t1 && t1[p] == t0[p]
    requires forall p :: p in t1 && p !in t0 ==> t1[p].Directory? && |p| < |published|
    requires OnlyTheseBut(t1, t2, staging, published, spill)
    ensures OnlyTheseAndParentsBut(t0, t2, staging, published, spill)
  {
  }

  /** The whole publication: the directories leading to the revision are created first. */
  method PublishDirectory(fs: FileSystem, base: Place, staging: Place, published: Place, repoType: RepositoryType,
                          files: seq<Acquired>, text: Bytes)
    returns (ok: bool, ghost entries: seq<Entry>, ghost spill: set<Place>)
    requires WellFormed(fs.tree) && base in fs.tree && fs.tree[base].Directory? && Under(base, published) && AllNames(published)
    requires staging != [] && AllNames(staging) && staging in fs.tree && fs.tree[staging].Directory?
    requires Apart(base, staging) && Apart(staging, published)
    modifies fs
    ensures fs.used >= old(fs.used)
    ensures !IsLinked(old(fs.tree), staging) ==>
              (ok <==>
                && fs.AllWent(old(fs.used)) && files != [] && Passable(old(fs.tree), base, Rel(base, published))
                && published !in old(fs.tree) && Reusable(old(fs.tree), staging, files))
    ensures WellFormed(fs.tree) && OnlyTheseAndParentsBut(old(fs.tree), fs.tree, staging, published, spill)
    ensures |spill| <= 1 && (!IsLinked(old(fs.tree), staging) ==> spill == {})
    ensures published in old(fs.tree) ==> !ok && forall p :: p in old(fs.tree) ==> p in fs.tree && fs.tree[p] == old(fs.tree)[p]
    ensures ok ==> published in fs.tree
    ensures published !in old(fs.tree) && published in fs.tree ==>
              && |entries| == |files|
              && (Complete(fs.tree, published, repoType, entries) <==> !IsLinked(old(fs.tree), staging))
    ensures published !in old(fs.tree) && published in fs.tree && !IsLinked(old(fs.tree), staging) ==>
              (Verified(fs.tree, published, repoType) <==> AllWereInPlace(old(fs.tree), staging, files))
  {
    hide Complete, AllNames, Verified, AllWereInPlace, OnlyThese, OnlyTheseBut, OnlyTheseAndParentsBut, Reusable, Passable;
    ghost var t0 := fs.tree;
    entries, spill := [], {};
    NothingElse(t0, staging, published);
    SpillsNothing(t0, t0, staging, published);
    ParentsThenTheseBut(t0, t0, t0, staging, published, {});
    if files == [] { return false, [], {}; }
    BelowIsRel(base, published);
    ok := MakeParents(fs, base, Rel(base, published));
    ghost var t1 := fs.tree;
    NothingElse(t1, staging, published);
    SpillsNothing(t1, t1, staging, published);
    StagingIsUntouched(t0, t1, base, staging, files);
    forall p | p in t1 && p !in t0 ensures !Within(staging, p) {
      ApartBelow(base, staging, p);
    }
    ReusableStays(t0, t1, staging, files);
    if ok {
      ok, entries, spill := PublishByReuse(fs, staging, published, repoType, files, text);
    }
    ParentsThenTheseBut(t0, t1, fs.tree, staging, published, spill);
  }

  /** Directories that appear where nothing was lead a lookup nowhere it did not lead before. */
  predicate OnlyDirsAdded(t: Tree, t': Tree) {
    && WellFormed(t) && (forall p :: p in t ==> p in t' && t'[p] == t[p])
    && (forall p :: p in t' && p !in t ==> t'[p].Directory?)
  }

  lemma NothingUnderNew(t: Tree, t': Tree, at: Place, name: string)
    requires OnlyDirsAdded(t, t') && at != [] && at !in t
    ensures at + [name] !in t
  {
    assert Parent(at + [name]) == at;
  }

  lemma {:induction false} WalkStays(t: Tree, t': Tree, at: Place, rest: seq<string>, links: nat)
    requires OnlyDirsAdded(t, t') && (at == [] || at in t)
    ensures Walk(t, at, rest, links).Some? ==> Walk(t', at, rest, links) == Walk(t, at, rest, links)
    ensures var w := Walk(t', at, rest, links);
            w.Some? && (w.value == [] || w.value in t) ==> Walk(t, at, rest, links) == w
    decreases links, |rest|
  {
    hide WellFormed;
    if rest != [] {
      var next := at + [rest[0]];
      if IsDir(t', at) && next in t' {
        if next !in t {
          WalkInNew(t, t', next, rest[1..], links);
        } else if t[next].Link? {
          if links > 0 { WalkStays(t, t', [], t[next].target + rest[1..], links - 1); }
        } else {
          WalkStays(t, t', next, rest[1..], links);
        }
      }
    }
  }

  lemma {:induction false} WalkInNew(t: Tree, t': Tree, at: Place, rest: seq<string>, links: nat)
    requires OnlyDirsAdded(t, t') && at != [] && at !in t && at in t'
    ensures Walk(t', at, rest, links).Some? ==> Walk(t', at, rest, links).value != [] && Walk(t', at, rest, links).value !in t
    decreases |rest|
  {
    hide WellFormed;
    if rest != [] {
      NothingUnderNew(t, t', at, rest[0]);
      if at + [rest[0]] in t' { WalkInNew(t, t', at + [rest[0]], rest[1..], links); }
    }
  }

  lemma AcceptableStays(t: Tree, t': Tree, staging: Place, f: Acquired)
    requires OnlyDirsAdded(t, t') && staging in t
    requires forall p :: p in t' && p !in t ==> !Within(staging, p)
    ensures Acceptable(t', staging, f) <==> Acceptable(t, staging, f)
  {
    hide WellFormed, ValidRelative, EndsInName, Key;
    WalkStays(t, t', [], f.source, MAX_LINKS);
    WalkStays(t, t', [], staging + Key(f.path), MAX_LINKS);
    if f.source != [] {
      WalkStays(t, t', [], Parent(f.source), MAX_LINKS);
      LstatStays(t, t', f.source);
      StatAndLstat(t, f.source);
      StatAndLstat(t', f.source);
    }
  }

  lemma LstatStays(t: Tree, t': Tree, p: Place)
    requires OnlyDirsAdded(t, t') && p != []
    ensures Lstat(t, p).Some? && Lstat(t, p).value.File? <==> Lstat(t', p).Some? && Lstat(t', p).value.File?
  {
    hide Walk;
    WalkStays(t, t', [], Parent(p), MAX_LINKS);
    var dir := Canonical(t', Parent(p));
    if dir.Some? {
      assert Parent(dir.value + [p[|p| - 1]]) == dir.value;
    }
  }

  lemma ReusableStays(t: Tree, t': Tree, staging: Place, files: seq<Acquired>)
    requires OnlyDirsAdded(t, t') && staging in t
    requires forall p :: p in t' && p !in t ==> !Within(staging, p)
    ensures Reusable(t', staging, files) <==> Reusable(t, staging, files)
  {
    hide WellFormed, Acceptable, DistinctPaths;
    forall i | 0 <= i < |files| ensures Acceptable(t', staging, files[i]) <==> Acceptable(t, staging, files[i]) {
      AcceptableStays(t, t', staging, files[i]);
    }
    assert Within(staging, staging + [MANIFEST_NAME]) && Within(staging, staging + [LEASE_NAME]);
  }

  lemma {:induction false} StagingIsUntouched(t0: Tree, t1: Tree, base: Place, staging: Place, files: seq<Acquired>)
    requires Apart(base, staging)
    requires forall p :: p in t0 ==> p in t1 && t1[p] == t0[p]
    requires forall p :: p in t1 && p !in t0 ==> Under(base, p)
    ensures AllWereInPlace(t1, staging, files) <==> AllWereInPlace(t0, staging, files)
    ensures IsLinked(t1, staging) <==> IsLinked(t0, staging)
  {
    hide Key, Normal;
    forall rel ensures staging + rel in t1 <==> staging + rel in t0 {
      assert Within(staging, staging + rel);
      ApartBelow(base, staging, staging + rel);
    }
    forall path ensures InPlace(t1, staging, path) <==> InPlace(t0, staging, path) {}
  }

  lemma {:induction false} ReuseVerifiesIff(t0: Tree, t: Tree, staging: Place, published: Place, files: seq<Acquired>, entries: seq<Entry>)
    requires |entries| == |files|
    requires forall i :: 0 <= i < |files| ==>
               entries[i].path == files[i].path && (InPlace(t, published, files[i].path) <==> InPlace(t0, staging, files[i].path))
    ensures AllInPlace(t, published, entries) <==> AllWereInPlace(t0, staging, files)
  {
    hide InPlace;
    if AllInPlace(t, published, entries) {
      forall i | 0 <= i < |files| ensures InPlace(t0, staging, files[i].path) {
        assert InPlace(t, published, entries[i].path);
      }
    }
    if AllWereInPlace(t0, staging, files) {
      forall i | 0 <= i < |entries| ensures InPlace(t, published, entries[i].path) {
        assert InPlace(t0, staging, files[i].path);
      }
    }
  }

  /** A listed path that is a symbolic link to an acquired file passes every check, and is lost. */
  lemma LinkedPathIsAccepted()
    ensures exists t, staging, f, e :: WellFormed(t) && Recorded(t, staging, f, e) && !InPlace(t, staging, f.path)
  {
    hide WellFormed, Canonical, ValidRelative, EndsInName, Split, Key;
    var staging := ["tmp", "s"];
    var t: Tree := map[
      ["tmp"] := Directory,
      ["tmp", "s"] := Directory,
      ["tmp", "s", "b"] := Plain([]),
      ["tmp", "s", "a"] := Link(["tmp", "s", "b"])];
    var f, e := Acquired("a", ["tmp", "s", "b"]), Entry("a", 0, Sha256([]));
    LinkedTree(t);
    LinkedWalk(t);
    LinkedPath();
    assert staging + Key("a") == ["tmp", "s", "a"];
    assert Within(staging, ["tmp", "s", "b"]);
    assert Recorded(t, staging, f, e) && !InPlace(t, staging, f.path);
  }

  lemma LinkedPath()
    ensures ValidRelative("a") && EndsInName("a") && Key("a") == ["a"]
  {
    Text.SplitOfFree('/', "a");
    assert Split("a") == ["a"];
    NormalKey("a");
  }

  lemma LinkedTree(t: Tree)
    requires t.Keys == {["tmp"], ["tmp", "s"], ["tmp", "s", "b"], ["tmp", "s", "a"]}
    requires t[["tmp"]].Directory? && t[["tmp", "s"]].Directory?
    ensures WellFormed(t)
  {
    assert Parent(["tmp"]) == [] && Parent(["tmp", "s"]) == ["tmp"];
    assert Parent(["tmp", "s", "b"]) == ["tmp", "s"] && Parent(["tmp", "s", "a"]) == ["tmp", "s"];
  }

  lemma LinkedWalk(t: Tree)
    requires WellFormed(t) && ["tmp", "s", "b"] in t && t[["tmp", "s", "b"]].File?
    requires ["tmp", "s", "a"] in t && t[["tmp", "s", "a"]] == Link(["tmp", "s", "b"])
    requires IsDir(t, ["tmp"]) && IsDir(t, ["tmp", "s"])
    ensures Canonical(t, ["tmp", "s", "b"]) == Some(["tmp", "s", "b"])
    ensures Canonical(t, ["tmp", "s", "a"]) == Some(["tmp", "s", "b"])
  {
    hide WellFormed;
    DirectIsCanonical(t, ["tmp", "s", "b"]);
    assert [] + ["tmp", "s", "b"] == ["tmp", "s", "b"];
    WalkDirect(t, [], ["tmp", "s", "b"], MAX_LINKS - 1);
    assert ["tmp", "s", "a"][1..] == ["s", "a"] && ["s", "a"][1..] == ["a"];
    assert ["a"][1..] == [] && ["tmp", "s", "b"] + [] == ["tmp", "s", "b"];
    assert [] + ["tmp"] == ["tmp"] && ["tmp"] + ["s"] == ["tmp", "s"] && ["tmp", "s"] + ["a"] == ["tmp", "s", "a"];
    assert Walk(t, ["tmp", "s"], ["a"], MAX_LINKS) == Walk(t, [], ["tmp", "s", "b"], MAX_LINKS - 1);
    assert Walk(t, ["tmp"], ["s", "a"], MAX_LINKS) == Walk(t, ["tmp", "s"], ["a"], MAX_LINKS);
    assert Walk(t, [], ["tmp", "s", "a"], MAX_LINKS) == Walk(t, ["tmp"], ["s", "a"], MAX_LINKS);
  }
}
