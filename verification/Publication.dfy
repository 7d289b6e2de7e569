/** Publishing a revision: staging it, by copying or by reusing what an acquisition left, and
    renaming it into place. Any file-system effect may be the last one to succeed. */
module Publication {
  import opened Common
  import opened Manifests
  import opened Paths
  import opened FileTree
  import opened Cleanup
  import opened Readers
  import opened PublishedTree
  import opened Placing

  // ---------------------------------------------------------------- frames

  /** Nothing outside `dir` has changed. */
  ghost predicate SameOutside(t0: Tree, t: Tree, dir: Place) {
    forall p :: !Within(dir, p) ==> (p in t <==> p in t0) && (p in t0 ==> t[p] == t0[p])
  }

  lemma ValidKey(path: string)
    requires ValidRelative(path)
    ensures AllNames(Key(path))
  {
    KeyParts(path);
    forall i | 0 <= i < |Key(path)| ensures IsName(Key(path)[i]) { assert Key(path)[i] in Key(path); }
  }

  /** A normal path never leads to ModelKeep's own top-level files. */
  lemma NormalIsNotInternal(path: string)
    requires ValidRelative(path) && Normal(path)
    ensures !IsInternalKey(Key(path)) && Key(path) != [LEASE_NAME] && Key(path) != [MANIFEST_NAME]
  {
    NormalKey(path);
  }

  lemma ProtectedIsInternal(name: string)
    requires IsProtected(name)
    ensures IsInternalKey([name])
  {
    assert LEASE_NAME[..11] == ".modelkeep-" && MANIFEST_NAME[..11] == ".modelkeep-";
  }

  // ---------------------------------------------------------------- copying

  /** The staging directory once the first `k` files are in it. */
  ghost predicate Staged(t0: Tree, t: Tree, staging: Place, files: seq<Source>, k: nat)
    requires k <= |files|
  {
    && WellFormed(t) && SameOutside(t0, t, staging) && staging in t && t[staging].Directory?
    && NoLinks(t, staging)
    && (forall p :: p in t && Under(staging, p) && t[p].File? ==>
          p == staging + [LEASE_NAME] || exists i :: 0 <= i < k && p == staging + Key(files[i].path))
    && (forall i :: 0 <= i < k ==>
          ValidRelative(files[i].path) && IsFile(t, staging + Key(files[i].path))
          && t[staging + Key(files[i].path)] == NodeOf(files[i]))
  }

  /** Nothing but directories is on the way from `base` to `base + rel`. */
  predicate Passable(t: Tree, base: Place, rel: seq<string>) {
    forall n :: 0 < n < |rel| && base + rel[..n] in t ==> t[base + rel[..n]].Directory?
  }

  /** Creates the directories leading to `staging + rel`, unless something else is in the way of one. */
  method MakeParents(fs: FileSystem, staging: Place, rel: seq<string>) returns (ok: bool)
    requires WellFormed(fs.tree) && staging in fs.tree && fs.tree[staging].Directory? && AllNames(staging + rel)
    modifies fs
    ensures fs.used >= old(fs.used) && (ok <==> fs.AllWent(old(fs.used)) && Passable(old(fs.tree), staging, rel))
    ensures WellFormed(fs.tree)
    ensures forall p :: p in old(fs.tree) ==> p in fs.tree && fs.tree[p] == old(fs.tree)[p]
    ensures forall p :: p in fs.tree && p !in old(fs.tree) ==>
              Under(staging, p) && Under(p, staging + rel) && fs.tree[p].Directory? && |p| < |staging + rel|
    ensures ok && rel != [] ==> IsDir(fs.tree, Parent(staging + rel))
  {
    hide WellFormed, AllNames;
    var n := 0;
    assert staging + rel[..0] == staging;
    while n + 1 < |rel|
      invariant 0 <= n && (n < |rel| || n == 0)
      invariant fs.used >= old(fs.used) && fs.AllWent(old(fs.used))
      invariant forall m :: 0 < m <= n && staging + rel[..m] in old(fs.tree) ==> old(fs.tree)[staging + rel[..m]].Directory?
      invariant WellFormed(fs.tree) && staging + rel[..n] in fs.tree && fs.tree[staging + rel[..n]].Directory?
      invariant forall p :: p in old(fs.tree) ==> p in fs.tree && fs.tree[p] == old(fs.tree)[p]
      invariant forall p :: p in fs.tree && p !in old(fs.tree) ==>
                  Under(staging, p) && Under(p, staging + rel) && fs.tree[p].Directory? && |p| < |staging + rel|
    {
      var p := staging + rel[..n + 1];
      assert Parent(p) == staging + rel[..n];
      if p in fs.tree {
        if !fs.tree[p].Directory? { return false; }
      } else {
        NamesOfPrefix(staging + rel, |staging| + n + 1);
        assert p == (staging + rel)[..|staging| + n + 1];
        ok := fs.Put(p, Directory);
        if !ok { return; }
      }
      n := n + 1;
    }
    if rel != [] { assert Parent(staging + rel) == staging + rel[..n]; }
    return true;
  }

  lemma JoinedNames(a: Place, b: Place)
    requires AllNames(a) && AllNames(b)
    ensures AllNames(a + b)
  {
  }

  lemma NamesOfPrefix(p: Place, n: nat)
    requires AllNames(p) && n <= |p|
    ensures AllNames(p[..n])
  {
  }

  /** The lease is there, and every node leads to it or to one of the first `k` files. */
  ghost predicate OnlyFor(t: Tree, staging: Place, files: seq<Source>, k: nat)
    requires k <= |files|
  {
    && IsFile(t, staging + [LEASE_NAME])
    && forall p :: p in t && Under(staging, p) ==>
         p == staging + [LEASE_NAME] || exists i :: 0 <= i < k && Within(p, staging + Key(files[i].path))
  }

  /** File `k` can be created beside the files before it: its path is valid and leads, ending in a name,
      neither to, below or towards the lease or any of them. */
  predicate Fits(files: seq<Source>, k: nat)
    requires k < |files|
  {
    && ValidRelative(files[k].path) && IsStageable(files[k].path)
    && forall j :: 0 <= j < k ==> FileTree.Apart(Key(files[j].path), Key(files[k].path))
  }

  lemma BelowStaging(staging: Place, a: Place, b: Place)
    ensures Within(staging + a, staging + b) <==> Within(a, b)
    ensures Under(staging + a, staging + b) <==> Under(a, b)
  {
    if |a| <= |b| { assert (staging + b)[..|staging + a|] == staging + b[..|a|]; }
    if Within(staging + a, staging + b) && |a| <= |b| {
      assert staging + b[..|a|] == staging + a;
      assert (staging + b[..|a|])[|staging|..] == b[..|a|] && (staging + a)[|staging|..] == a;
    }
    if staging + a == staging + b { assert (staging + a)[|staging|..] == a && (staging + b)[|staging|..] == b; }
  }

  /** A file or the lease at a strict beginning of a path is in its way. */
  lemma StandsInTheWay(t: Tree, staging: Place, rel: Place, key: Place)
    requires rel != [] && IsFile(t, staging + rel)
    ensures Under(rel, key) ==> !Passable(t, staging, key)
  {
    if Under(rel, key) { assert key[..|rel|] == rel; }
  }

  lemma IsOnTheWay(t: Tree, staging: Place, rel: Place, key: Place)
    requires WellFormed(t) && staging + rel in t && key != []
    ensures Within(key, rel) ==> staging + key in t
  {
    hide WellFormed;
    if Under(key, rel) {
      Ancestor(t, staging + rel, |staging + key|);
      assert (staging + rel)[..|staging + key|] == staging + key;
    }
  }

  lemma NamedKeys(path: string)
    requires EndsInName(path)
    ensures Key(path) != []
  {
    SpokenHasLast(Split(path));
  }

  /** When the next file can be created, read off what is in the staging directory. */
  lemma FitsIff(t: Tree, staging: Place, files: seq<Source>, k: nat)
    requires k < |files| && Staged(t, t, staging, files, k) && OnlyFor(t, staging, files, k)
    requires forall j :: 0 <= j < k ==> Fits(files, j)
    ensures var path := files[k].path;
            Fits(files, k) <==>
              ValidRelative(path) && EndsInName(path) && Key(path) != [] && Passable(t, staging, Key(path)) && staging + Key(path) !in t
  {
    hide WellFormed, ValidRelative, EndsInName, Key, Passable;
    var path := files[k].path;
    var key := Key(path);
    if EndsInName(path) { NamedKeys(path); }
    if ValidRelative(path) && EndsInName(path) {
      if Passable(t, staging, key) && staging + key !in t {
        PlaceIsFree(t, staging, [LEASE_NAME], key);
        forall j | 0 <= j < k ensures FileTree.Apart(Key(files[j].path), key) {
          assert Fits(files, j);
          NamedKeys(files[j].path);
          PlaceIsFree(t, staging, Key(files[j].path), key);
        }
      }
      if Fits(files, k) { FitsIsFree(t, staging, files, k); }
    }
  }

  lemma PlaceIsFree(t: Tree, staging: Place, rel: Place, key: Place)
    requires WellFormed(t) && rel != [] && key != [] && IsFile(t, staging + rel)
    requires Passable(t, staging, key) && staging + key !in t
    ensures FileTree.Apart(rel, key)
  {
    hide WellFormed, Passable;
    StandsInTheWay(t, staging, rel, key);
    IsOnTheWay(t, staging, rel, key);
  }

  lemma FitsIsFree(t: Tree, staging: Place, files: seq<Source>, k: nat)
    requires k < |files| && Staged(t, t, staging, files, k) && OnlyFor(t, staging, files, k) && Fits(files, k) && Key(files[k].path) != []
    ensures Passable(t, staging, Key(files[k].path)) && staging + Key(files[k].path) !in t
  {
    hide WellFormed, ValidRelative, EndsInName, Key;
    var key := Key(files[k].path);
    assert key[..|key|] == key;
    forall n | 0 < n <= |key| && staging + key[..n] in t ensures n < |key| && t[staging + key[..n]].Directory? {
      var p := staging + key[..n];
      assert Under(staging, p) by { assert p[..|staging|] == staging; }
      assert Within(key[..n], key);
      BelowStaging(staging, [LEASE_NAME], key);
      BelowStaging(staging, key[..n], key);
      var i :| 0 <= i < k && Within(p, staging + Key(files[i].path));
      BelowStaging(staging, key[..n], Key(files[i].path));
      forall j | 0 <= j < k ensures p != staging + Key(files[j].path) {
        BelowStaging(staging, Key(files[j].path), key);
      }
    }
  }

  lemma OnlyForNext(t0: Tree, t: Tree, staging: Place, files: seq<Source>, k: nat)
    requires k < |files| && OnlyFor(t0, staging, files, k) && Key(files[k].path) != []
    requires forall p :: p in t0 ==> p in t && t[p] == t0[p]
    requires forall p :: p in t && p !in t0 ==> Under(p, staging + Key(files[k].path))
    requires staging + Key(files[k].path) !in t0
    ensures OnlyFor(t[staging + Key(files[k].path) := NodeOf(files[k])], staging, files, k + 1)
  {
    hide Key;
  }

  /** Creates one new file; an existing one is never overwritten. It fails exactly if an effect does or the
      file does not fit. */
  method CopyFile(fs: FileSystem, ghost t0: Tree, staging: Place, files: seq<Source>, k: nat) returns (ok: bool)
    requires k < |files| && Staged(t0, fs.tree, staging, files, k) && AllNames(staging)
    requires OnlyFor(fs.tree, staging, files, k) && forall j :: 0 <= j < k ==> Fits(files, j)
    modifies fs
    ensures fs.used >= old(fs.used) && (ok <==> fs.AllWent(old(fs.used)) && Fits(files, k))
    ensures ok ==> OnlyFor(fs.tree, staging, files, k + 1)
    ensures WellFormed(fs.tree) && SameOutside(t0, fs.tree, staging) && staging in fs.tree
    ensures ok ==> Staged(t0, fs.tree, staging, files, k + 1)
  {
    hide WellFormed, Key, ValidRelative, EndsInName, Staged, OnlyFor, Fits, Passable, SameOutside, AllNames;
    var path := files[k].path;
    StagedFrame(t0, fs.tree, staging, files, k);
    StagedNow(t0, fs.tree, staging, files, k);
    FitsIff(fs.tree, staging, files, k);
    if !ValidRelative(path) { return false; }
    ValidKey(path);
    var place := staging + Key(path);
    ghost var t := fs.tree;
    JoinedNames(staging, Key(path));
    ok := MakeParents(fs, staging, Key(path));
    StagedWithDirectories(t0, t, fs.tree, staging, files, k);
    StagedFrame(t0, fs.tree, staging, files, k);
    if !ok { return; }
    if Key(path) == [] || place in fs.tree || !EndsInName(path) { return false; }
    ghost var t1 := fs.tree;
    ok := fs.Put(place, NodeOf(files[k]));
    if ok {
      StagedNext(t0, t1, staging, files, k);
      StagedFrame(t0, fs.tree, staging, files, k + 1);
      OnlyForNext(t, t1, staging, files, k);
      ok := fs.Sync();
    }
  }

  lemma StagedNow(t0: Tree, t: Tree, staging: Place, files: seq<Source>, k: nat)
    requires k <= |files| && Staged(t0, t, staging, files, k)
    ensures Staged(t, t, staging, files, k)
  {
    hide WellFormed, Key, ValidRelative;
  }

  lemma StagedFrame(t0: Tree, t: Tree, staging: Place, files: seq<Source>, k: nat)
    requires k <= |files| && Staged(t0, t, staging, files, k)
    ensures WellFormed(t) && SameOutside(t0, t, staging) && staging in t && t[staging].Directory?
  {
  }

  lemma StagedWithDirectories(t0: Tree, t: Tree, t': Tree, staging: Place, files: seq<Source>, k: nat)
    requires k <= |files| && Staged(t0, t, staging, files, k) && WellFormed(t')
    requires forall p :: p in t ==> p in t' && t'[p] == t[p]
    requires forall p :: p in t' && p !in t ==> Under(staging, p) && t'[p].Directory?
    ensures Staged(t0, t', staging, files, k)
  {
    hide WellFormed, Key, ValidRelative;
  }

  lemma StagedNext(t0: Tree, t: Tree, staging: Place, files: seq<Source>, k: nat)
    requires k < |files| && Staged(t0, t, staging, files, k) && ValidRelative(files[k].path) && Key(files[k].path) != []
    requires staging + Key(files[k].path) !in t && WellFormed(t[staging + Key(files[k].path) := NodeOf(files[k])])
    ensures Staged(t0, t[staging + Key(files[k].path) := NodeOf(files[k])], staging, files, k + 1)
  {
    hide WellFormed, Key, ValidRelative;
  }

  /** Nothing about the files themselves keeps them from being published: every path is valid, ends in a
      name and leads neither below the manifest nor to, below or towards the lease or another file. */
  predicate Publishable(files: seq<Source>) {
    forall k :: 0 <= k < |files| ==> Fits(files, k) && !Under([MANIFEST_NAME], Key(files[k].path))
  }

  /** Publishable is what a fresh staging directory accepts, one file after another, with its manifest's name
      left free of directories. */
  lemma PublishableIff(files: seq<Source>)
    ensures Publishable(files) <==>
            && (forall i :: 0 <= i < |files| ==> ValidRelative(files[i].path) && !Under([MANIFEST_NAME], Key(files[i].path)))
            && CanCreate(FRESH, files)
  {
    hide ValidRelative, IsStageable, Key, CanCreate, KeysAreNames, FileTree.Apart;
    if Publishable(files) {
      forall i | 0 <= i < |files| ensures ValidRelative(files[i].path) && IsStageable(files[i].path) { assert Fits(files, i); }
      forall i, j | 0 <= i < j < |files| ensures FileTree.Apart(Key(files[i].path), Key(files[j].path)) {
        assert Fits(files, j);
      }
    }
    if forall i :: 0 <= i < |files| ==> ValidRelative(files[i].path) {
      ValidKeysAreNames(files);
      CanStageIff(files);
    }
  }

  /** Copies every file into the staging directory and writes the manifest. It fails exactly if an effect does
      or the files cannot be published. */
  method WriteRevision(fs: FileSystem, staging: Place, repoType: RepositoryType, files: seq<Source>, text: Bytes) returns (ok: bool)
    requires WellFormed(fs.tree) && AllNames(staging) && Staged(fs.tree, fs.tree, staging, files, 0) && OnlyFor(fs.tree, staging, files, 0)
    modifies fs
    ensures fs.used >= old(fs.used) && (ok <==> fs.AllWent(old(fs.used)) && Publishable(files))
    ensures ok ==> IsFile(fs.tree, staging + [LEASE_NAME])
    ensures WellFormed(fs.tree) && SameOutside(old(fs.tree), fs.tree, staging) && staging in fs.tree
    ensures ok ==> WithManifest(fs.tree, staging, repoType, files) && Holds(fs.tree, staging, ManifestNode(repoType, files, text))
  {
    hide WellFormed, Key, ValidRelative, Staged, OnlyFor, Fits;
    ghost var t0 := fs.tree;
    var k := 0;
    while k < |files|
      invariant k <= |files| && Staged(t0, fs.tree, staging, files, k) && OnlyFor(fs.tree, staging, files, k)
      invariant fs.used >= old(fs.used) && fs.AllWent(old(fs.used)) && forall j :: 0 <= j < k ==> Fits(files, j)
    {
      ok := CopyFile(fs, t0, staging, files, k);
      if !ok { return; }
      k := k + 1;
    }
    ManifestIsFree(t0, fs.tree, staging, files);
    ok := PutManifest(fs, t0, staging, repoType, files, text);
  }

  /** The file a normal path names is the requested one. */
  predicate HoldsSource(t: Tree, rev: Place, file: Source) {
    ValidRelative(file.path)
    && (Normal(file.path) ==> IsFile(t, rev + Key(file.path)) && t[rev + Key(file.path)].bytes == file.content)
  }

  /** The staging directory once its manifest is written. */
  ghost predicate WithManifest(t: Tree, staging: Place, repoType: RepositoryType, files: seq<Source>) {
    && WellFormed(t) && HasManifest(t, staging, repoType, Entries(files)) && NoLinks(t, staging)
    && OnlyListed(t, staging, Entries(files))
    && (forall i :: 0 <= i < |files| ==> HoldsSource(t, staging, files[i]))
  }

  function ManifestNode(repoType: RepositoryType, files: seq<Source>, text: Bytes): Node {
    File(text, Some(Manifest(true, repoType, Entries(files))), None)
  }

  /** This is the directory's manifest file. */
  predicate Holds(t: Tree, dir: Place, manifest: Node) {
    dir + [MANIFEST_NAME] in t && t[dir + [MANIFEST_NAME]] == manifest
  }

  /** A directory has the manifest's name exactly if some file leads below it. */
  lemma ManifestIsFree(t0: Tree, t: Tree, staging: Place, files: seq<Source>)
    requires Staged(t0, t, staging, files, |files|) && OnlyFor(t, staging, files, |files|)
    ensures IsFile(t, staging + [LEASE_NAME]) && IsFile(t[staging + [MANIFEST_NAME] := Plain([])], staging + [LEASE_NAME])
    ensures (staging + [MANIFEST_NAME] in t && t[staging + [MANIFEST_NAME]].Directory?) <==>
            exists i :: 0 <= i < |files| && Under([MANIFEST_NAME], Key(files[i].path))
  {
    hide WellFormed, Key, ValidRelative;
    var place := staging + [MANIFEST_NAME];
    ManifestIsNotLease(staging);
    ChildPlace(staging, MANIFEST_NAME);
    if place in t && t[place].Directory? {
      var i :| 0 <= i < |files| && Within(place, staging + Key(files[i].path));
      BelowStaging(staging, [MANIFEST_NAME], Key(files[i].path));
    }
    if i :| 0 <= i < |files| && Under([MANIFEST_NAME], Key(files[i].path)) {
      var p := staging + Key(files[i].path);
      BelowStaging(staging, [MANIFEST_NAME], Key(files[i].path));
      Ancestor(t, p, |place|);
      assert p[..|place|] == place;
    }
  }

  method PutManifest(fs: FileSystem, ghost t0: Tree, staging: Place, repoType: RepositoryType, files: seq<Source>, text: Bytes)
    returns (ok: bool)
    requires Staged(t0, fs.tree, staging, files, |files|) && AllNames(staging)
    modifies fs
    ensures fs.used >= old(fs.used)
    ensures ok <==> fs.AllWent(old(fs.used)) && !(staging + [MANIFEST_NAME] in old(fs.tree) && old(fs.tree)[staging + [MANIFEST_NAME]].Directory?)
    ensures ok ==> fs.tree == old(fs.tree)[staging + [MANIFEST_NAME] := ManifestNode(repoType, files, text)]
    ensures WellFormed(fs.tree) && SameOutside(t0, fs.tree, staging) && staging in fs.tree
    ensures ok ==> WithManifest(fs.tree, staging, repoType, files) && Holds(fs.tree, staging, ManifestNode(repoType, files, text))
  {
    hide WellFormed, Staged, AllNames, WithManifest;
    var place := staging + [MANIFEST_NAME];
    ghost var t := fs.tree;
    StagedFrame(t0, t, staging, files, |files|);
    if place in fs.tree && fs.tree[place].Directory? { return false; }
    ChildPlace(staging, MANIFEST_NAME);
    ProtectedName(staging, MANIFEST_NAME);
    ok := fs.Put(place, ManifestNode(repoType, files, text));
    if !ok { return; }
    ManifestWritten(t0, t, staging, repoType, files, text);
    ok := fs.Sync();
    if ok { ok := fs.Sync(); }
  }

  lemma ChildPlace(dir: Place, name: string)
    ensures Parent(dir + [name]) == dir && Under(dir, dir + [name]) && Rel(dir, dir + [name]) == [name]
  {
  }

  lemma ProtectedName(dir: Place, name: string)
    requires IsProtected(name) && AllNames(dir)
    ensures AllNames(dir + [name])
  {
  }

  /** Writing one of ModelKeep's own files disturbs none of the listed ones. */
  lemma {:induction false} OwnFileKeeps(t: Tree, staging: Place, name: string, node: Node, files: seq<Source>)
    requires NoLinks(t, staging) && OnlyListed(t, staging, Entries(files)) && IsProtected(name) && node.File?
    requires forall i :: 0 <= i < |files| ==> HoldsSource(t, staging, files[i])
    ensures var t' := t[staging + [name] := node];
            && NoLinks(t', staging) && OnlyListed(t', staging, Entries(files))
            && (forall i :: 0 <= i < |files| ==> HoldsSource(t', staging, files[i]))
  {
    hide Key, ValidRelative, IsInternalKey, Normal, IsKeyOf, IsProtected;
    ProtectedIsInternal(name);
    ChildPlace(staging, name);
    forall i | 0 <= i < |files| && ValidRelative(files[i].path) && Normal(files[i].path)
      ensures staging + Key(files[i].path) != staging + [name]
    {
      NotProtected(staging, files[i].path, name);
    }
  }

  lemma NotProtected(staging: Place, path: string, name: string)
    requires ValidRelative(path) && Normal(path) && IsProtected(name)
    ensures staging + Key(path) != staging + [name]
  {
    hide ValidRelative, Normal, Key, IsInternalKey;
    NormalIsNotInternal(path);
    ProtectedIsInternal(name);
    assert Rel(staging, staging + Key(path)) == Key(path);
    ChildPlace(staging, name);
  }

  lemma ManifestWritten(t0: Tree, t: Tree, staging: Place, repoType: RepositoryType, files: seq<Source>, text: Bytes)
    requires Staged(t0, t, staging, files, |files|)
    requires WellFormed(t[staging + [MANIFEST_NAME] := ManifestNode(repoType, files, text)])
    ensures WithManifest(t[staging + [MANIFEST_NAME] := ManifestNode(repoType, files, text)], staging, repoType, files)
  {
    hide WellFormed, Key, ValidRelative, NoLinks, OnlyListed, Normal;
    StagedIsListed(t0, t, staging, files);
    assert NoLinks(t, staging);
    forall i | 0 <= i < |files| ensures HoldsSource(t, staging, files[i]) {}
    OwnFileKeeps(t, staging, MANIFEST_NAME, ManifestNode(repoType, files, text), files);
    ChildPlace(staging, MANIFEST_NAME);
  }

  lemma StagedIsListed(t0: Tree, t: Tree, staging: Place, files: seq<Source>)
    requires Staged(t0, t, staging, files, |files|)
    ensures OnlyListed(t, staging, Entries(files))
  {
    hide WellFormed, Key, ValidRelative, IsInternalKey;
    var entries := Entries(files);
    forall p | p in t && Under(staging, p) && t[p].File? && !IsInternalKey(Rel(staging, p)) ensures IsKeyOf(entries, Rel(staging, p)) {
      ProtectedIsInternal(LEASE_NAME);
      assert Rel(staging, staging + [LEASE_NAME]) == [LEASE_NAME];
      if p != staging + [LEASE_NAME] {
        var i :| 0 <= i < |files| && p == staging + Key(files[i].path);
        assert entries[i].path == files[i].path && Rel(staging, p) == Key(files[i].path);
      }
    }
  }

  // ---------------------------------------------------------------- into place

  /** What is below a directory after it was renamed is what was below it before. */
  lemma RenamedFiles(t: Tree, staging: Place, published: Place, rel: Place)
    requires Apart(staging, published) && forall p :: p in t ==> !Within(published, p)
    ensures published + rel in Moved(t, staging, published) <==> staging + rel in t
    ensures staging + rel in t ==> Moved(t, staging, published)[published + rel] == t[staging + rel]
  {
    assert (published + rel)[|published|..] == rel && Within(published, published + rel);
    MovedIs(t, staging, published, published + rel);
  }

  lemma BelowIsRel(dir: Place, p: Place)
    requires Within(dir, p)
    ensures p == dir + Rel(dir, p)
  {
  }

  /** A staged revision is complete once it is renamed into place. */
  lemma RenamedIsComplete(t: Tree, staging: Place, published: Place, repoType: RepositoryType, entries: seq<Entry>)
    requires Apart(staging, published) && staging != [] && staging in t && t[staging].Directory?
    requires forall p :: p in t ==> !Within(published, p)
    requires Complete(t, staging, repoType, entries)
    ensures Complete(Moved(t, staging, published), published, repoType, entries)
    ensures forall path :: InPlace(Moved(t, staging, published), published, path) <==> InPlace(t, staging, path)
  {
    hide Moved, Key, ValidRelative, IsInternalKey, Normal, IsKeyOf;
    var t' := Moved(t, staging, published);
    forall rel ensures published + rel in t' <==> staging + rel in t
      ensures staging + rel in t ==> t'[published + rel] == t[staging + rel]
    {
      RenamedFiles(t, staging, published, rel);
    }
    assert staging + [] == staging && published + [] == published;
    forall p | p in t' && Under(published, p)
      ensures staging + Rel(published, p) in t && t'[p] == t[staging + Rel(published, p)]
      ensures Under(staging, staging + Rel(published, p)) && Rel(staging, staging + Rel(published, p)) == Rel(published, p)
    {
      BelowIsRel(published, p);
    }
  }

  /** Nothing has changed but inside the two directories. */
  ghost predicate OnlyThese(t0: Tree, t: Tree, staging: Place, published: Place) {
    forall p :: !Within(staging, p) && !Within(published, p) ==> (p in t <==> p in t0) && (p in t0 ==> t[p] == t0[p])
  }

  lemma RenamedOnlyThese(t0: Tree, t: Tree, staging: Place, published: Place)
    requires OnlyThese(t0, t, staging, published) && Apart(staging, published)
    ensures OnlyThese(t0, Moved(t, staging, published), staging, published)
  {
    hide Moved;
    forall p | !Within(staging, p) && !Within(published, p)
      ensures p in Moved(t, staging, published) <==> p in t
      ensures p in t ==> Moved(t, staging, published)[p] == t[p]
    {
      MovedIs(t, staging, published, p);
    }
  }

  /** A complete staging directory, whatever is under the lease's name. */
  predicate CompleteButLease(t: Tree, staging: Place, repoType: RepositoryType, entries: seq<Entry>) {
    && HasManifest(t, staging, repoType, entries)
    && (forall p :: p in t && Under(staging, p) && !Within(staging + [LEASE_NAME], p) ==>
          !t[p].Link? && (t[p].File? && !IsInternalKey(Rel(staging, p)) ==> IsKeyOf(entries, Rel(staging, p))))
    && (forall i :: 0 <= i < |entries| ==> EntryMatches(t, staging, entries[i]))
  }

  lemma LeaseIsBelow(staging: Place, published: Place)
    requires Apart(staging, published)
    ensures var lease := staging + [LEASE_NAME];
            Under(staging, lease) && !Within(published, lease)
  {
    ChildPlace(staging, LEASE_NAME);
    ApartBelow(staging, published, staging + [LEASE_NAME]);
  }

  /** Removing the lease completes the staging directory and moves no listed file. */
  lemma LeaseRemoved(t: Tree, staging: Place, repoType: RepositoryType, entries: seq<Entry>)
    requires WellFormed(t) && CompleteButLease(t, staging, repoType, entries)
    requires staging + [LEASE_NAME] in t ==> !t[staging + [LEASE_NAME]].Directory?
    ensures Complete(t - {staging + [LEASE_NAME]}, staging, repoType, entries)
    ensures forall path :: ValidRelative(path) ==> (InPlace(t - {staging + [LEASE_NAME]}, staging, path) <==> InPlace(t, staging, path))
  {
    hide WellFormed, Key, ValidRelative, IsInternalKey, Normal, IsKeyOf;
    var lease := staging + [LEASE_NAME];
    forall path | ValidRelative(path) && Normal(path) ensures staging + Key(path) != lease {
      NotProtected(staging, path, LEASE_NAME);
    }
    ChildPlace(staging, LEASE_NAME);
    ChildPlace(staging, MANIFEST_NAME);
    assert MANIFEST_NAME != LEASE_NAME;
    assert staging + [MANIFEST_NAME] != lease by {
      assert (staging + [MANIFEST_NAME])[|staging|] == MANIFEST_NAME && lease[|staging|] == LEASE_NAME;
    }
    forall p | p in t ensures !Under(lease, p) {
      if Under(lease, p) { Ancestor(t, p, |lease|); }
    }
  }

  lemma ParentStays(t: Tree, lease: Place, published: Place)
    requires published != [] && IsDir(t, Parent(published)) && (lease in t ==> !t[lease].Directory?)
    ensures IsDir(t - {lease}, Parent(published))
  {
  }

  lemma LeaseRemovedFrame(t: Tree, staging: Place, published: Place)
    requires Apart(staging, published)
    ensures OnlyThese(t, t - {staging + [LEASE_NAME]}, staging, published)
  {
    LeaseIsBelow(staging, published);
  }

  lemma ManifestIsNotLease(dir: Place)
    ensures dir + [MANIFEST_NAME] != dir + [LEASE_NAME]
  {
    assert (dir + [MANIFEST_NAME])[|dir|] == MANIFEST_NAME && (dir + [LEASE_NAME])[|dir|] == LEASE_NAME;
    assert MANIFEST_NAME[11] == 'm' && LEASE_NAME[11] == 's';
  }

  /** The last two effects of a publication: the lease goes, and the staging directory gets its
      final name. */
  method Finish(fs: FileSystem, staging: Place, published: Place, repoType: RepositoryType, ghost entries: seq<Entry>)
    returns (ok: bool)
    requires WellFormed(fs.tree) && AllNames(published) && published != [] && staging != [] && Apart(staging, published)
    requires staging in fs.tree && fs.tree[staging].Directory? && IsDir(fs.tree, Parent(published))
    requires forall p :: p in fs.tree ==> !Within(published, p)
    modifies fs
    ensures fs.used >= old(fs.used)
    ensures ok <==> fs.AllWent(old(fs.used)) && !(staging + [LEASE_NAME] in old(fs.tree) && old(fs.tree)[staging + [LEASE_NAME]].Directory?)
    ensures WellFormed(fs.tree) && OnlyThese(old(fs.tree), fs.tree, staging, published)
    ensures ok ==> published in fs.tree
    ensures published in fs.tree && CompleteButLease(old(fs.tree), staging, repoType, entries) ==>
              && Complete(fs.tree, published, repoType, entries)
              && forall path :: ValidRelative(path) ==> (InPlace(fs.tree, published, path) <==> InPlace(old(fs.tree), staging, path))
    ensures published in fs.tree && staging + [MANIFEST_NAME] in old(fs.tree) ==>
              && published + [MANIFEST_NAME] in fs.tree
              && fs.tree[published + [MANIFEST_NAME]] == old(fs.tree)[staging + [MANIFEST_NAME]]
  {
    hide WellFormed, CompleteButLease, Complete, InPlace, Moved, AllNames, ValidRelative, OnlyThese, Names;
    assert Within(published, published);
    ghost var t0 := fs.tree;
    var lease := staging + [LEASE_NAME];
    LeaseIsBelow(staging, published);
    LeaseRemovedFrame(t0, staging, published);
    NothingElse(t0, staging, published);
    if lease in fs.tree {
      if fs.tree[lease].Directory? { return false; }
      LeafIsEmpty(fs.tree, lease);
      ok := fs.Remove(lease);
      if !ok { return; }
    }
    assert fs.tree == t0 - {lease};
    if CompleteButLease(t0, staging, repoType, entries) { LeaseRemoved(t0, staging, repoType, entries); }
    ParentStays(t0, lease, published);
    ghost var t := fs.tree;
    ok := fs.Rename(staging, published);
    if !ok {
      RemovedOnlyThese(t0, t, staging, published);
      var removed := fs.RemoveAll(staging);
      return;
    }
    if CompleteButLease(t0, staging, repoType, entries) { RenamedIsComplete(t, staging, published, repoType, entries); }
    ManifestIsNotLease(staging);
    RenamedFiles(t, staging, published, [MANIFEST_NAME]);
    RenamedOnlyThese(t0, t, staging, published);
    assert published + [] == published && staging + [] == staging;
    RenamedFiles(t, staging, published, []);
    ok := fs.Sync();
  }

  lemma NothingElse(t: Tree, staging: Place, published: Place)
    ensures OnlyThese(t, t, staging, published)
  {
  }

  // ---------------------------------------------------------------- publication by copy

  /** The staging directory, just created with its lease. */
  method CreateStaging(fs: FileSystem, staging: Place, lease: Bytes) returns (ok: bool)
    requires WellFormed(fs.tree) && staging != [] && AllNames(staging) && IsDir(fs.tree, Parent(staging))
    requires forall p :: p in fs.tree ==> !Within(staging, p)
    modifies fs
    ensures fs.used >= old(fs.used) && (ok <==> fs.AllWent(old(fs.used)))
    ensures WellFormed(fs.tree) && SameOutside(old(fs.tree), fs.tree, staging)
    ensures ok ==> forall files :: Staged(fs.tree, fs.tree, staging, files, 0) && OnlyFor(fs.tree, staging, files, 0)
  {
    hide WellFormed, AllNames, Staged, SameOutside;
    ghost var t0 := fs.tree;
    FreshOutside(t0, staging, Plain(lease));
    ok := fs.Put(staging, Directory);
    if !ok { return; }
    ChildPlace(staging, LEASE_NAME);
    ProtectedName(staging, LEASE_NAME);
    ok := fs.Put(staging + [LEASE_NAME], Plain(lease));
    if ok {
      forall files ensures Staged(fs.tree, fs.tree, staging, files, 0) && OnlyFor(fs.tree, staging, files, 0) {
        FreshIsStaged(t0, fs.tree, staging, Plain(lease), files);
      }
      ok := fs.Sync();
    }
  }

  lemma FreshOutside(t0: Tree, staging: Place, lease: Node)
    requires forall p :: p in t0 ==> !Within(staging, p)
    ensures staging !in t0 && staging + [LEASE_NAME] !in t0 && staging != staging + [LEASE_NAME]
    ensures SameOutside(t0, t0, staging) && SameOutside(t0, t0[staging := Directory], staging)
    ensures SameOutside(t0, t0[staging := Directory][staging + [LEASE_NAME] := lease], staging)
  {
    ChildPlace(staging, LEASE_NAME);
  }

  lemma {:induction false} FreshIsStaged(t0: Tree, t: Tree, staging: Place, lease: Node, files: seq<Source>)
    requires WellFormed(t) && t == t0[staging := Directory][staging + [LEASE_NAME] := lease] && lease.File?
    requires forall p :: p in t0 ==> !Within(staging, p)
    ensures Staged(t, t, staging, files, 0) && OnlyFor(t, staging, files, 0)
  {
    hide WellFormed;
    ChildPlace(staging, LEASE_NAME);
  }

  lemma {:induction false} CopiedIsComplete(t: Tree, staging: Place, repoType: RepositoryType, files: seq<Source>)
    requires WithManifest(t, staging, repoType, files)
    ensures CompleteButLease(t, staging, repoType, Entries(files))
    ensures forall i :: 0 <= i < |files| ==> ValidRelative(files[i].path) && (InPlace(t, staging, files[i].path) <==> Normal(files[i].path))
  {
    hide WellFormed, Key, ValidRelative, IsInternalKey, Normal, IsKeyOf;
    var entries := Entries(files);
    forall i | 0 <= i < |entries| ensures EntryMatches(t, staging, entries[i]) {
      assert HoldsSource(t, staging, files[i]);
    }
    forall i | 0 <= i < |files|
      ensures ValidRelative(files[i].path) && (InPlace(t, staging, files[i].path) <==> Normal(files[i].path))
    {
      assert HoldsSource(t, staging, files[i]);
    }
  }

  lemma NothingWithin(t: Tree, published: Place)
    requires WellFormed(t) && published != [] && published !in t
    ensures forall p :: p in t ==> !Within(published, p)
  {
    hide WellFormed;
    forall p | p in t ensures !Within(published, p) {
      if Under(published, p) { Ancestor(t, p, |published|); }
    }
  }

  lemma OutsideIsOnlyThese(t0: Tree, t: Tree, staging: Place, published: Place)
    requires SameOutside(t0, t, staging) && Apart(staging, published)
    ensures OnlyThese(t0, t, staging, published) && (published in t <==> published in t0)
  {
  }

  lemma OutsideTrans(a: Tree, b: Tree, c: Tree, dir: Place)
    requires SameOutside(a, b, dir) && SameOutside(b, c, dir)
    ensures SameOutside(a, c, dir)
  {
  }

  lemma OnlyTheseTrans(a: Tree, b: Tree, c: Tree, staging: Place, published: Place)
    requires OnlyThese(a, b, staging, published) && OnlyThese(b, c, staging, published)
    ensures OnlyThese(a, c, staging, published)
  {
  }

  lemma RemovedOnlyThese(t0: Tree, t: Tree, staging: Place, published: Place)
    requires OnlyThese(t0, t, staging, published) && Apart(staging, published)
    ensures OnlyThese(t0, WithoutTree(t, staging), staging, published)
    ensures published in WithoutTree(t, staging) <==> published in t
  {
  }

  /** The published name stays free while the staging directory is being filled. */
  lemma StillFree(t0: Tree, t: Tree, staging: Place, published: Place)
    requires SameOutside(t0, t, staging) && Apart(staging, published) && published != []
    requires IsDir(t0, Parent(published)) && forall p :: p in t0 ==> !Within(published, p)
    ensures IsDir(t, Parent(published)) && forall p :: p in t ==> !Within(published, p)
  {
    ParentApart(staging, published);
    forall p | p in t ensures !Within(published, p) {
      ApartBelow(staging, published, p);
    }
  }

  lemma {:induction false} CopyVerifiesIffNormal(t: Tree, published: Place, files: seq<Source>)
    requires forall i :: 0 <= i < |files| ==> (InPlace(t, published, files[i].path) <==> Normal(files[i].path))
    ensures AllInPlace(t, published, Entries(files)) <==> NormalFiles(files)
  {
    hide InPlace, Normal;
    var entries := Entries(files);
    if NormalFiles(files) {
      forall i | 0 <= i < |files| ensures InPlace(t, published, entries[i].path) {
        assert entries[i] == EntryOf(files[i]) && Normal(files[i].path);
      }
    }
    if AllInPlace(t, published, entries) {
      forall i | 0 <= i < |files| ensures Normal(files[i].path) {
        assert entries[i] == EntryOf(files[i]) && InPlace(t, published, entries[i].path);
      }
    }
  }

  /** Publishes a revision from the given files. Wherever the process stops or an effect fails, the
      revision directory either does not exist or is the whole revision, and a revision that is
      already there is never touched. It succeeds exactly if every effect takes place, the revision is
      not there yet and the files can be published; and the revision verifies exactly when the given
      paths are in normal form. */
  method PublishByCopy(fs: FileSystem, staging: Place, published: Place, repoType: RepositoryType,
                       files: seq<Source>, lease: Bytes, text: Bytes) returns (ok: bool)
    requires WellFormed(fs.tree) && Apart(staging, published)
    requires staging != [] && AllNames(staging) && IsDir(fs.tree, Parent(staging))
    requires published != [] && AllNames(published) && IsDir(fs.tree, Parent(published))
    requires forall p :: p in fs.tree ==> !Within(staging, p)
    modifies fs
    ensures fs.used >= old(fs.used)
    ensures ok <==> fs.AllWent(old(fs.used)) && files != [] && published !in old(fs.tree) && Publishable(files)
    ensures WellFormed(fs.tree) && OnlyThese(old(fs.tree), fs.tree, staging, published)
    ensures published in old(fs.tree) ==> fs.tree == old(fs.tree) && !ok
    ensures ok ==> published in fs.tree
    ensures published !in old(fs.tree) && published in fs.tree ==>
              && Complete(fs.tree, published, repoType, Entries(files))
              && Holds(fs.tree, published, ManifestNode(repoType, files, text))
              && (Verified(fs.tree, published, repoType) <==> NormalFiles(files))
  {
    hide WellFormed, Staged, CompleteButLease, Complete, InPlace, AllNames, ValidRelative, Verified, Normal, Key, OnlyThese, OnlyListed,
         NoLinks, HoldsSource, OnlyFor, Publishable;
    ghost var t0 := fs.tree;
    NothingElse(t0, staging, published);
    if files == [] || published in fs.tree { return false; }
    NothingWithin(t0, published);
    ok := CreateStaging(fs, staging, lease);
    OutsideIsOnlyThese(t0, fs.tree, staging, published);
    if !ok { return; }
    ghost var t1 := fs.tree;
    StagedFrame(t1, t1, staging, files, 0);
    ok := WriteRevision(fs, staging, repoType, files, text);
    OutsideTrans(t0, t1, fs.tree, staging);
    OutsideIsOnlyThese(t0, fs.tree, staging, published);
    if !ok {
      RemovedOnlyThese(t0, fs.tree, staging, published);
      var removed := fs.RemoveAll(staging);
      return false;
    }
    ghost var t2 := fs.tree;
    assert HasManifest(t2, staging, repoType, Entries(files));
    StillFree(t0, t2, staging, published);
    CopiedIsComplete(t2, staging, repoType, files);
    ok := Finish(fs, staging, published, repoType, Entries(files));
    OnlyTheseTrans(t0, t2, fs.tree, staging, published);
    if published in fs.tree {
      VerifiesIffInPlace(fs.tree, published, repoType, Entries(files));
      CopyVerifiesIffNormal(fs.tree, published, files);
    }
  }

  /** Nothing has changed but inside the two directories, and by creating directories on the way. */
  ghost predicate OnlyTheseAndParents(t0: Tree, t: Tree, staging: Place, published: Place) {
    forall p :: !Within(staging, p) && !Within(published, p) ==>
      (p in t0 ==> p in t && t[p] == t0[p]) && (p in t && p !in t0 ==> t[p].Directory? && |p| < |published|)
  }

  lemma ParentsThenThese(t0: Tree, t1: Tree, t2: Tree, staging: Place, published: Place)
    requires forall p :: p in t0 ==> p in t1 && t1[p] == t0[p]
    requires forall p :: p in t1 && p !in t0 ==> t1[p].Directory? && |p| < |published|
    requires OnlyThese(t1, t2, staging, published)
    ensures OnlyTheseAndParents(t0, t2, staging, published)
  {
  }

  /** The whole publication: the directories leading to the revision are created first, unless something
      else is in the way of one. */
  method PublishRevision(fs: FileSystem, base: Place, staging: Place, published: Place, repoType: RepositoryType,
                         files: seq<Source>, lease: Bytes, text: Bytes) returns (ok: bool)
    requires WellFormed(fs.tree) && base in fs.tree && fs.tree[base].Directory? && Under(base, published) && AllNames(published)
    requires staging != [] && AllNames(staging) && IsDir(fs.tree, Parent(staging))
    requires Apart(base, staging) && Apart(staging, published)
    requires forall p :: p in fs.tree ==> !Within(staging, p)
    modifies fs
    ensures fs.used >= old(fs.used)
    ensures ok <==>
              && fs.AllWent(old(fs.used)) && files != [] && Passable(old(fs.tree), base, Rel(base, published))
              && published !in old(fs.tree) && Publishable(files)
    ensures WellFormed(fs.tree) && OnlyTheseAndParents(old(fs.tree), fs.tree, staging, published)
    ensures published in old(fs.tree) ==> !ok && forall p :: p in old(fs.tree) ==> p in fs.tree && fs.tree[p] == old(fs.tree)[p]
    ensures ok ==> published in fs.tree
    ensures published !in old(fs.tree) && published in fs.tree ==>
              && Complete(fs.tree, published, repoType, Entries(files))
              && Holds(fs.tree, published, ManifestNode(repoType, files, text))
              && (Verified(fs.tree, published, repoType) <==> NormalFiles(files))
  {
    hide WellFormed, Complete, AllNames, Verified, NormalFiles, OnlyThese, Publishable, Passable;
    ghost var t0 := fs.tree;
    NothingElse(t0, staging, published);
    ParentsThenThese(t0, t0, t0, staging, published);
    if files == [] { return false; }
    BelowIsRel(base, published);
    ok := MakeParents(fs, base, Rel(base, published));
    ghost var t1 := fs.tree;
    NothingElse(t1, staging, published);
    StagingStaysFree(t0, t1, base, staging);
    if ok {
      ok := PublishByCopy(fs, staging, published, repoType, files, lease, text);
    }
    ParentsThenThese(t0, t1, fs.tree, staging, published);
  }

  lemma StagingStaysFree(t0: Tree, t1: Tree, base: Place, staging: Place)
    requires Apart(base, staging) && staging != [] && IsDir(t0, Parent(staging))
    requires forall p :: p in t0 ==> !Within(staging, p) && p in t1 && t1[p] == t0[p]
    requires forall p :: p in t1 && p !in t0 ==> Under(base, p)
    ensures IsDir(t1, Parent(staging)) && forall p :: p in t1 ==> !Within(staging, p)
  {
    forall p | p in t1 ensures !Within(staging, p) {
      ApartBelow(base, staging, p);
    }
  }
}
