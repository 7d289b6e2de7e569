/** Putting files into a directory: the directories created on the way, what may stand in the way,
    and when a list of files can be put in one after another. Places are relative to the directory. */
module Placing {
  import opened FileTree
  import opened Manifests
  import opened Paths

  // ---------------------------------------------------------------- one file

  /** The tree once every missing directory down to `p` has been created. */
  function WithDirs(t: Tree, p: Place): Tree
    decreases |p|
  {
    if p == [] || p in t then t else WithDirs(t, Parent(p))[p := Directory]
  }

  /** Whether a file can be put at `key`: nothing but directories stands on the way, and no directory
      at its end. */
  predicate Accepts(t: Tree, key: Place) {
    && key != []
    && (forall n :: 0 < n < |key| && key[..n] in t ==> t[key[..n]].Directory?)
    && (key in t ==> !t[key].Directory?)
  }

  function WithFile(t: Tree, file: Source): Tree
    requires Key(file.path) != []
  {
    WithDirs(t, Parent(Key(file.path)))[Key(file.path) := NodeOf(file)]
  }

  lemma {:induction false} WithDirsIs(t: Tree, p: Place, q: Place)
    requires WellFormed(t)
    ensures q in WithDirs(t, p) <==> q in t || (q != [] && Within(q, p))
    ensures q in WithDirs(t, p) ==> WithDirs(t, p)[q] == if q in t then t[q] else Directory
    decreases |p|
  {
    hide WellFormed;
    if p == [] {
    } else if p in t {
      if q != [] && Under(q, p) {
        Ancestor(t, p, |q|);
      }
    } else {
      WithDirsIs(t, Parent(p), q);
      if q != p {
        assert |q| < |p| ==> Parent(p)[..|q|] == p[..|q|];
      }
    }
  }

  lemma {:induction false} WithDirsIsWellFormed(t: Tree, p: Place)
    requires WellFormed(t) && AllNames(p)
    requires forall n :: 0 < n <= |p| && p[..n] in t ==> t[p[..n]].Directory?
    ensures WellFormed(WithDirs(t, p)) && IsDir(WithDirs(t, p), p)
    decreases |p|
  {
    assert p[..|p|] == p;
    if p != [] && p !in t {
      var dir := Parent(p);
      forall n | 0 < n <= |dir| && dir[..n] in t ensures t[dir[..n]].Directory? {
        assert dir[..n] == p[..n];
      }
      WithDirsIsWellFormed(t, dir);
    }
  }

  lemma WithFileIs(t: Tree, file: Source, q: Place)
    requires WellFormed(t) && Key(file.path) != []
    ensures var key := Key(file.path);
            && (q in WithFile(t, file) <==> q in t || (q != [] && Within(q, key)))
            && (q in WithFile(t, file) ==>
                  WithFile(t, file)[q] == if q == key then NodeOf(file) else if q in t then t[q] else Directory)
  {
    hide WellFormed, Key;
    var key := Key(file.path);
    WithDirsIs(t, Parent(key), q);
    if q != key {
      assert |q| < |key| ==> Parent(key)[..|q|] == key[..|q|];
    }
  }

  lemma WithFileIsWellFormed(t: Tree, file: Source)
    requires WellFormed(t) && Accepts(t, Key(file.path)) && AllNames(Key(file.path))
    ensures WellFormed(WithFile(t, file))
  {
    hide Key;
    var key := Key(file.path);
    var dir := Parent(key);
    forall n | 0 < n <= |dir| && dir[..n] in t ensures t[dir[..n]].Directory? {
      assert dir[..n] == key[..n];
    }
    WithDirsIsWellFormed(t, dir);
    WithDirsIs(t, dir, key);
    assert forall q :: q in t && Parent(q) == key ==> IsDir(t, key);
    forall q | q in WithFile(t, file) ensures IsDir(WithFile(t, file), Parent(q)) {
      if q != key {
        assert IsDir(WithDirs(t, dir), Parent(q));
        if Parent(q) == key {
          WithDirsIs(t, dir, q);
        }
      }
    }
  }

  /** Putting one file in leaves what lies apart from it as acceptable as it was. */
  lemma AcceptsAfter(t: Tree, file: Source, key: Place)
    requires WellFormed(t) && Accepts(t, Key(file.path)) && FileTree.Apart(Key(file.path), key)
    ensures Accepts(WithFile(t, file), key) <==> Accepts(t, key)
    ensures key in WithFile(t, file) <==> key in t
  {
    hide WellFormed, Key;
    var t' := WithFile(t, file);
    WithFileIs(t, file, key);
    forall n | 0 < n < |key| ensures key[..n] in t ==> key[..n] in t' && t'[key[..n]] == t[key[..n]]
                             ensures key[..n] in t' && key[..n] !in t ==> t'[key[..n]].Directory? {
      WithFileIs(t, file, key[..n]);
    }
  }

  // ---------------------------------------------------------------- several files

  predicate KeysAreNames(files: seq<Source>) {
    forall i :: 0 <= i < |files| ==> AllNames(Key(files[i].path))
  }

  predicate PairwiseApart(files: seq<Source>) {
    forall i, j :: 0 <= i < j < |files| ==> FileTree.Apart(Key(files[i].path), Key(files[j].path))
  }

  function WithFiles(t: Tree, files: seq<Source>): Tree
    decreases |files|
  {
    if files == [] || Key(files[0].path) == [] then t else WithFiles(WithFile(t, files[0]), files[1..])
  }

  /** Every file in turn can be moved in, replacing a file that is there. */
  predicate CanMove(t: Tree, files: seq<Source>)
    decreases |files|
  {
    files == [] || (Accepts(t, Key(files[0].path)) && CanMove(WithFile(t, files[0]), files[1..]))
  }

  predicate Creates(t: Tree, path: string) {
    EndsInName(path) && Accepts(t, Key(path)) && Key(path) !in t
  }

  /** Every file in turn can be created, replacing nothing. */
  predicate CanCreate(t: Tree, files: seq<Source>)
    decreases |files|
  {
    files == [] || (Creates(t, files[0].path) && CanCreate(WithFile(t, files[0]), files[1..]))
  }

  lemma {:induction false} CanMoveIff(t: Tree, files: seq<Source>)
    requires WellFormed(t) && KeysAreNames(files) && PairwiseApart(files)
    ensures CanMove(t, files) <==> forall i :: 0 <= i < |files| ==> Accepts(t, Key(files[i].path))
    decreases |files|
  {
    hide WellFormed, Accepts, AllNames, FileTree.Apart, Key;
    if files != [] && Accepts(t, Key(files[0].path)) {
      var rest := files[1..];
      NonemptyKey(t, Key(files[0].path));
      WithFileIsWellFormed(t, files[0]);
      CanMoveIff(WithFile(t, files[0]), rest);
      forall i | 0 <= i < |rest|
        ensures Accepts(WithFile(t, files[0]), Key(rest[i].path)) <==> Accepts(t, Key(files[i + 1].path))
      {
        AcceptsAfter(t, files[0], Key(rest[i].path));
      }
      assert forall i :: 1 <= i < |files| ==> files[i] == rest[i - 1];
    }
  }

  lemma NonemptyKey(t: Tree, key: Place)
    requires Accepts(t, key)
    ensures key != []
  {
  }

  lemma CreatesAfter(t: Tree, file: Source, path: string)
    requires WellFormed(t) && Creates(t, file.path)
    ensures Creates(WithFile(t, file), path) <==> Creates(t, path) && FileTree.Apart(Key(file.path), Key(path))
  {
    hide WellFormed, Key, Accepts, EndsInName;
    var first, key := Key(file.path), Key(path);
    NonemptyKey(t, first);
    if FileTree.Apart(first, key) {
      AcceptsAfter(t, file, key);
    } else if Accepts(WithFile(t, file), key) {
      NonemptyKey(WithFile(t, file), key);
      WithFileIs(t, file, key);
      if Under(first, key) {
        WithFileIs(t, file, first);
        FileInTheWay(WithFile(t, file), key, |first|);
      }
    }
  }

  lemma FileInTheWay(t: Tree, key: Place, n: nat)
    requires 0 < n < |key| && key[..n] in t && !t[key[..n]].Directory?
    ensures !Accepts(t, key)
  {
  }

  lemma {:induction false} CanCreateIff(t: Tree, files: seq<Source>)
    requires WellFormed(t) && KeysAreNames(files)
    ensures CanCreate(t, files) <==> PairwiseApart(files) && forall i :: 0 <= i < |files| ==> Creates(t, files[i].path)
    decreases |files|
  {
    hide WellFormed, AllNames, FileTree.Apart, Key, Accepts, EndsInName;
    if files != [] && Creates(t, files[0].path) {
      var rest := files[1..];
      NonemptyKey(t, Key(files[0].path));
      WithFileIsWellFormed(t, files[0]);
      CanCreateIff(WithFile(t, files[0]), rest);
      forall i | 0 <= i < |rest|
        ensures Creates(WithFile(t, files[0]), rest[i].path) <==>
                Creates(t, files[i + 1].path) && FileTree.Apart(Key(files[0].path), Key(files[i + 1].path))
      {
        CreatesAfter(t, files[0], rest[i].path);
      }
      assert forall i :: 1 <= i < |files| ==> files[i] == rest[i - 1];
    }
  }

  /** A staging directory as it is created: with its lease. */
  const FRESH: Tree := map[[LEASE_NAME] := Plain([])]

  lemma FreshIsWellFormed()
    ensures WellFormed(FRESH)
  {
    assert Parent([LEASE_NAME]) == [];
  }

  /** A file can be created in a fresh staging directory under this path. */
  predicate IsStageable(path: string) {
    EndsInName(path) && FileTree.Apart([LEASE_NAME], Key(path))
  }

  lemma StageableIsCreated(path: string)
    ensures Creates(FRESH, path) <==> IsStageable(path)
  {
    var key := Key(path);
    if EndsInName(path) {
      SpokenHasLast(Split(path));
    }
    forall n | 0 < n <= |key| ensures key[..n] in FRESH <==> n == 1 && key[0] == LEASE_NAME {
      if n == 1 { assert key[..1] == [key[0]]; }
    }
    assert key[..|key|] == key;
    if key != [] { assert Within([LEASE_NAME], key) <==> key[..1] == [LEASE_NAME]; }
  }

  /** Files can be created one after another in a fresh staging directory exactly when every path
      ends in a name, and no file's place is another's or the lease's, or on the way to one of them,
      or below one of them. */
  lemma CanStageIff(files: seq<Source>)
    requires KeysAreNames(files)
    ensures CanCreate(FRESH, files) <==> PairwiseApart(files) && forall i :: 0 <= i < |files| ==> IsStageable(files[i].path)
  {
    hide PairwiseApart, KeysAreNames, Creates, IsStageable;
    FreshIsWellFormed();
    CanCreateIff(FRESH, files);
    forall i | 0 <= i < |files| ensures Creates(FRESH, files[i].path) <==> IsStageable(files[i].path) {
      StageableIsCreated(files[i].path);
    }
  }

  lemma ValidKeysAreNames(files: seq<Source>)
    requires forall i :: 0 <= i < |files| ==> ValidRelative(files[i].path)
    ensures KeysAreNames(files)
  {
    hide Key;
    forall i | 0 <= i < |files| ensures AllNames(Key(files[i].path)) {
      KeyParts(files[i].path);
      assert forall k :: 0 <= k < |Key(files[i].path)| ==> Key(files[i].path)[k] in Key(files[i].path);
    }
  }
}
