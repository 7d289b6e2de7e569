/** One extension as it runs: selecting its candidates, and the part under the lock, which moves the
    staged files into the revision and swaps the manifest. */
module RevisionExtension {
  import opened Common
  import opened Manifests
  import opened Paths
  import opened FileTree
  import opened Placing
  import opened Extension
  import opened ExtensionRerun

  // ---------------------------------------------------------------- one more file

  /** Moving two lists in one after the other is moving their concatenation in. */
  lemma {:induction false} MovedInTurn(t: Tree, a: seq<Source>, b: seq<Source>)
    ensures CanMove(t, a + b) <==> CanMove(t, a) && CanMove(WithFiles(t, a), b)
    ensures CanMove(t, a) ==> WithFiles(t, a + b) == WithFiles(WithFiles(t, a), b)
    decreases |a|
  {
    hide Key, Accepts, WithFile;
    if a == [] {
      assert a + b == b;
    } else {
      assert (a + b)[0] == a[0] && (a + b)[1..] == a[1..] + b;
      if Accepts(t, Key(a[0].path)) {
        NonemptyKey(t, Key(a[0].path));
        MovedInTurn(WithFile(t, a[0]), a[1..], b);
      }
    }
  }

  lemma OneFileMoved(t: Tree, f: Source)
    ensures CanMove(t, [f]) <==> Accepts(t, Key(f.path))
    ensures Accepts(t, Key(f.path)) ==> WithFiles(t, [f]) == WithFile(t, f)
  {
    hide Key, WithFile;
    assert [f][1..] == [];
  }

  lemma {:induction false} OneMoreFile(files: seq<Source>, f: Source)
    ensures Entries(files + [f]) == Entries(files) + [EntryOf(f)] && PathsOf(files + [f]) == PathsOf(files) + [f.path]
    decreases |files|
  {
    if files == [] {
      assert files + [f] == [f] && [f][1..] == [];
    } else {
      OneMoreFile(files[1..], f);
      assert (files + [f])[0] == files[0] && (files + [f])[1..] == files[1..] + [f];
    }
  }

  lemma {:induction false} OneMoreCandidate(files: seq<Source>, f: Source, listed: set<string>)
    ensures Candidates(files + [f], listed) == Candidates(files, listed) + if f.path in listed then [] else [f]
    ensures Skipped(files + [f], listed) == Skipped(files, listed) + if f.path in listed then {f.path} else {}
  {
    hide Skipped, Candidates;
    SkippedGrows(files, f, listed);
    CandidatesUnfold(files + [f], listed);
    CandidatesUnfold(files, listed);
    if files == [] {
      assert files + [f] == [f] && [f][1..] == [];
      CandidatesUnfold([], listed);
    } else {
      OneMoreCandidate(files[1..], f, listed);
      assert (files + [f])[0] == files[0] && (files + [f])[1..] == files[1..] + [f];
    }
  }

  lemma {:induction false} CandidatesUnfold(files: seq<Source>, listed: set<string>)
    ensures Candidates(files, listed)
         == if files == [] then []
            else (if files[0].path in listed then [] else [files[0]]) + Candidates(files[1..], listed)
  {
  }

  lemma {:induction false} SkippedGrows(files: seq<Source>, f: Source, listed: set<string>)
    ensures Skipped(files + [f], listed) == Skipped(files, listed) + if f.path in listed then {f.path} else {}
  {
    var all := files + [f];
    assert all[|files|] == f;
    forall path | path in Skipped(files, listed) ensures path in Skipped(all, listed) {
      var i :| 0 <= i < |files| && files[i].path in listed && files[i].path == path;
      assert all[i].path == path;
    }
  }

  /** What the tree may be after an interruption: the first of the new files are in place, and some of
      the directories for the next one. */
  ghost predicate PartlyMoved(t: Tree, t': Tree, news: seq<Source>) {
    exists j, n :: PartOf(t, t', news, j, n)
  }

  predicate PartOf(t: Tree, t': Tree, news: seq<Source>, j: nat, n: nat) {
    && j <= |news| && CanMove(t, news[..j])
    && t' == WithDirs(WithFiles(t, news[..j]), if j < |news| && n < |Key(news[j].path)| then Key(news[j].path)[..n] else [])
  }

  /** The tree once the new files are in place and the manifest lists them. */
  function Extended(t: Tree, repoType: RepositoryType, entries: seq<Entry>, news: seq<Source>, text: Bytes): Tree {
    if news == [] then t
    else WithFiles(t, news)[[MANIFEST_NAME] := ManifestFile(text, repoType, entries + Entries(news))]
  }

  class PublishedRevision {
    const repoType: RepositoryType
    var disk: Tree        // what the revision's directory holds, the manifest included
    var steps: nat        // how many more effects take place

    constructor (repoType: RepositoryType, disk: Tree, steps: nat)
      ensures this.repoType == repoType && this.disk == disk && this.steps == steps
    {
      this.repoType, this.disk, this.steps := repoType, disk, steps;
    }

    /** Splits a request into what the manifest lists already and what is to be staged; a manifest that
        cannot be read, or an invalid or repeated path, refuses it. */
    method Select(request: seq<Source>) returns (r: Option<(seq<Source>, set<string>)>)
      ensures r.Some? <==>
                && Current(disk, repoType).Some?
                && (forall i :: 0 <= i < |request| ==> ValidRelative(request[i].path)) && DistinctSources(request)
      ensures r.Some? ==>
                var listed := Listed(Current(disk, repoType).value);
                r.value == (Candidates(request, listed), Skipped(request, listed))
    {
      hide ValidRelative, Candidates, Skipped, Current;
      var manifest := Current(disk, repoType);
      if manifest.None? { return None; }
      var listed := Listed(manifest.value);
      var candidates, skipped, requested := [], {}, {};
      assert request[..0] == [];
      NothingSelected(listed);
      for i := 0 to |request|
        invariant forall j :: 0 <= j < i ==> ValidRelative(request[j].path) && request[j].path in requested
        invariant forall path :: path in requested ==> exists j :: 0 <= j < i && request[j].path == path
        invariant DistinctSources(request[..i])
        invariant candidates == Candidates(request[..i], listed) && skipped == Skipped(request[..i], listed)
      {
        assert request[..i + 1] == request[..i] + [request[i]];
        if !ValidRelative(request[i].path) || request[i].path in requested { return None; }
        OneMoreCandidate(request[..i], request[i], listed);
        requested := requested + {request[i].path};
        if request[i].path in listed {
          skipped := skipped + {request[i].path};
        } else {
          candidates := candidates + [request[i]];
        }
      }
      assert request[..|request|] == request;
      return Some((candidates, skipped));
    }

    /** Creates every missing directory down to `dir`. */
    method CreateDirs(dir: Place) returns (ok: bool)
      requires WellFormed(disk) && AllNames(dir)
      modifies this`disk, this`steps
      ensures WellFormed(disk)
      ensures ok ==> disk == WithDirs(old(disk), dir) && forall n :: 0 < n <= |dir| && dir[..n] in old(disk) ==> old(disk)[dir[..n]].Directory?
      ensures !ok ==> exists n :: 0 <= n <= |dir| && disk == WithDirs(old(disk), dir[..n])
      ensures !ok ==> steps == 0 || exists n :: 0 < n <= |dir| && dir[..n] in old(disk) && !old(disk)[dir[..n]].Directory?
    {
      hide WellFormed;
      ghost var t := disk;
      assert dir[..0] == [];
      for n := 1 to |dir| + 1
        invariant WellFormed(disk) && disk == WithDirs(t, dir[..n - 1])
        invariant forall m :: 0 < m < n && dir[..m] in t ==> t[dir[..m]].Directory?
      {
        NextDirectory(t, dir, n);
        if dir[..n] in disk {
          if !disk[dir[..n]].Directory? { return false; }
        } else {
          if steps == 0 { return false; }
          steps := steps - 1;
          disk := disk[dir[..n] := Directory];
        }
      }
      assert dir[..|dir|] == dir;
      return true;
    }

    /** Creates the directories for one file and renames it into place, replacing a file that is there. */
    method PlaceFile(file: Source) returns (ok: bool)
      requires WellFormed(disk) && AllNames(Key(file.path))
      modifies this`disk, this`steps
      ensures WellFormed(disk)
      ensures ok ==> Accepts(old(disk), Key(file.path)) && disk == WithFile(old(disk), file)
      ensures !ok ==> disk == old(disk) || exists n :: 0 <= n < |Key(file.path)| && disk == WithDirs(old(disk), Key(file.path)[..n])
      ensures !ok ==> steps == 0 || !Accepts(old(disk), Key(file.path))
    {
      hide WellFormed, Key;
      var key := Key(file.path);
      if key == [] { return false; }
      ghost var t := disk;
      assert forall n :: 0 <= n < |key| ==> Parent(key)[..n] == key[..n];
      PrefixIsNames(key, |key| - 1);
      ok := CreateDirs(Parent(key));
      if !ok { return; }
      WithDirsIs(t, Parent(key), key);
      if key in disk && disk[key].Directory? {
        return false;
      }
      if steps == 0 { return false; }
      steps := steps - 1;
      WithFileIsWellFormed(t, file);
      disk := disk[key := NodeOf(file)];
    }

    /** The part under the lock, from reading the manifest again. Wherever it ends, the files moved so far are
        a beginning of the new ones, or they are all there and the manifest lists the old ones and they. The
        report names the added files in ascending order. It fails only where the manifest cannot be read, an
        effect fails or something stands in the way of a new file. */
    method PublishStaged(staged: seq<Source>, already: set<string>, text: Bytes) returns (r: Option<Report>)
      requires WellFormed(disk)
      modifies this
      ensures Current(old(disk), repoType).None? ==> r.None? && disk == old(disk)
      ensures Current(old(disk), repoType).Some? ==>
                var was := Current(old(disk), repoType).value;
                var news := Candidates(staged, Listed(was));
                && (r.Some? ==>
                      && CanMove(old(disk), news) && disk == Extended(old(disk), repoType, was, news, text)
                      && Current(disk, repoType) == Some(was + Entries(news))
                      && r.value == Report(SortedPaths(PathsOf(news)), already + Skipped(staged, Listed(was))))
                && (r.None? ==> PartlyMoved(old(disk), disk, news) || disk == Extended(old(disk), repoType, was, news, text))
                && (r.None? ==> steps == 0 || !CanMove(old(disk), news) || !ValidFiles(news))
    {
      hide Candidates, Skipped, WithFiles, WithFile, WithDirs, CanMove, Accepts, Key, Entries, Listed, PathsOf, WellFormed,
           ValidRelative, PartOf, Current;
      var manifest := Current(disk, repoType);
      if manifest.None? { return None; }
      ghost var t, news := disk, Candidates(staged, Listed(manifest.value));
      var published := Listed(manifest.value);
      var entries, added, skipped := manifest.value, [], already;
      ghost var moved: seq<Source> := [];
      NothingMoved(disk, published);
      NothingPlaced(disk);
      ReadFromFile(disk, repoType);
      assert staged[..0] == [];
      for i := 0 to |staged|
        invariant WellFormed(disk) && HasManifestFile(disk)
        invariant moved == Candidates(staged[..i], published)
        invariant CanMove(t, moved) && disk == WithFiles(t, moved)
        invariant entries == manifest.value + Entries(moved) && added == PathsOf(moved)
        invariant skipped == already + Skipped(staged[..i], published)
      {
        var file := staged[i];
        assert staged[..i + 1] == staged[..i] + [file];
        OneMoreCandidate(staged[..i], file, published);
        if file.path in published {
          skipped := skipped + {file.path};
        } else {
          CandidatesArePrefix(staged, i + 1, published);
          NextIsFile(t, disk, news, moved, file);
          if !ValidRelative(file.path) { return None; }
          OneMoreFile(moved, file);
          ValidIsNames(file);
          ghost var before := disk;
          var ok := PlaceFile(file);
          if !ok {
            StoppedPartly(t, disk, news, moved, file);
            return None;
          }
          NonemptyKey(before, Key(file.path));
          ManifestFileStays(before, file);
          moved := moved + [file];
          added := added + [file.path];
          entries := entries + [EntryOf(file)];
        }
      }
      assert staged[..|staged|] == staged;
      if added != [] {
        if steps == 0 {
          AllPlaced(t, disk, news);
          return None;
        }
        assert CanRename(disk, [MANIFEST_NAME]);
        disk := disk[[MANIFEST_NAME] := ManifestFile(text, repoType, entries)];
        steps := steps - 1;
        if steps == 0 { return None; }
      }
      ListsNow(t, repoType, manifest.value, news, text);
      return Some(Report(SortedPaths(added), skipped));
    }
  }

  predicate HasManifestFile(t: Tree) {
    [MANIFEST_NAME] in t && t[[MANIFEST_NAME]].File?
  }

  lemma ReadFromFile(t: Tree, repoType: RepositoryType)
    requires Current(t, repoType).Some?
    ensures HasManifestFile(t)
  {
  }

  lemma ManifestFileStays(t: Tree, file: Source)
    requires WellFormed(t) && HasManifestFile(t) && Key(file.path) != []
    ensures HasManifestFile(WithFile(t, file))
  {
    hide Key, WellFormed;
    WithFileIs(t, file, [MANIFEST_NAME]);
  }

  lemma ListsNow(t: Tree, repoType: RepositoryType, was: seq<Entry>, news: seq<Source>, text: Bytes)
    requires Current(t, repoType) == Some(was)
    ensures Current(Extended(t, repoType, was, news, text), repoType) == Some(was + Entries(news))
  {
    if news == [] { assert was + [] == was; }
  }

  lemma NextDirectory(t: Tree, dir: Place, n: nat)
    requires WellFormed(t) && AllNames(dir) && 0 < n <= |dir|
    requires forall m :: 0 < m < n && dir[..m] in t ==> t[dir[..m]].Directory?
    ensures var up := WithDirs(t, dir[..n - 1]);
            && (dir[..n] in up <==> dir[..n] in t) && (dir[..n] in t ==> up[dir[..n]] == t[dir[..n]])
            && WithDirs(t, dir[..n]) == (if dir[..n] in up then up else up[dir[..n] := Directory])
            && ((dir[..n] in t ==> t[dir[..n]].Directory?) ==> WellFormed(WithDirs(t, dir[..n])))
  {
    hide WellFormed;
    var up := dir[..n - 1];
    assert Parent(dir[..n]) == up;
    WithDirsIs(t, up, dir[..n]);
    if dir[..n] in t && up != [] {
      Ancestor(t, dir[..n], n - 1);
      assert dir[..n][..n - 1] == up;
    }
    PrefixIsNames(dir, n);
    forall m | 0 < m <= n && dir[..n][..m] in t && (dir[..n] in t ==> t[dir[..n]].Directory?) ensures t[dir[..n][..m]].Directory? {
      assert dir[..n][..m] == dir[..m];
    }
    if dir[..n] in t ==> t[dir[..n]].Directory? {
      WithDirsIsWellFormed(t, dir[..n]);
    }
  }

  lemma NothingPlaced(t: Tree)
    ensures CanMove(t, []) && WithFiles(t, []) == t && WithDirs(t, []) == t
  {
  }

  lemma ValidIsNames(file: Source)
    requires ValidRelative(file.path)
    ensures AllNames(Key(file.path))
  {
    ValidKeysAreNames([file]);
    assert [file][0] == file;
  }

  /** While `moved` are in place and `file` is next. */
  lemma NextIsFile(t: Tree, disk: Tree, news: seq<Source>, moved: seq<Source>, file: Source)
    requires moved + [file] <= news && CanMove(t, moved) && disk == WithFiles(t, moved)
    ensures CanMove(t, moved + [file]) <==> Accepts(disk, Key(file.path))
    ensures Accepts(disk, Key(file.path)) ==> WithFiles(t, moved + [file]) == WithFile(disk, file)
    ensures !Accepts(disk, Key(file.path)) ==> !CanMove(t, news)
    ensures !ValidRelative(file.path) ==> !ValidFiles(news)
    ensures PartlyMoved(t, disk, news)
  {
    hide CanMove, WithFiles, Accepts, Key, ValidRelative, WithFile;
    MovedInTurn(t, moved, [file]);
    OneFileMoved(disk, file);
    assert news == moved + [file] + news[|moved| + 1..];
    MovedInTurn(t, moved + [file], news[|moved| + 1..]);
    assert news[|moved|] == file && news[..|moved|] == moved;
    NothingPlaced(disk);
    assert PartOf(t, disk, news, |moved|, 0);
  }

  lemma StoppedPartly(t: Tree, disk: Tree, news: seq<Source>, moved: seq<Source>, file: Source)
    requires moved + [file] <= news && CanMove(t, moved)
    requires disk == WithFiles(t, moved) || exists n :: 0 <= n < |Key(file.path)| && disk == WithDirs(WithFiles(t, moved), Key(file.path)[..n])
    ensures PartlyMoved(t, disk, news)
  {
    hide CanMove, WithFiles, Key;
    assert news[|moved|] == file && news[..|moved|] == moved;
    if disk == WithFiles(t, moved) {
      assert PartOf(t, disk, news, |moved|, 0);
    } else {
      var n :| 0 <= n < |Key(file.path)| && disk == WithDirs(WithFiles(t, moved), Key(file.path)[..n]);
      assert PartOf(t, disk, news, |moved|, n);
    }
  }

  lemma AllPlaced(t: Tree, disk: Tree, news: seq<Source>)
    requires CanMove(t, news) && disk == WithFiles(t, news)
    ensures PartlyMoved(t, disk, news)
  {
    hide CanMove, WithFiles, Key;
    assert news[..|news|] == news;
    assert PartOf(t, disk, news, |news|, 0);
  }

  lemma NothingSelected(listed: set<string>)
    ensures Candidates([], listed) == [] && Skipped([], listed) == {}
  {
  }

  lemma {:induction false} CandidatesArePrefix(files: seq<Source>, i: nat, listed: set<string>)
    requires i <= |files|
    ensures Candidates(files[..i], listed) <= Candidates(files, listed)
    decreases |files| - i
  {
    if i == |files| {
      assert files[..i] == files;
    } else {
      assert files[..i + 1] == files[..i] + [files[i]];
      OneMoreCandidate(files[..i], files[i], listed);
      CandidatesArePrefix(files, i + 1, listed);
    }
  }
}
