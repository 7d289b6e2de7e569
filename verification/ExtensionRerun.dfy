/** What running one extension to its end does, and exactly when that is possible. */
module ExtensionRerun {
  import opened Manifests
  import opened Paths
  import opened FileTree
  import opened Placing
  import opened Extension

  function PathsOf(files: seq<Source>): (r: seq<string>)
    ensures |r| == |files| && forall i :: 0 <= i < |files| ==> r[i] == files[i].path
  {
    if files == [] then [] else [files[0].path] + PathsOf(files[1..])
  }

  /** Steps of one attempt under way. */
  predicate By(run: seq<Event>, p: Pid) {
    forall i :: 0 <= i < |run| ==> run[i].pid == p && !run[i].step.Plan?
  }

  // ---------------------------------------------------------------- moving one file

  /** The next file is to be moved, and can be. */
  predicate MayMove(s: State, p: Pid) {
    && TreeInv(s) && p in s.procs && s.procs[p].Moving? && s.procs[p].files != []
    && s.procs[p].files[0].path !in s.procs[p].published
    && Accepts(s.disk, Key(s.procs[p].files[0].path))
  }

  lemma PrefixStep(t: Tree, key: Place, n: nat)
    requires WellFormed(t) && Accepts(t, key) && 0 < n < |key|
    ensures var dir, up := key[..n], WithDirs(t, key[..n - 1]);
            && Parent(dir) == key[..n - 1] && Under(dir, key) && dir != []
            && (dir in t ==> WithDirs(t, dir) == up)
            && (dir !in t ==> WithDirs(t, dir) == up[dir := Directory] && dir !in up && IsDir(up, key[..n - 1]))
  {
    hide WellFormed;
    var dir := key[..n];
    assert Parent(dir) == key[..n - 1];
    WithDirsIs(t, key[..n - 1], dir);
    WithDirsIs(t, key[..n - 1], key[..n - 1]);
    if dir in t {
      Ancestor(t, dir, n - 1);
      assert dir[..n - 1] == key[..n - 1];
    }
  }

  /** The directories down to the first `n` names of the file's place are created one by one. */
  lemma {:induction false} MakesDirs(s: State, p: Pid, n: nat) returns (run: seq<Event>)
    requires MayMove(s, p) && n < |Key(s.procs[p].files[0].path)|
    ensures Valid(s, run) && By(run, p)
    ensures After(s, run) == s.(disk := WithDirs(s.disk, Key(s.procs[p].files[0].path)[..n]))
  {
    hide TreeInv, Key, Accepts, CanCreate, CanRename, Valid, After;
    var key := Key(s.procs[p].files[0].path);
    if n == 0 {
      run := [];
      NothingHappens(s);
      assert key[..0] == [];
    } else {
      run := MakesDirs(s, p, n - 1);
      TreeIsWellFormed(s);
      PrefixStep(s.disk, key, n);
      if key[..n] !in s.disk {
        Append(s, run, Event(p, MakeDir(key[..n])));
        run := run + [Event(p, MakeDir(key[..n]))];
      }
    }
  }

  lemma NothingHappens(s: State)
    ensures Valid(s, []) && After(s, []) == s
  {
  }

  lemma TreeIsWellFormed(s: State)
    requires TreeInv(s)
    ensures WellFormed(s.disk)
  {
  }

  function Advanced(ph: Phase): Phase
    requires ph.Moving? && ph.files != []
  {
    var file := ph.files[0];
    if file.path in ph.published then ph.(files := ph.files[1..], skipped := ph.skipped + {file.path})
    else ph.(files := ph.files[1..], entries := ph.entries + [EntryOf(file)], added := ph.added + [file.path])
  }

  lemma PlacesFile(s: State, p: Pid) returns (run: seq<Event>)
    requires MayMove(s, p) && Key(s.procs[p].files[0].path) != []
    ensures Valid(s, run) && By(run, p)
    ensures After(s, run) == s.(disk := WithFile(s.disk, s.procs[p].files[0]), procs := s.procs[p := Advanced(s.procs[p])])
  {
    hide TreeInv, Key, CanCreate, Valid, After;
    var key := Key(s.procs[p].files[0].path);
    TreeIsWellFormed(s);
    run := MakesDirs(s, p, |key| - 1);
    ReadyToRename(s.disk, key);
    Append(s, run, Event(p, Move));
    run := run + [Event(p, Move)];
  }

  lemma ReadyToRename(t: Tree, key: Place)
    requires WellFormed(t) && Accepts(t, key)
    ensures CanRename(WithDirs(t, Parent(key)), key)
  {
    hide WellFormed;
    WithDirsIs(t, Parent(key), key);
    WithDirsIs(t, Parent(key), Parent(key));
    assert Parent(key) == key[..|key| - 1];
  }

  // ---------------------------------------------------------------- moving all files

  lemma Regroup<T>(a: seq<T>, x: T, b: seq<T>)
    ensures a + [x] + b == a + ([x] + b)
  {
  }

  lemma FirstMoved(t: Tree, files: seq<Source>, listed: set<string>)
    requires files != []
    ensures var f, rest := files[0], Candidates(files[1..], listed);
            if f.path in listed then Candidates(files, listed) == rest
            else
              && Candidates(files, listed) == [f] + rest
              && Entries([f] + rest) == [EntryOf(f)] + Entries(rest) && PathsOf([f] + rest) == [f.path] + PathsOf(rest)
              && (CanMove(t, [f] + rest) ==>
                    && Key(f.path) != [] && Accepts(t, Key(f.path)) && CanMove(WithFile(t, f), rest)
                    && WithFiles(t, [f] + rest) == WithFiles(WithFile(t, f), rest))
  {
    hide Key;
    var f, rest := files[0], Candidates(files[1..], listed);
    assert ([f] + rest)[1..] == rest;
  }

  lemma {:induction false} FirstSkipped(files: seq<Source>, listed: set<string>)
    requires files != []
    ensures Skipped(files, listed) == Skipped(files[1..], listed) + if files[0].path in listed then {files[0].path} else {}
  {
    forall path | path in Skipped(files[1..], listed) ensures path in Skipped(files, listed) {
      var i :| 0 <= i < |files[1..]| && files[1..][i].path in listed && files[1..][i].path == path;
      assert files[i + 1].path == path;
    }
    forall path | path in Skipped(files, listed) && path != files[0].path ensures path in Skipped(files[1..], listed) {
      var i :| 0 <= i < |files| && files[i].path in listed && files[i].path == path;
      assert files[1..][i - 1].path == path;
    }
  }

  /** Where moving all of its files leads an extension. */
  function AllMoved(ph: Phase): Phase
    requires ph.Moving?
  {
    var news := Candidates(ph.files, ph.published);
    Moving([], ph.skipped + Skipped(ph.files, ph.published), ph.published, ph.entries + Entries(news), ph.added + PathsOf(news))
  }

  lemma AdvancedLeadsOn(ph: Phase)
    requires ph.Moving? && ph.files != []
    ensures AllMoved(Advanced(ph)) == AllMoved(ph)
    ensures Candidates(Advanced(ph).files, Advanced(ph).published) == Candidates(ph.files[1..], ph.published)
  {
    hide Skipped, Candidates, Entries, PathsOf, EntryOf, CanMove, Accepts, WithFiles, Key;
    FirstSkipped(ph.files, ph.published);
    FirstMoved(map[], ph.files, ph.published);
    var more := Candidates(ph.files[1..], ph.published);
    var path := ph.files[0].path;
    if path in ph.published {
      assert ph.skipped + {path} + Skipped(ph.files[1..], ph.published) == ph.skipped + Skipped(ph.files, ph.published);
    } else {
      Regroup(ph.entries, EntryOf(ph.files[0]), Entries(more));
      Regroup(ph.added, path, PathsOf(more));
      assert Skipped(ph.files, ph.published) == Skipped(ph.files[1..], ph.published);
    }
  }

  lemma AdvancesOne(s: State, p: Pid) returns (run: seq<Event>)
    requires TreeInv(s) && p in s.procs && s.procs[p].Moving? && s.procs[p].files != []
    requires CanMove(s.disk, Candidates(s.procs[p].files, s.procs[p].published))
    ensures Valid(s, run) && By(run, p)
    ensures var was, f := s.procs[p], s.procs[p].files[0];
            var more := Candidates(was.files[1..], was.published);
            var t := After(s, run);
            && t == s.(disk := t.disk, procs := s.procs[p := Advanced(was)])
            && CanMove(t.disk, more)
            && WithFiles(t.disk, more) == WithFiles(s.disk, Candidates(was.files, was.published))
  {
    hide TreeInv, Key, Candidates, WithFiles, CanMove, Accepts, Entries, PathsOf, EntryOf, CanCreate, Valid, After;
    var was := s.procs[p];
    FirstMoved(s.disk, was.files, was.published);
    if was.files[0].path in was.published {
      NothingHappens(s);
      Append(s, [], Event(p, Move));
      run := [] + [Event(p, Move)];
    } else {
      run := PlacesFile(s, p);
    }
  }

  /** The same part as the protocol takes it, step by step, whenever the new files can be moved in
      one after another. */
  lemma {:induction false} StepsMatch(s: State, p: Pid) returns (run: seq<Event>)
    requires TreeInv(s) && p in s.procs && s.procs[p].Moving?
    requires CanMove(s.disk, Candidates(s.procs[p].files, s.procs[p].published))
    ensures Valid(s, run) && By(run, p)
    ensures var was := s.procs[p];
            After(s, run) == s.(disk := WithFiles(s.disk, Candidates(was.files, was.published)),
                                procs := s.procs[p := AllMoved(was)])
    decreases |s.procs[p].files|
  {
    hide TreeInv, Key, Skipped, Candidates, WithFiles, CanMove, Entries, PathsOf, Enabled, Apply, EntryOf, Valid, After;
    var was := s.procs[p];
    if was.files == [] {
      run := [];
      NothingHappens(s);
      NothingMoved(s.disk, was.published);
      assert was.skipped + {} == was.skipped && was.entries + [] == was.entries && was.added + [] == was.added;
      assert s.procs[p := was] == s.procs;
    } else {
      run := AdvancesOne(s, p);
      RunKeepsTree(s, run);
      AdvancedLeadsOn(was);
      var rest := StepsMatch(After(s, run), p);
      RunsCompose(s, run, rest);
      run := run + rest;
    }
  }

  lemma NothingMoved(t: Tree, listed: set<string>)
    ensures WithFiles(t, []) == t && Entries([]) == [] && PathsOf([]) == []
    ensures Candidates([], listed) == [] && Skipped([], listed) == {}
  {
  }

  // ---------------------------------------------------------------- rerunning

  /** Nothing stands in the way of these files: each can be staged and put where it goes, and none is,
      or is on the way to, another. */
  predicate Placeable(t: Tree, files: seq<Source>) {
    && (forall i :: 0 <= i < |files| ==> IsStageable(files[i].path) && Accepts(t, Key(files[i].path)))
    && PairwiseApart(files)
  }

  lemma PlaceableIff(t: Tree, files: seq<Source>)
    requires WellFormed(t) && ValidFiles(files)
    ensures Placeable(t, files) <==> CanCreate(FRESH, files) && CanMove(t, files)
  {
    hide WellFormed, CanCreate, CanMove, Accepts, IsStageable, Key, PairwiseApart, KeysAreNames, ValidRelative;
    ValidKeysAreNames(files);
    CanStageIff(files);
    if PairwiseApart(files) {
      CanMoveIff(t, files);
    }
  }

  /** A whole run of one attempt for `request`. */
  predicate Alone(run: seq<Event>, p: Pid, request: seq<Source>) {
    run != [] && run[0] == Event(p, Plan(request)) && By(run[1..], p)
  }

  predicate ToItsEnd(run: seq<Event>) {
    run != [] && run[|run| - 1].step.Finish?
  }

  lemma ReachesTheLock(s: State, p: Pid, request: seq<Source>) returns (run: seq<Event>)
    requires p !in s.procs && s.lock == map[] && IsReadable(s)
    requires ValidFiles(request) && DistinctSources(request)
    requires Candidates(request, Listed(Live(s))) != [] && CanCreate(FRESH, Candidates(request, Listed(Live(s))))
    ensures Valid(s, run) && Alone(run, p, request)
    ensures var listed := Listed(Live(s));
            After(s, run) == s.(lock := map[() := p],
                                procs := s.procs[p := Moving(Candidates(request, listed), Skipped(request, listed), listed, Live(s), [])])
  {
    hide Listed, Skipped, Candidates, CanCreate, Valid, After, Find, Current;
    NothingHappens(s);
    Append(s, [], Event(p, Plan(request)));
    run := [] + [Event(p, Plan(request))];
    Append(s, run, Event(p, Stage));
    run := run + [Event(p, Stage)];
    Append(s, run, Event(p, Lock));
    run := run + [Event(p, Lock)];
    Append(s, run, Event(p, Reread));
    run := run + [Event(p, Reread)];
  }

  lemma AloneGoesOn(run: seq<Event>, rest: seq<Event>, p: Pid, request: seq<Source>)
    requires Alone(run, p, request) && By(rest, p)
    ensures Alone(run + rest, p, request)
  {
    assert (run + rest)[1..] == run[1..] + rest;
  }

  lemma CandidatesAreValid(request: seq<Source>, listed: set<string>)
    requires ValidFiles(request)
    ensures ValidFiles(Candidates(request, listed))
  {
    hide ValidRelative;
    var files := Candidates(request, listed);
    forall i | 0 <= i < |files| ensures ValidRelative(files[i].path) {
      assert files[i] in files;
    }
  }

  lemma ReachesTheSwap(s: State, p: Pid, request: seq<Source>) returns (run: seq<Event>)
    requires TreeInv(s) && IsReadable(s) && p !in s.procs && s.lock == map[] && ValidFiles(request) && DistinctSources(request)
    requires Candidates(request, Listed(Live(s))) != [] && Placeable(s.disk, Candidates(request, Listed(Live(s))))
    ensures Valid(s, run) && Alone(run, p, request)
    ensures var listed := Listed(Live(s));
            var news := Candidates(request, listed);
            After(s, run) == s.(lock := map[() := p], disk := WithFiles(s.disk, news),
                                procs := s.procs[p := AllMoved(Moving(news, Skipped(request, listed), listed, Live(s), []))])
  {
    hide TreeInv, Placeable, Listed, Skipped, Candidates, CanCreate, CanMove, Valid, After, AllMoved, WithFiles, ValidFiles, Current;
    var listed := Listed(Live(s));
    TreeIsWellFormed(s);
    CandidatesAreValid(request, listed);
    PlaceableIff(s.disk, Candidates(request, listed));
    CandidatesTwice(request, listed);
    run := ReachesTheLock(s, p, request);
    RunKeepsTree(s, run);
    var rest := StepsMatch(After(s, run), p);
    RunsCompose(s, run, rest);
    AloneGoesOn(run, rest, p, request);
    run := run + rest;
  }

  lemma {:induction false} CandidatesTwice(request: seq<Source>, listed: set<string>)
    ensures Candidates(Candidates(request, listed), listed) == Candidates(request, listed)
  {
    if request != [] {
      CandidatesTwice(request[1..], listed);
      if request[0].path !in listed {
        var more := Candidates(request[1..], listed);
        assert ([request[0]] + more)[1..] == more;
      }
    }
  }

  predicate ListsAll(s: State, request: seq<Source>) {
    forall f :: f in request ==> f.path in Listed(Live(s))
  }

  lemma NewsAreListed(manifest: seq<Entry>, request: seq<Source>)
    ensures var news := Candidates(request, Listed(manifest));
            forall f :: f in request ==>
              && f.path in Listed(manifest + Entries(news))
              && (f.path !in Listed(manifest) ==> EntryOf(f) in manifest + Entries(news))
  {
    var listed := Listed(manifest);
    var news := Candidates(request, listed);
    var all := manifest + Entries(news);
    ListedGrows(manifest, all);
    forall f | f in request && f.path !in listed ensures f.path in Listed(all) && EntryOf(f) in all {
      var i :| 0 <= i < |news| && news[i] == f;
      assert all[|manifest| + i] == EntryOf(f);
    }
  }

  lemma NothingNew(manifest: seq<Entry>, request: seq<Source>)
    requires Candidates(request, Listed(manifest)) == []
    ensures forall f :: f in request ==> f.path in Listed(manifest)
  {
    hide Listed;
    assert forall f :: f in request && f.path !in Listed(manifest) ==> f in Candidates(request, Listed(manifest));
  }

  lemma NothingToDo(s: State, p: Pid, request: seq<Source>) returns (run: seq<Event>)
    requires IsReadable(s) && p !in s.procs && ValidFiles(request) && DistinctSources(request)
    requires Candidates(request, Listed(Live(s))) == []
    ensures Valid(s, run) && Alone(run, p, request) && ToItsEnd(run)
    ensures ListsAll(After(s, run), request) && Live(After(s, run)) == Live(s)
    ensures After(s, run).reports == s.reports + [Report([], Skipped(request, Listed(Live(s))))]
  {
    NothingNew(Live(s), request);
    hide Listed, Skipped, Candidates, Valid, After, Find, Current;
    NothingHappens(s);
    Append(s, [], Event(p, Plan(request)));
    run := [] + [Event(p, Plan(request))];
    Append(s, run, Event(p, Finish));
    run := run + [Event(p, Finish)];
  }

  /** An extension that has moved its files swaps the manifest and reports. */
  lemma SwapsAndReports(s: State, p: Pid, text: Bytes) returns (run: seq<Event>)
    requires TreeInv(s) && p in s.procs && s.procs[p].Moving? && s.procs[p].files == [] && s.procs[p].added != []
    ensures Valid(s, run) && By(run, p) && ToItsEnd(run)
    ensures var t := After(s, run);
            && t.disk == s.disk[[MANIFEST_NAME] := ManifestFile(text, s.repoType, s.procs[p].entries)] && t.repoType == s.repoType
            && Live(t) == s.procs[p].entries && IsReadable(t)
            && t.reports == s.reports + [Report(SortedPaths(s.procs[p].added), s.procs[p].skipped)]
  {
    hide Valid, After, WellFormed, NoLinks, LockOK;
    NothingHappens(s);
    Append(s, [], Event(p, Swap(text)));
    run := [] + [Event(p, Swap(text))];
    Append(s, run, Event(p, Finish));
    run := run + [Event(p, Finish)];
  }

  lemma SomethingAdded(ph: Phase)
    requires ph.Moving? && ph.added == [] && ph.files != [] && Candidates(ph.files, ph.published) == ph.files
    ensures AllMoved(ph).added != []
  {
  }

  /** Rerunning an extension after one that stopped anywhere: once the lock is free, if the manifest
      can be read and nothing stands in the way of the new files, running the same request to its end
      lists every requested path, records the requested bytes of each that was not listed before, and
      reports those as added and the others as skipped. */
  lemma RerunListsEverything(s: State, p: Pid, request: seq<Source>) returns (run: seq<Event>)
    requires TreeInv(s) && p !in s.procs && s.lock == map[] && ValidFiles(request) && DistinctSources(request)
    requires IsReadable(s) && Placeable(s.disk, Candidates(request, Listed(Live(s))))
    ensures Valid(s, run) && Alone(run, p, request) && ToItsEnd(run)
    ensures var t := After(s, run);
            && ListsAll(t, request)
            && (forall f :: f in request && f.path !in Listed(Live(s)) ==> EntryOf(f) in Live(t))
            && t.reports == s.reports + [Report(SortedPaths(PathsOf(Candidates(request, Listed(Live(s))))), Skipped(request, Listed(Live(s))))]
  {
    hide TreeInv, Placeable, Listed, Skipped, Candidates, CanCreate, CanMove, Valid, After, WithFiles, Entries, PathsOf, EntryOf, Find,
         Current, AllMoved;
    var listed := Listed(Live(s));
    var news := Candidates(request, listed);
    if news == [] {
      run := NothingToDo(s, p, request);
      NothingNew(Live(s), request);
      NothingMoved(s.disk, listed);
      NothingSorted();
    } else {
      NewsAreListed(Live(s), request);
      CandidatesTwice(request, listed);
      run := ReachesTheSwap(s, p, request);
      RunKeepsTree(s, run);
      var was := Moving(news, Skipped(request, listed), listed, Live(s), []);
      SomethingAdded(was);
      AllMovedIs(was);
      NoneSkipped(request, listed);
      assert AllMoved(was).added == PathsOf(news) && AllMoved(was).skipped == Skipped(request, listed);
      var rest := SwapsAndReports(After(s, run), p, []);
      RunsCompose(s, run, rest);
      AloneGoesOn(run, rest, p, request);
      run := run + rest;
    }
  }


  lemma AllMovedIs(ph: Phase)
    requires ph.Moving?
    ensures AllMoved(ph).Moving? && AllMoved(ph).files == []
    ensures AllMoved(ph).entries == ph.entries + Entries(Candidates(ph.files, ph.published))
    ensures AllMoved(ph).added == ph.added + PathsOf(Candidates(ph.files, ph.published))
    ensures AllMoved(ph).skipped == ph.skipped + Skipped(ph.files, ph.published)
  {
  }

  lemma NoneSkipped(request: seq<Source>, listed: set<string>)
    ensures Skipped(Candidates(request, listed), listed) == {}
  {
    var files := Candidates(request, listed);
    assert forall i :: 0 <= i < |files| ==> files[i] in files;
  }

  lemma NothingSorted()
    ensures SortedPaths([]) == []
  {
  }

  // ---------------------------------------------------------------- exactly when

  /** What can be renamed to a place could have been from the start, if only files and directories
      were added since. */
  lemma RenamedWasAccepted(t: Tree, t': Tree, key: Place)
    requires WellFormed(t') && KindsKept(t, t') && CanRename(t', key)
    ensures Accepts(t, key)
  {
    hide WellFormed;
    forall n | 0 < n < |key| && key[..n] in t ensures t[key[..n]].Directory? {
      if n < |key| - 1 {
        assert Parent(key)[..n] == key[..n];
        Ancestor(t', Parent(key), n);
      } else {
        assert key[..n] == Parent(key);
      }
    }
  }

  /** How far one attempt for the new files `news` has come, nobody else doing anything. */
  predicate Underway(s: State, t: State, p: Pid, news: seq<Source>) {
    && TreeInv(t) && t.repoType == s.repoType && KindsKept(s.disk, t.disk)
    && (p in t.procs ==>
          match t.procs[p]
          case Planned(files, _) => files == news && t.disk == s.disk
          case Staged(files, _) => files == news && t.disk == s.disk && CanCreate(FRESH, news)
          case Locked(files, _) => files == news && t.disk == s.disk && CanCreate(FRESH, news)
          case Moving(files, _, published, _, added) =>
            && CanCreate(FRESH, news) && published == Listed(Live(s))
            && |files| <= |news| && files == news[|news| - |files|..] && |added| == |news| - |files|
            && (forall i :: 0 <= i < |news| - |files| ==> Accepts(s.disk, Key(news[i].path)))
          case Swapped(_) => CanCreate(FRESH, news) && forall i :: 0 <= i < |news| ==> Accepts(s.disk, Key(news[i].path))
          case Found(_) => true)
  }

  lemma MoveStaysUnderway(s: State, t: State, p: Pid, news: seq<Source>)
    requires Underway(s, t, p, news) && forall f :: f in news ==> f.path !in Listed(Live(s))
    requires p in t.procs && EnabledFor(t, p, t.procs[p], Move) && TreeInv(ApplyFor(t, p, t.procs[p], Move))
    requires KindsKept(s.disk, ApplyFor(t, p, t.procs[p], Move).disk)
    ensures Underway(s, ApplyFor(t, p, t.procs[p], Move), p, news)
  {
    hide Key, Listed, Current, CanCreate, LockOK, NoLinks, WellFormed, KindsKept;
    var ph := t.procs[p];
    var done := |news| - |ph.files|;
    assert ph.files[0] == news[done] && news[done] in news;
    TreeIsWellFormed(t);
    RenamedWasAccepted(s.disk, t.disk, Key(ph.files[0].path));
    assert ph.files[1..] == news[|news| - |ph.files[1..]|..];
  }

  lemma KindsKeptOn(a: Tree, b: Tree, c: Tree)
    requires KindsKept(a, b) && KindsKept(b, c)
    ensures KindsKept(a, c)
  {
  }

  lemma OtherStepStaysUnderway(s: State, t: State, p: Pid, news: seq<Source>, step: Step)
    requires Underway(s, t, p, news) && forall f :: f in news ==> f.path !in Listed(Live(s))
    requires p in t.procs && EnabledFor(t, p, t.procs[p], step) && !step.Move? && TreeInv(ApplyFor(t, p, t.procs[p], step))
    requires KindsKept(s.disk, ApplyFor(t, p, t.procs[p], step).disk)
    ensures Underway(s, ApplyFor(t, p, t.procs[p], step), p, news)
  {
    hide Key, Listed, Current, CanCreate, TreeInv, KindsKept, CanRename, Accepts, HoldsLock, SortedPaths, ManifestFile, Under, Live,
         IsReadable, EndsInName;
    SameLive(s, t);
    assert news[|news| - |news|..] == news;
  }

  lemma SameLive(s: State, t: State)
    ensures t.disk == s.disk && t.repoType == s.repoType ==> Live(t) == Live(s)
  {
  }

  lemma StepStaysUnderway(s: State, t: State, p: Pid, news: seq<Source>, e: Event)
    requires Underway(s, t, p, news) && forall f :: f in news ==> f.path !in Listed(Live(s))
    requires e.pid == p && !e.step.Plan? && Enabled(t, e)
    ensures Underway(s, Apply(t, e), p, news)
  {
    StepKeepsTree(t, e);
    KindsKeptOn(s.disk, t.disk, Apply(t, e).disk);
    hide Key, Listed, Current, Live, CanCreate, TreeInv, KindsKept, EnabledFor, ApplyFor, Find;
    if e.step.Lookup? {
    } else if e.step.Move? {
      MoveStaysUnderway(s, t, p, news);
    } else {
      OtherStepStaysUnderway(s, t, p, news, e.step);
    }
  }

  /** An attempt that gets to its end had nothing in its way. */
  lemma {:induction false} EndedWasPlaceable(s: State, t: State, run: seq<Event>, p: Pid, news: seq<Source>)
    requires Underway(s, t, p, news) && ValidFiles(news) && forall f :: f in news ==> f.path !in Listed(Live(s))
    requires Valid(t, run) && By(run, p) && ToItsEnd(run)
    ensures Placeable(s.disk, news)
    decreases |run|
  {
    hide Key, Listed, Current, CanCreate, KindsKept, Apply, Accepts, ValidRelative, IsStageable, PairwiseApart, KeysAreNames, TreeInv;
    if |run| == 1 {
      FinishIsPlaceable(s, t, p, news);
    } else {
      StepStaysUnderway(s, t, p, news, run[0]);
      EndedWasPlaceable(s, Apply(t, run[0]), run[1..], p, news);
    }
  }

  lemma FinishIsPlaceable(s: State, t: State, p: Pid, news: seq<Source>)
    requires Underway(s, t, p, news) && ValidFiles(news) && Enabled(t, Event(p, Finish))
    ensures Placeable(s.disk, news)
  {
    hide Key, Listed, Current, KindsKept, Apply, Accepts, ValidRelative, IsStageable, PairwiseApart, KeysAreNames, TreeInv;
    ValidKeysAreNames(news);
    CanStageIff(news);
  }

  /** Once the lock is free: a request can be run to its end, listing every requested path, exactly
      when the manifest can be read and nothing stands in the way of its new files. */
  lemma RerunListsEverythingIff(s: State, p: Pid, request: seq<Source>)
    requires TreeInv(s) && p !in s.procs && s.lock == map[] && ValidFiles(request) && DistinctSources(request)
    ensures IsReadable(s) && Placeable(s.disk, Candidates(request, Listed(Live(s)))) <==>
            exists run :: Alone(run, p, request) && Valid(s, run) && ToItsEnd(run) && ListsAll(After(s, run), request)
  {
    if IsReadable(s) && Placeable(s.disk, Candidates(request, Listed(Live(s)))) {
      var run := RerunListsEverything(s, p, request);
    } else {
      forall run | Alone(run, p, request) && Valid(s, run) ensures !ToItsEnd(run) {
        if ToItsEnd(run) { EndedAlone(s, run, p, request); }
      }
    }
  }

  lemma EndedAlone(s: State, run: seq<Event>, p: Pid, request: seq<Source>)
    requires TreeInv(s) && p !in s.procs && ValidFiles(request)
    requires Alone(run, p, request) && Valid(s, run) && ToItsEnd(run)
    ensures IsReadable(s) && Placeable(s.disk, Candidates(request, Listed(Live(s))))
  {
    hide Key, Listed, Current, CanCreate, KindsKept, TreeInv, Candidates, Skipped, Placeable, ValidRelative;
    var listed := Listed(Live(s));
    var news := Candidates(request, listed);
    CandidatesAreValid(request, listed);
    StepKeepsTree(s, run[0]);
    NothingLost(s.disk);
    EndedWasPlaceable(s, Apply(s, run[0]), run[1..], p, news);
  }

  lemma NothingLost(t: Tree)
    ensures KindsKept(t, t)
  {
  }

  /** With normal paths from the start, the manifest can always be read and nothing but the revision's own
      files and directories, or the request's own paths, can stand in the way. */
  lemma NormalRerunIff(s: State, before: seq<Event>, p: Pid, request: seq<Source>)
    requires Start(s) && Valid(s, before) && RequestsNormal(before)
    requires ValidFiles(request) && NormalFiles(request) && DistinctSources(request)
    requires p !in After(s, before).procs && After(s, before).lock == map[]
    ensures var t := After(s, before);
            var news := Candidates(request, Listed(Live(t)));
            (PairwiseApart(news) && forall i :: 0 <= i < |news| ==> Accepts(t.disk, Key(news[i].path))) <==>
            exists run :: Alone(run, p, request) && Valid(t, run) && ToItsEnd(run) && ListsAll(After(t, run), request)
  {
    hide Valid, After, TreeInv, Alone, Listed, Candidates, PairwiseApart, Accepts, Key, Start, IsStageable, ValidRelative, Normal,
         RequestsNormal;
    StartIsInv(s);
    RunKeepsInv(s, before);
    var t := After(s, before);
    RerunListsEverythingIff(t, p, request);
    CandidatesKeep(request, Listed(Live(t)));
    var news := Candidates(request, Listed(Live(t)));
    forall i | 0 <= i < |news| ensures IsStageable(news[i].path) {
      CleanIsNotOwn(news[i].path);
    }
  }
}
