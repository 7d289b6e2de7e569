/** What stands in the way of an extension, and that it stays there: whoever extends the revision later, a
    path that cannot be put where it goes is never listed. */
module ExtensionBlocks {
  import opened Common
  import opened Manifests
  import opened Paths
  import opened FileTree
  import opened Placing
  import opened Extension
  import opened ExtensionRerun
  import opened Text

  // ---------------------------------------------------------------- where listed entries come from

  /** What a file's bytes list when they are read in the manifest's place. */
  function ReadsAs(file: Source, repoType: RepositoryType): Option<seq<Entry>> {
    match file.parsed
    case Some(m) => if m.repoType == repoType && m.complete then Some(m.entries) else None
    case None => None
  }

  /** A file that goes where the manifest is and could be taken for it. */
  predicate Poses(file: Source, repoType: RepositoryType) {
    Key(file.path) == [MANIFEST_NAME] && ReadsAs(file, repoType).Some?
  }

  predicate Honest(files: seq<Source>, repoType: RepositoryType) {
    forall i :: 0 <= i < |files| ==> !Poses(files[i], repoType)
  }

  predicate NobodyPoses(run: seq<Event>, repoType: RepositoryType) {
    forall i :: 0 <= i < |run| && run[i].step.Plan? ==> Honest(run[i].step.request, repoType)
  }

  predicate AllStageable(files: seq<Source>) {
    forall i :: 0 <= i < |files| ==> IsStageable(files[i].path)
  }

  /** An entry with a file on disk whose path was listed at first or can be staged. */
  predicate IsGrounded(first: set<string>, e: Entry, disk: Tree) {
    Key(e.path) in disk && disk[Key(e.path)].File? && (e.path in first || IsStageable(e.path))
  }

  predicate AreGrounded(first: set<string>, entries: seq<Entry>, disk: Tree) {
    forall i :: 0 <= i < |entries| ==> IsGrounded(first, entries[i], disk)
  }

  predicate PhaseTraced(first: set<string>, s: State, ph: Phase) {
    match ph
    case Planned(files, _) => Honest(files, s.repoType)
    case Staged(files, _) => Honest(files, s.repoType) && AllStageable(files)
    case Locked(files, _) => Honest(files, s.repoType) && AllStageable(files)
    case Moving(files, _, _, entries, _) => Honest(files, s.repoType) && AllStageable(files) && AreGrounded(first, entries, s.disk)
    case Swapped(_) => true
    case Found(_) => true
  }

  /** Every entry listed, or about to be, has a file and was listed at first or staged since. */
  predicate Traced(first: set<string>, s: State) {
    && TreeInv(s) && AreGrounded(first, Live(s), s.disk)
    && forall p :: p in s.procs ==> PhaseTraced(first, s, s.procs[p])
  }

  lemma StartIsTraced(s: State)
    requires Start(s)
    ensures Traced(Listed(Live(s)), s)
  {
    hide Key, IsStageable, Current;
    StartIsInv(s);
    forall i | 0 <= i < |Live(s)| ensures IsGrounded(Listed(Live(s)), Live(s)[i], s.disk) {
      assert Holds(s.disk, Live(s)[i]);
      assert Live(s)[i].path in Listed(Live(s));
    }
  }

  lemma GroundedStay(first: set<string>, entries: seq<Entry>, disk: Tree, disk': Tree)
    requires AreGrounded(first, entries, disk) && KindsKept(disk, disk')
    ensures AreGrounded(first, entries, disk')
  {
    hide Key, IsStageable;
    forall i | 0 <= i < |entries| ensures IsGrounded(first, entries[i], disk') {
      assert IsGrounded(first, entries[i], disk);
    }
  }

  lemma {:induction false} CandidatesAreHonest(request: seq<Source>, listed: set<string>, repoType: RepositoryType)
    requires Honest(request, repoType)
    ensures Honest(Candidates(request, listed), repoType)
  {
    hide Poses;
    var files := Candidates(request, listed);
    forall i | 0 <= i < |files| ensures !Poses(files[i], repoType) {
      assert files[i] in files;
    }
  }

  lemma StagedAreStageable(files: seq<Source>)
    requires ValidFiles(files) && CanCreate(FRESH, files)
    ensures AllStageable(files)
  {
    hide CanCreate, IsStageable, ValidRelative, KeysAreNames, PairwiseApart;
    ValidKeysAreNames(files);
    CanStageIff(files);
  }

  lemma OneMoreGrounded(first: set<string>, entries: seq<Entry>, disk: Tree, file: Source)
    requires AreGrounded(first, entries, disk) && IsStageable(file.path)
    ensures var disk' := disk[Key(file.path) := NodeOf(file)];
            KindsKept(disk, disk') ==> AreGrounded(first, entries + [EntryOf(file)], disk')
  {
    hide Key, IsStageable;
    var disk' := disk[Key(file.path) := NodeOf(file)];
    if KindsKept(disk, disk') {
      GroundedStay(first, entries, disk, disk');
      assert IsGrounded(first, EntryOf(file), disk');
    }
  }

  /** A moved file leaves the manifest as it was, or takes its place without reading as one. */
  lemma MoveLists(s: State, pid: Pid)
    requires TreeInv(s) && pid in s.procs && EnabledFor(s, pid, s.procs[pid], Move) && Honest(s.procs[pid].files, s.repoType)
    ensures var t := ApplyFor(s, pid, s.procs[pid], Move);
            Live(t) == Live(s) || Live(t) == []
  {
    hide Key, WellFormed, NoLinks, LockOK, CanRename;
    var file := s.procs[pid].files[0];
    assert !Poses(file, s.repoType);
  }

  lemma OtherListings(s: State, pid: Pid, step: Step)
    requires TreeInv(s) && pid in s.procs && EnabledFor(s, pid, s.procs[pid], step) && !step.Move?
    ensures var t := ApplyFor(s, pid, s.procs[pid], step);
            Live(t) == if step.Swap? then s.procs[pid].entries else Live(s)
  {
    hide Key, WellFormed, NoLinks, LockOK, CanRename, CanCreate;
  }

  lemma MoverStaysTraced(first: set<string>, s: State, pid: Pid)
    requires Traced(first, s) && pid in s.procs && EnabledFor(s, pid, s.procs[pid], Move)
    requires KindsKept(s.disk, ApplyFor(s, pid, s.procs[pid], Move).disk)
    ensures var t := ApplyFor(s, pid, s.procs[pid], Move);
            pid in t.procs && PhaseTraced(first, t, t.procs[pid])
  {
    hide Key, KindsKept, TreeInv, IsStageable, Poses, IsGrounded, Current, CanRename;
    var ph := s.procs[pid];
    assert PhaseTraced(first, s, ph);
    OneMoreGrounded(first, ph.entries, s.disk, ph.files[0]);
  }

  lemma StepperStaysTraced(first: set<string>, s: State, pid: Pid, step: Step)
    requires Traced(first, s) && pid in s.procs && EnabledFor(s, pid, s.procs[pid], step) && !step.Move?
    requires KindsKept(s.disk, ApplyFor(s, pid, s.procs[pid], step).disk)
    ensures var t := ApplyFor(s, pid, s.procs[pid], step);
            pid in t.procs ==> PhaseTraced(first, t, t.procs[pid])
  {
    hide Key, KindsKept, TreeInv, IsStageable, Poses, IsGrounded, CanRename, CanCreate, Honest, AllStageable, Current;
    var ph := s.procs[pid];
    assert PhaseTraced(first, s, ph);
    if step.Stage? {
      FitsNow(s, pid);
      StagedAreStageable(ph.candidates);
    } else if step.MakeDir? {
      GroundedStay(first, ph.entries, s.disk, ApplyFor(s, pid, ph, step).disk);
    }
  }

  lemma FitsNow(s: State, pid: Pid)
    requires TreeInv(s) && pid in s.procs
    ensures PhaseFits(s.procs[pid])
  {
  }

  lemma OthersStayTraced(first: set<string>, s: State, t: State, q: Pid)
    requires Traced(first, s) && q in s.procs && KindsKept(s.disk, t.disk) && t.repoType == s.repoType
    ensures PhaseTraced(first, t, s.procs[q])
  {
    hide Key, KindsKept, TreeInv, IsStageable, Poses, IsGrounded;
    var ph := s.procs[q];
    assert PhaseTraced(first, s, ph);
    if ph.Moving? { GroundedStay(first, ph.entries, s.disk, t.disk); }
  }

  lemma OrdinaryStepStaysTraced(first: set<string>, s: State, pid: Pid, step: Step)
    requires Traced(first, s) && pid in s.procs && EnabledFor(s, pid, s.procs[pid], step)
    ensures Traced(first, ApplyFor(s, pid, s.procs[pid], step))
  {
    hide Key, KindsKept, TreeInv, IsGrounded, Poses, Live, EnabledFor, ApplyFor;
    var ph := s.procs[pid];
    var t := ApplyFor(s, pid, ph, step);
    OrdinaryStepKeepsTree(s, pid, step);
    OthersStandStill(s, pid, step);
    assert PhaseTraced(first, s, ph);
    if step.Move? {
      MovesFile(s, pid);
      MoveLists(s, pid);
      MoverStaysTraced(first, s, pid);
    } else {
      OtherListings(s, pid, step);
      StepperStaysTraced(first, s, pid, step);
      if step.Swap? { MovesFile(s, pid); }
    }
    GroundedStay(first, Live(s), s.disk, t.disk);
    if step.Swap? { GroundedStay(first, ph.entries, s.disk, t.disk); }
    forall q | q in t.procs ensures PhaseTraced(first, t, t.procs[q]) {
      if q != pid { OthersStayTraced(first, s, t, q); }
    }
  }

  lemma OthersStandStill(s: State, pid: Pid, step: Step)
    requires pid in s.procs && EnabledFor(s, pid, s.procs[pid], step)
    ensures var t := ApplyFor(s, pid, s.procs[pid], step);
            t.repoType == s.repoType && forall q :: q in t.procs && q != pid ==> q in s.procs && t.procs[q] == s.procs[q]
  {
    hide Key, CanRename, CanCreate, Current, SortedPaths;
  }

  lemma MovesFile(s: State, pid: Pid)
    requires pid in s.procs
    requires EnabledFor(s, pid, s.procs[pid], Move) || exists text :: EnabledFor(s, pid, s.procs[pid], Swap(text))
    ensures s.procs[pid].Moving?
  {
  }

  lemma StepStaysTraced(first: set<string>, s: State, e: Event)
    requires Traced(first, s) && Enabled(s, e) && (e.step.Plan? ==> Honest(e.step.request, s.repoType))
    ensures Traced(first, Apply(s, e)) && Apply(s, e).repoType == s.repoType
  {
    if e.step.Plan? || e.step.Lookup? {
      StepKeepsTree(s, e);
      hide Key, KindsKept, TreeInv, IsGrounded, Poses, Current, Skipped, Find;
      if e.step.Plan? { CandidatesAreHonest(e.step.request, Listed(Live(s)), s.repoType); }
      forall q | q in s.procs ensures PhaseTraced(first, Apply(s, e), s.procs[q]) {
        assert PhaseTraced(first, s, s.procs[q]);
      }
    } else {
      hide Traced, EnabledFor;
      OrdinaryStepStaysTraced(first, s, e.pid, e.step);
    }
  }

  lemma {:induction false} RunStaysTraced(first: set<string>, s: State, run: seq<Event>)
    requires Traced(first, s) && Valid(s, run) && NobodyPoses(run, s.repoType)
    ensures Traced(first, After(s, run))
    decreases |run|
  {
    hide Traced, Enabled, Apply, Honest;
    if run != [] {
      StepStaysTraced(first, s, run[0]);
      forall i | 0 <= i < |run[1..]| && run[1..][i].step.Plan? ensures Honest(run[1..][i].step.request, s.repoType) {
        assert run[1..][i] == run[i + 1];
      }
      RunStaysTraced(first, Apply(s, run[0]), run[1..]);
    }
  }

  /** Whoever extends the revision, and however, as long as no file is put where the manifest is that
      could be taken for it: a path that is listed at last could have been put where it goes from the
      beginning, and was listed at first or can be staged. */
  lemma ListedWasAccepted(first: set<string>, s: State, run: seq<Event>, path: string)
    requires Traced(first, s) && Valid(s, run) && NobodyPoses(run, s.repoType) && path in Listed(Live(After(s, run)))
    ensures Accepts(s.disk, Key(path)) && (path in first || IsStageable(path))
  {
    hide Key, Enabled, Apply, PhaseFits, IsStageable, NobodyPoses, Live;
    RunStaysTraced(first, s, run);
    RunKeepsTree(s, run);
    var t := After(s, run);
    var i :| 0 <= i < |Live(t)| && Live(t)[i].path == path;
    assert IsGrounded(first, Live(t)[i], t.disk);
    FileWasAccepted(s.disk, t.disk, Key(path));
  }

  lemma FileWasAccepted(t: Tree, t': Tree, key: Place)
    requires WellFormed(t') && KindsKept(t, t') && key in t' && t'[key].File?
    ensures Accepts(t, key)
  {
    forall n | 0 < n < |key| && key[..n] in t ensures t[key[..n]].Directory? {
      Ancestor(t', key, n);
    }
  }

  lemma NeverListed(first: set<string>, s: State, path: string)
    requires Traced(first, s) && (!Accepts(s.disk, Key(path)) || (path !in first && !IsStageable(path)))
    ensures forall run :: Valid(s, run) && NobodyPoses(run, s.repoType) ==> path !in Listed(Live(After(s, run)))
  {
    hide Traced, Accepts, Key, Listed, Valid, After, IsStageable, NobodyPoses;
    forall run | Valid(s, run) && NobodyPoses(run, s.repoType) ensures path !in Listed(Live(After(s, run))) {
      if path in Listed(Live(After(s, run))) { ListedWasAccepted(first, s, run, path); }
    }
  }

  // ---------------------------------------------------------------- a file where a directory is needed

  lemma SimpleSplits()
    ensures Split("a") == ["a"] && Split("x") == ["x"] && Split("a/b") == ["a", "b"] && Split("a//b") == ["a", "", "b"]
  {
    hide SplitOn;
    SplitOfFree('/', "a");
    SplitOfFree('/', "b");
    SplitOfFree('/', "x");
    SplitAtFirst('/', "a", "b");
    SplitAtFirst('/', "", "b");
    SplitAtFirst('/', "a", "/b");
    assert "a" + ['/'] + "b" == "a/b" && "" + ['/'] + "b" == "/b" && "a" + ['/'] + "/b" == "a//b";
  }

  lemma SimpleKeys()
    ensures Key("a") == ["a"] && Key("x") == ["x"] && Key("a/b") == ["a", "b"] && Key("a//b") == ["a", "b"]
  {
    hide Split;
    SimpleSplits();
    assert Spoken(["b"]) == ["b"] && Spoken(["a"]) == ["a"] && Spoken(["x"]) == ["x"];
    assert ["", "b"][1..] == ["b"] && ["a", "b"][1..] == ["b"] && ["a", "", "b"][1..] == ["", "b"];
  }

  lemma SimplePaths()
    ensures Key("a") == ["a"] && Key("x") == ["x"] && Key("a/b") == ["a", "b"] && Key("a//b") == ["a", "b"]
    ensures Clean("a") && Clean("a/b")
    ensures IsStageable("a") && IsStageable("x") && IsStageable("a/b") && IsStageable("a//b")
    ensures ValidRelative("x") && ValidRelative("a//b")
  {
    hide Split, Key;
    SimpleKeys();
    SimpleSplits();
    assert LEASE_NAME != "a" && LEASE_NAME != "x";
  }

  /** Two distinct new files are staged when neither is on the way to the other. */
  lemma TwoApart(f: Source, g: Source)
    requires ValidRelative(f.path) && ValidRelative(g.path) && IsStageable(f.path) && IsStageable(g.path)
    requires FileTree.Apart(Key(f.path), Key(g.path))
    ensures CanCreate(FRESH, [f, g])
  {
    hide Key, ValidRelative, IsStageable, CanCreate, AllNames, FileTree.Apart;
    ValidKeysAreNames([f, g]);
    CanStageIff([f, g]);
  }

  lemma TwoCandidates(f: Source, g: Source, listed: set<string>)
    requires f.path !in listed && g.path !in listed
    ensures Candidates([f, g], listed) == [f, g] && Skipped([f, g], listed) == {}
  {
    assert [f, g][1..] == [g] && [g][1..] == [];
    assert Candidates([g], listed) == [g];
  }

  /** The first `n` names of a place lead to something that is no directory, through directories. */
  predicate BlockedAt(t: Tree, key: Place, n: nat) {
    0 < n < |key| && key[..n] in t && !t[key[..n]].Directory? && IsDir(t, key[..n - 1])
  }

  lemma NothingBelowABlock(t: Tree, key: Place, n: nat, m: nat)
    requires WellFormed(t) && BlockedAt(t, key, n) && m <= |key|
    ensures m >= n ==> !IsDir(t, key[..m])
    ensures 0 < m <= n ==> key[..m] in t
  {
    hide WellFormed;
    if m > n && key[..m] in t {
      assert key[..m][..n] == key[..n];
      Ancestor(t, key[..m], n);
    }
    if 0 < m < n - 1 {
      Ancestor(t, key[..n - 1], m);
      assert key[..n - 1][..m] == key[..m];
    }
  }

  /** Something else than a directory on the way to the next file's place leaves nothing to do but to stop. */
  lemma OnlyStops(s: State, p: Pid, n: nat)
    requires WellFormed(s.disk) && p in s.procs && s.procs[p].Moving? && s.procs[p].files != []
    requires s.procs[p].files[0].path !in s.procs[p].published
    requires BlockedAt(s.disk, Key(s.procs[p].files[0].path), n)
    ensures forall step :: Enabled(s, Event(p, step)) ==> step.Stop? || step.Plan? || step.Lookup?
  {
    hide Key, CanCreate, WellFormed, Current;
    var key := Key(s.procs[p].files[0].path);
    NothingBelowABlock(s.disk, key, n, |key| - 1);
    assert Parent(key) == key[..|key| - 1];
    forall dir | dir != [] && Under(dir, key) ensures dir in s.disk || !IsDir(s.disk, Parent(dir)) {
      assert dir == key[..|dir|] && Parent(dir) == key[..|dir| - 1];
      NothingBelowABlock(s.disk, key, n, |dir|);
      NothingBelowABlock(s.disk, key, n, |dir| - 1);
    }
  }

  lemma StaysBlocked(t: Tree, f: Source, key: Place, n: nat)
    requires WellFormed(t) && Key(f.path) != [] && FileTree.Apart(Key(f.path), key) && BlockedAt(t, key, n)
    ensures BlockedAt(WithFile(t, f), key, n) && Key(f.path) in WithFile(t, f)
  {
    hide WellFormed, Key;
    WithFileIs(t, f, key[..n]);
    WithFileIs(t, f, key[..n - 1]);
    WithFileIs(t, f, Key(f.path));
    assert Within(key[..n], key) && Within(key[..n - 1], key);
  }

  /** Placing a file somewhere else than where the manifest is leaves the listing as it was. */
  lemma ElsewhereListsTheSame(s: State, f: Source)
    requires TreeInv(s) && Key(f.path) != [] && Key(f.path) != [MANIFEST_NAME]
    ensures Current(WithFile(s.disk, f), s.repoType) == Current(s.disk, s.repoType)
  {
    hide Key;
    WithFileIs(s.disk, f, [MANIFEST_NAME]);
    SameManifestFile(s.disk, WithFile(s.disk, f), s.repoType);
  }

  /** From any readable state with the lock free: of two new files the second of which is blocked, the first
      is moved, and then nothing is left to do but to stop, with the first unlisted. */
  lemma BlockedAfterFirst(s: State, p: Pid, f: Source, g: Source, n: nat) returns (run: seq<Event>)
    requires TreeInv(s) && IsReadable(s) && p !in s.procs && s.lock == map[]
    requires ValidRelative(f.path) && ValidRelative(g.path) && IsStageable(f.path) && IsStageable(g.path) && f.path != g.path
    requires f.path !in Listed(Live(s)) && g.path !in Listed(Live(s)) && FileTree.Apart(Key(f.path), Key(g.path))
    requires Accepts(s.disk, Key(f.path)) && Key(f.path) != [MANIFEST_NAME] && BlockedAt(s.disk, Key(g.path), n)
    ensures Alone(run, p, [f, g]) && Valid(s, run)
    ensures var t := After(s, run);
            && Key(f.path) in t.disk && f.path !in Listed(Live(t)) && Live(t) == Live(s)
            && p in t.procs && forall step :: Enabled(t, Event(p, step)) ==> step.Stop? || step.Plan? || step.Lookup?
  {
    TwoCandidates(f, g, Listed(Live(s)));
    TwoApart(f, g);
    TreeIsWellFormed(s);
    NonemptyKey(s.disk, Key(f.path));
    StaysBlocked(s.disk, f, Key(g.path), n);
    ElsewhereListsTheSame(s, f);
    hide Key, ValidRelative, IsStageable, CanCreate, Valid, After, TreeInv, Candidates, Skipped, Listed, Accepts, FileTree.Apart,
         WithDirs, BlockedAt, WithFile, Current;
    run := ReachesTheLock(s, p, [f, g]);
    RunKeepsTree(s, run);
    var rest := PlacesFile(After(s, run), p);
    RunsCompose(s, run, rest);
    AloneGoesOn(run, rest, p, [f, g]);
    run := run + rest;
    RunKeepsTree(s, run);
    TreeIsWellFormed(After(s, run));
    OnlyStops(After(s, run), p, n);
  }

  /** A published model revision with one file `a`. */
  function OneFile(): State {
    var manifest := ManifestFile([], Model, [Entry("a", 0, Sha256([]))]);
    State(Model, map[["a"] := Plain([]), [MANIFEST_NAME] := manifest], map[], map[], [], [])
  }

  lemma OneFileStarts()
    ensures Start(OneFile()) && TreeInv(OneFile()) && Live(OneFile()) == [Entry("a", 0, Sha256([]))]
    ensures IsReadable(OneFile()) && Listed(Live(OneFile())) == {"a"}
  {
    SimplePaths();
    hide Key, ValidRelative, Normal, IsStageable;
    assert Live(OneFile())[0].path == "a";
    assert Parent(["a"]) == [] && Parent([MANIFEST_NAME]) == [];
  }

  /** The manifest lists `a`. A request for `x` and `a/b` moves `x` and can then only stop, so `x` is
      left unlisted; and whoever tries again, `a/b` is never listed. */
  lemma FileWhereDirectoryIsNeeded(request: seq<Source>) returns (run: seq<Event>)
    requires request == [Source("x", [1], None), Source("a/b", [2], None)]
    ensures Start(OneFile()) && ValidFiles(request) && DistinctSources(request)
    ensures Alone(run, 0, request) && Valid(OneFile(), run)
    ensures var t := After(OneFile(), run);
            && ["x"] in t.disk && "x" !in Listed(Live(t))
            && 0 in t.procs && forall step :: Enabled(t, Event(0, step)) ==> step.Stop? || step.Plan? || step.Lookup?
    ensures forall more :: Valid(OneFile(), more) && NobodyPoses(more, Model) ==> "a/b" !in Listed(Live(After(OneFile(), more)))
  {
    hide Key, ValidRelative, IsStageable, Valid, After, TreeInv, Start, OneFile, BlockedAt, Accepts, Traced, Current, NobodyPoses,
         Enabled, Apply, Alone, FileTree.Apart, Live;
    SimplePaths();
    OneFileStarts();
    OneFileBlocks();
    StartIsTraced(OneFile());
    run := BlockedAfterFirst(OneFile(), 0, Source("x", [1], None), Source("a/b", [2], None), 1);
    NeverListed({"a"}, OneFile(), "a/b");
  }

  lemma OneFileBlocks()
    ensures var t := OneFile().disk;
            && Accepts(t, ["x"]) && BlockedAt(t, ["a", "b"], 1) && !Accepts(t, ["a", "b"]) && FileTree.Apart(["x"], ["a", "b"])
    ensures OneFile().procs == map[] && OneFile().lock == map[] && OneFile().repoType == Model && ["x"] != [MANIFEST_NAME]
  {
    assert ["a", "b"][..1] == ["a"] && ["a", "b"][..0] == [];
    ManifestIsNot("x");
  }

  lemma ManifestIsNot(name: string)
    requires |name| < 2
    ensures [name] != [MANIFEST_NAME]
  {
    assert [name][0] == name;
  }

  // ---------------------------------------------------------------- a directory where a file goes

  /** A published model revision without files. */
  function NoFiles(): State {
    State(Model, map[[MANIFEST_NAME] := ManifestFile([], Model, [])], map[], map[], [], [])
  }

  lemma NoFilesStart()
    ensures var s := NoFiles();
            && Start(s) && TreeInv(s) && IsReadable(s) && Live(s) == [] && Listed([]) == {}
            && ["a"] !in s.disk && [MANIFEST_NAME] in s.disk && s.procs == map[] && s.lock == map[] && s.repoType == Model
  {
    assert "a" != MANIFEST_NAME;
    hide Key, ValidRelative, Normal, IsStageable;
    assert Parent([MANIFEST_NAME]) == [];
  }

  lemma OneCandidate(file: Source, listed: set<string>)
    requires file.path !in listed && IsStageable(file.path) && ValidRelative(file.path)
    ensures Candidates([file], listed) == [file] && Skipped([file], listed) == {} && CanCreate(FRESH, [file])
  {
    hide Key, ValidRelative, IsStageable, CanCreate, AllNames;
    assert [file][1..] == [];
    ValidKeysAreNames([file]);
    CanStageIff([file]);
  }

  lemma NotTheManifest(f: Source, key: Place)
    requires Key(f.path) == key && key != [MANIFEST_NAME]
    ensures Honest([f], Model)
  {
  }

  lemma AloneIsHonest(run: seq<Event>, p: Pid, request: seq<Source>, repoType: RepositoryType)
    requires Alone(run, p, request) && Honest(request, repoType)
    ensures NobodyPoses(run, repoType)
  {
    assert forall i :: 0 < i < |run| ==> run[i] == run[1..][i - 1];
  }

  /** An extension for `a/b` that stops after creating the directory `a` leaves a revision in which,
      whoever tries, the file `a` is never listed. */
  lemma DirectoryWhereFileGoes() returns (run: seq<Event>)
    ensures Start(NoFiles()) && Valid(NoFiles(), run)
    ensures var t := After(NoFiles(), run);
            && IsReadable(t) && Live(t) == [] && t.procs == map[] && t.lock == map[]
            && forall more :: Valid(t, more) && NobodyPoses(more, Model) ==> "a" !in Listed(Live(After(t, more)))
  {
    hide Key, ValidRelative, CanCreate, Normal, Valid, After, Candidates, Skipped, Start, TreeInv, Listed, Traced, NobodyPoses,
         IsStageable, NoFiles, Honest, Current, Enabled, Apply, Alone;
    SimplePaths();
    var s, f := NoFiles(), Source("a/b", [2], None);
    NoFilesStart();
    OneCandidate(f, {});
    StartIsTraced(s);
    ManifestIsNot("a");
    run := ReachesTheLock(s, 0, [f]);
    assert ["a", "b"][..1] == ["a"];
    var rest := StopsAfterDir(After(s, run), 0, ["a"]);
    RunsCompose(s, run, rest);
    AloneGoesOn(run, rest, 0, [f]);
    run := run + rest;
    NotTheManifest(f, ["a", "b"]);
    AloneIsHonest(run, 0, [f], Model);
    RunStaysTraced({}, s, run);
    SameManifestFile(s.disk, After(s, run).disk, Model);
    NeverListed({}, After(s, run), "a");
  }

  lemma StopsAfterDir(s: State, p: Pid, dir: Place) returns (run: seq<Event>)
    requires p in s.procs && HoldsLock(s, p) && EnabledFor(s, p, s.procs[p], MakeDir(dir))
    ensures Valid(s, run) && By(run, p)
    ensures After(s, run) == s.(disk := s.disk[dir := Directory], procs := s.procs - {p}, lock := map[])
  {
    hide Key, CanCreate, Valid, After, Under, IsDir;
    NothingHappens(s);
    Append(s, [], Event(p, MakeDir(dir)));
    run := [] + [Event(p, MakeDir(dir))];
    Append(s, run, Event(p, Stop));
    run := run + [Event(p, Stop)];
  }
}
