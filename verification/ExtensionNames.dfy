/** Spellings validation accepts that lead to ModelKeep's own files or to a listed file, what an
    extension does with them, and exactly when one new path damages the revision. */
module ExtensionNames {
  import opened Common
  import opened Manifests
  import opened Paths
  import opened FileTree
  import opened Placing
  import opened Extension
  import opened ExtensionRerun
  import opened ExtensionBlocks
  import opened Text
  import Readers

  /** An extension reads the manifest as every reader does, and goes on only if it is complete. */
  lemma CurrentIsRead(s: State)
    requires TreeInv(s)
    ensures var read := Readers.ReadManifest(s.disk, [], s.repoType);
            Current(s.disk, s.repoType) == if read.Ok? && read.value.complete then Some(read.value.entries) else None
  {
    hide NoLinks, LockOK, PhaseFits;
    assert [] + [MANIFEST_NAME] == [MANIFEST_NAME];
    DirectIsCanonical(s.disk, [MANIFEST_NAME]);
  }

  // ---------------------------------------------------------------- the lease's name

  lemma DottedName(name: string)
    requires name != "" && name != "." && name != ".." && name != ".cache" && '/' !in name
    ensures Split("./" + name) == [".", name] && Key("./" + name) == [name] && EndsInName("./" + name)
    ensures (forall c :: c in name ==> !IsControl(c)) ==> ValidRelative("./" + name)
  {
    SplitOfFree('/', name);
    SplitAtFirst('/', ".", name);
    assert "." + ['/'] + name == "./" + name;
    assert [".", name][1..] == [name];
    assert Spoken([name]) == [name];
    forall c | c in "./" + name && c !in name ensures !IsControl(c) {}
  }

  /** Validation accepts `./.modelkeep-staging-lease`, but it is never listed, whoever extends. */
  lemma LeaseNameIsNeverListed(s: State)
    requires Start(s) && "./" + LEASE_NAME !in Listed(Live(s))
    ensures ValidRelative("./" + LEASE_NAME)
    ensures forall run :: Valid(s, run) && NobodyPoses(run, s.repoType) ==> "./" + LEASE_NAME !in Listed(Live(After(s, run)))
  {
    DottedName(LEASE_NAME);
    StartIsTraced(s);
    hide Key, ValidRelative, Start, Traced, Listed, EndsInName, NobodyPoses;
    NeverListed(Listed(Live(s)), s, "./" + LEASE_NAME);
  }

  // ---------------------------------------------------------------- the manifest's name

  lemma ManifestIsAccepted(s: State, file: Source)
    requires TreeInv(s) && Key(file.path) == [MANIFEST_NAME] && ValidRelative(file.path)
    ensures Accepts(s.disk, Key(file.path)) && WithFile(s.disk, file) == s.disk[[MANIFEST_NAME] := NodeOf(file)]
    ensures WithFiles(s.disk, [file]) == s.disk[[MANIFEST_NAME] := NodeOf(file)]
  {
    hide Key, WellFormed, LockOK;
    assert [file][1..] == [];
    assert Parent([MANIFEST_NAME]) == [];
  }

  /** From any readable state with the lock free: a new file whose path is another spelling of the
      manifest's name replaces the manifest; if the extension stops there, the revision lists what that
      file reads as, or nothing. */
  lemma ManifestNameReplacesManifest(s: State, p: Pid, file: Source) returns (run: seq<Event>)
    requires TreeInv(s) && IsReadable(s) && p !in s.procs && s.lock == map[] && ValidRelative(file.path)
    requires IsStageable(file.path) && Key(file.path) == [MANIFEST_NAME] && file.path !in Listed(Live(s))
    ensures Valid(s, run) && Alone(run, p, [file])
    ensures var t := After(s, run);
            && TreeInv(t) && t.lock == map[] && p !in t.procs && t.repoType == s.repoType
            && t.disk == s.disk[[MANIFEST_NAME] := NodeOf(file)] && Current(t.disk, t.repoType) == ReadsAs(file, s.repoType)
  {
    hide Key, ValidRelative, IsStageable, Valid, After, TreeInv, Candidates, Skipped, Listed, Accepts, WithFile, WithDirs, WithFiles,
         CanCreate;
    OneCandidate(file, Listed(Live(s)));
    ManifestIsAccepted(s, file);
    run := ReachesTheLock(s, p, [file]);
    RunKeepsTree(s, run);
    var rest := PlacesFile(After(s, run), p);
    RunsCompose(s, run, rest);
    AloneGoesOn(run, rest, p, [file]);
    run := run + rest;
    Append(s, run, Event(p, Stop));
    AloneGoesOn(run, [Event(p, Stop)], p, [file]);
    run := run + [Event(p, Stop)];
    RunKeepsTree(s, run);
  }

  /** Nobody plans, moves or reads in a revision whose manifest cannot be read. */
  predicate Standstill(s: State) {
    LockOK(s) && !IsReadable(s) && forall p :: p in s.procs ==> !s.procs[p].Moving?
  }

  lemma StandstillStays(s: State, e: Event)
    requires Standstill(s) && Enabled(s, e)
    ensures Standstill(Apply(s, e)) && Apply(s, e).disk == s.disk && !e.step.Plan? && !e.step.Lookup?
  {
    hide Key, CanCreate, CanRename, LockOK, Current;
    LockStep(s, e.pid, e.step);
  }

  /** Once the lock is free and the manifest cannot be read, that never changes: in every run the
      revision stays as it is, and no extension and no reader begins. */
  lemma {:induction false} UnreadableStays(s: State, run: seq<Event>)
    requires Standstill(s) && Valid(s, run)
    ensures After(s, run).disk == s.disk && !IsReadable(After(s, run))
    ensures forall i :: 0 <= i < |run| ==> !run[i].step.Plan? && !run[i].step.Lookup?
    decreases |run|
  {
    hide Enabled, Apply, LockOK, Current;
    if run != [] {
      StandstillStays(s, run[0]);
      UnreadableStays(Apply(s, run[0]), run[1..]);
      assert forall i :: 1 <= i < |run| ==> run[i] == run[1..][i - 1];
    }
  }

  lemma FreeStandsStill(s: State)
    requires TreeInv(s) && s.lock == map[] && !IsReadable(s)
    ensures Standstill(s)
  {
  }

  /** Validation accepts `./.modelkeep-manifest.json`. If an extension for it stops after its rename, with
      bytes that do not read as a complete manifest, no later extension or reader gets anywhere. */
  lemma ManifestNameEndsRevision(s: State, p: Pid, file: Source) returns (run: seq<Event>)
    requires TreeInv(s) && IsReadable(s) && p !in s.procs && s.lock == map[] && file.path == "./" + MANIFEST_NAME
    requires file.path !in Listed(Live(s)) && ReadsAs(file, s.repoType).None?
    ensures ValidRelative(file.path) && Valid(s, run) && Alone(run, p, [file])
    ensures var t := After(s, run);
            t.lock == map[] && forall more: seq<Event> :: Valid(t, more) ==>
              && After(t, more).disk == t.disk && !IsReadable(After(t, more))
              && forall i :: 0 <= i < |more| ==> !more[i].step.Plan? && !more[i].step.Lookup?
  {
    hide Valid, After, TreeInv, Key, ValidRelative, EndsInName, Listed, Current, LockOK, Split;
    ManifestSpelling();
    run := ManifestNameReplacesManifest(s, p, file);
    var t := After(s, run);
    FreeStandsStill(t);
    forall more: seq<Event> | Valid(t, more)
      ensures After(t, more).disk == t.disk && !IsReadable(After(t, more))
      ensures forall i :: 0 <= i < |more| ==> !more[i].step.Plan? && !more[i].step.Lookup?
    {
      UnreadableStays(t, more);
    }
  }

  lemma ManifestSpelling()
    ensures var path := "./" + MANIFEST_NAME; ValidRelative(path) && IsStageable(path) && Key(path) == [MANIFEST_NAME]
  {
    DottedName(MANIFEST_NAME);
    hide Key, ValidRelative, EndsInName;
    assert LEASE_NAME[11] != MANIFEST_NAME[11];
    assert [MANIFEST_NAME][0] != [LEASE_NAME][0];
  }

  /** Run to its end, the same extension lists the path with the bytes requested, while the file it
      leads to is the new manifest. */
  lemma ManifestNameIsNotAsListed(s: State, p: Pid, file: Source, text: Bytes) returns (run: seq<Event>)
    requires TreeInv(s) && IsReadable(s) && p !in s.procs && s.lock == map[] && ValidRelative(file.path)
    requires IsStageable(file.path) && Key(file.path) == [MANIFEST_NAME] && file.path !in Listed(Live(s)) && text != file.content
    ensures Valid(s, run) && Alone(run, p, [file]) && ToItsEnd(run)
    ensures var t := After(s, run);
            && IsReadable(t) && Live(t) == Live(s) + [EntryOf(file)] && !Intact(Live(t), t.disk)
            && t.disk[[MANIFEST_NAME]] == ManifestFile(text, s.repoType, Live(t))
  {
    hide Key, ValidRelative, IsStageable, Valid, After, TreeInv, Candidates, Skipped, Listed, Accepts, WithFile, WithFiles, CanCreate,
         Current, CanMove;
    OneCandidate(file, Listed(Live(s)));
    ManifestIsAccepted(s, file);
    run := ReachesTheSwap(s, p, [file]);
    RunKeepsTree(s, run);
    OneMoved(file, Listed(Live(s)), Live(s));
    var rest := SwapsAndReports(After(s, run), p, text);
    RunsCompose(s, run, rest);
    AloneGoesOn(run, rest, p, [file]);
    run := run + rest;
    assert !Holds(After(s, run).disk, EntryOf(file));
    assert Live(After(s, run))[|Live(s)|] == EntryOf(file);
  }

  lemma OneMoved(file: Source, listed: set<string>, entries: seq<Entry>)
    requires file.path !in listed
    ensures var ph := AllMoved(Moving([file], {}, listed, entries, []));
            ph.Moving? && ph.files == [] && ph.entries == entries + [EntryOf(file)] && ph.added == [file.path]
  {
    assert [file][1..] == [];
    assert Candidates([file], listed) == [file];
    assert Entries([file]) == [EntryOf(file)] && PathsOf([file]) == [file.path];
  }

  // ---------------------------------------------------------------- spellings of a listed file

  /** The manifest can be read, and every listed file is as recorded. */
  predicate IsWhole(s: State) {
    IsReadable(s) && Intact(Live(s), s.disk)
  }

  lemma ListedIsAccepted(s: State, i: nat)
    requires TreeInv(s) && IsWhole(s) && i < |Live(s)|
    ensures Accepts(s.disk, Key(Live(s)[i].path))
  {
    hide Key, PhaseFits, LockOK;
    assert Holds(s.disk, Live(s)[i]);
    NothingLost(s.disk);
    FileWasAccepted(s.disk, s.disk, Key(Live(s)[i].path));
  }

  /** From any whole revision with the lock free: a new path that is another spelling of a listed
      file, with other bytes, is accepted and overwrites it. */
  lemma AliasOverwritesListed(s: State, p: Pid, file: Source, i: nat) returns (run: seq<Event>)
    requires TreeInv(s) && IsWhole(s) && p !in s.procs && s.lock == map[] && ValidRelative(file.path) && IsStageable(file.path)
    requires i < |Live(s)| && Key(Live(s)[i].path) == Key(file.path) && Live(s)[i].digest != Sha256(file.content)
    requires file.path !in Listed(Live(s)) && Key(file.path) != [MANIFEST_NAME]
    ensures Valid(s, run) && Alone(run, p, [file])
    ensures Live(After(s, run)) == Live(s) && !Intact(Live(s), After(s, run).disk)
  {
    hide Key, ValidRelative, IsStageable, Valid, After, Candidates, Skipped, TreeInv, Accepts, Listed, WithFile, CanCreate, Current;
    OneCandidate(file, Listed(Live(s)));
    ListedIsAccepted(s, i);
    NonemptyKey(s.disk, Key(file.path));
    ElsewhereListsTheSame(s, file);
    run := ReachesTheLock(s, p, [file]);
    RunKeepsTree(s, run);
    var rest := PlacesFile(After(s, run), p);
    RunsCompose(s, run, rest);
    AloneGoesOn(run, rest, p, [file]);
    run := run + rest;
    TreeIsWellFormed(s);
    WithFileIs(s.disk, file, Key(file.path));
    assert !Holds(After(s, run).disk, Live(s)[i]);
  }

  /** The new file goes where the manifest is, or where a listed file of other bytes is. */
  predicate Collides(s: State, file: Source) {
    || Key(file.path) == [MANIFEST_NAME]
    || exists i :: 0 <= i < |Live(s)| && Key(Live(s)[i].path) == Key(file.path) && Live(s)[i].digest != Sha256(file.content)
  }

  predicate NoneIsManifest(entries: seq<Entry>) {
    forall i :: 0 <= i < |entries| ==> Key(entries[i].path) != [MANIFEST_NAME]
  }

  /** One attempt for one new file under way in a whole revision. */
  predicate Harmless(s: State, t: State, p: Pid, file: Source) {
    var grown := Live(s) + [EntryOf(file)];
    && TreeInv(t) && t.repoType == s.repoType && KindsKept(s.disk, t.disk)
    && IsWhole(t)
    && (p in t.procs ==>
          match t.procs[p]
          case Planned(files, _) => files == [file] && Live(t) == Live(s)
          case Staged(files, _) => files == [file] && Live(t) == Live(s) && IsStageable(file.path)
          case Locked(files, _) => files == [file] && Live(t) == Live(s) && IsStageable(file.path)
          case Moving(files, _, published, entries, added) =>
            && IsStageable(file.path) && published == Listed(Live(s)) && Live(t) == Live(s)
            && ((files == [file] && entries == Live(s) && added == [])
                || (files == [] && entries == grown && Intact(grown, t.disk) && NoneIsManifest(grown)))
          case Swapped(_) => true
          case Found(_) => true)
  }

  lemma StagedIsStageable(file: Source)
    requires CanCreate(FRESH, [file])
    ensures IsStageable(file.path)
  {
    hide Accepts, Key;
    StageableIsCreated(file.path);
  }

  lemma MoveIsHarmless(s: State, t: State, p: Pid, file: Source)
    requires Harmless(s, t, p, file) && IsWhole(s) && NoneIsManifest(Live(s)) && file.path !in Listed(Live(s))
    requires !(IsStageable(file.path) && Accepts(s.disk, Key(file.path)) && Collides(s, file))
    requires p in t.procs && EnabledFor(t, p, t.procs[p], Move) && TreeInv(ApplyFor(t, p, t.procs[p], Move))
    requires KindsKept(s.disk, ApplyFor(t, p, t.procs[p], Move).disk)
    ensures Harmless(s, ApplyFor(t, p, t.procs[p], Move), p, file)
  {
    hide Key, IsStageable, Listed, Current, KindsKept, TreeInv, CanRename, Accepts, NoneIsManifest;
    var t' := ApplyFor(t, p, t.procs[p], Move);
    TreeIsWellFormed(t);
    assert t.procs[p].files == [file] && [file][1..] == [];
    RenamedWasAccepted(s.disk, t.disk, Key(file.path));
    RenameKeepsListedIff(Live(s), t.disk, file);
    PlacedElsewhere(t.disk, file, t.repoType);
    SameDigestSameSize(s, t, file);
    GrowsIntact(Live(s), t'.disk, file);
  }

  lemma SameDigestSameSize(s: State, t: State, file: Source)
    requires Intact(Live(s), t.disk) && !Collides(s, file)
    ensures forall i :: 0 <= i < |Live(s)| && Key(Live(s)[i].path) == Key(file.path) ==>
              Live(s)[i].size == |file.content| && Live(s)[i].digest == Sha256(file.content)
  {
    hide Key;
    forall i | 0 <= i < |Live(s)| && Key(Live(s)[i].path) == Key(file.path) ensures Live(s)[i].size == |file.content| {
      assert Holds(t.disk, Live(s)[i]);
    }
  }

  lemma GrowsIntact(entries: seq<Entry>, disk: Tree, file: Source)
    requires Intact(entries, disk) && NoneIsManifest(entries) && Key(file.path) != [MANIFEST_NAME]
    requires Key(file.path) in disk && disk[Key(file.path)] == NodeOf(file)
    ensures Intact(entries + [EntryOf(file)], disk) && NoneIsManifest(entries + [EntryOf(file)])
  {
    hide Key;
    assert Holds(disk, EntryOf(file));
  }

  lemma SwapIsHarmless(s: State, t: State, p: Pid, file: Source, text: Bytes)
    requires Harmless(s, t, p, file) && p in t.procs && EnabledFor(t, p, t.procs[p], Swap(text))
    requires TreeInv(ApplyFor(t, p, t.procs[p], Swap(text))) && KindsKept(s.disk, ApplyFor(t, p, t.procs[p], Swap(text)).disk)
    ensures Harmless(s, ApplyFor(t, p, t.procs[p], Swap(text)), p, file)
  {
    hide Key, IsStageable, Listed, KindsKept, TreeInv, CanRename, SortedPaths;
    var t' := ApplyFor(t, p, t.procs[p], Swap(text));
    var grown := t.procs[p].entries;
    SameFilesStayIntact(grown, t.disk, t'.disk);
    assert Live(t') == grown;
  }

  lemma QuietIsHarmless(s: State, t: State, p: Pid, file: Source, step: Step)
    requires Harmless(s, t, p, file) && p in t.procs && EnabledFor(t, p, t.procs[p], step)
    requires !step.Move? && !step.Swap? && (step.MakeDir? ==> t.procs[p].Moving?)
    requires TreeInv(ApplyFor(t, p, t.procs[p], step)) && KindsKept(s.disk, ApplyFor(t, p, t.procs[p], step).disk)
    ensures Harmless(s, ApplyFor(t, p, t.procs[p], step), p, file)
  {
    var t' := ApplyFor(t, p, t.procs[p], step);
    OtherListings(t, p, step);
    if step.Stage? && t.procs[p].Planned? { StagedIsStageable(file); }
    hide Key, IsStageable, Listed, KindsKept, TreeInv, CanCreate, SortedPaths, Current, Holds;
    if step.MakeDir? {
      MakeDirIsQuiet(t, p, step.dir);
      SameFilesStayIntact(Live(t), t.disk, t'.disk);
    }
    assert IsReadable(t') == IsReadable(t) by { KeepsReadable(t, p, step); }
  }

  lemma MakeDirIsQuiet(t: State, p: Pid, dir: Place)
    requires p in t.procs && EnabledFor(t, p, t.procs[p], MakeDir(dir))
    ensures dir !in t.disk && ApplyFor(t, p, t.procs[p], MakeDir(dir)).disk == t.disk[dir := Directory] && t.procs[p].files != []
  {
  }

  lemma KeepsReadable(t: State, p: Pid, step: Step)
    requires TreeInv(t) && p in t.procs && EnabledFor(t, p, t.procs[p], step) && !step.Move? && !step.Swap?
    ensures IsReadable(ApplyFor(t, p, t.procs[p], step)) == IsReadable(t)
  {
    hide Key, CanCreate, WellFormed, LockOK, NoLinks;
  }

  lemma StepIsHarmless(s: State, t: State, p: Pid, file: Source, e: Event)
    requires Harmless(s, t, p, file) && IsWhole(s) && NoneIsManifest(Live(s)) && file.path !in Listed(Live(s))
    requires !(IsStageable(file.path) && Accepts(s.disk, Key(file.path)) && Collides(s, file))
    requires e.pid == p && !e.step.Plan? && Enabled(t, e)
    ensures Harmless(s, Apply(t, e), p, file)
  {
    StepKeepsTree(t, e);
    KindsKeptOn(s.disk, t.disk, Apply(t, e).disk);
    hide Key, Listed, Current, IsStageable, Accepts, Collides, Intact, KindsKept, TreeInv, ApplyFor, EnabledFor, NoneIsManifest, Find;
    if e.step.Lookup? {
      assert Live(Apply(t, e)) == Live(t);
    } else if e.step.Move? {
      MoveIsHarmless(s, t, p, file);
    } else if e.step.Swap? {
      SwapIsHarmless(s, t, p, file, e.step.text);
    } else {
      QuietIsHarmless(s, t, p, file, e.step);
    }
  }

  lemma {:induction false} RunIsHarmless(s: State, t: State, run: seq<Event>, p: Pid, file: Source)
    requires Harmless(s, t, p, file) && IsWhole(s) && NoneIsManifest(Live(s)) && file.path !in Listed(Live(s))
    requires !(IsStageable(file.path) && Accepts(s.disk, Key(file.path)) && Collides(s, file))
    requires Valid(t, run) && By(run, p)
    ensures IsWhole(After(t, run))
    decreases |run|
  {
    hide Key, Listed, IsStageable, Accepts, Collides, NoneIsManifest, Apply, Enabled, IsReadable, Intact, Live, KindsKept, TreeInv;
    if run != [] {
      StepIsHarmless(s, t, p, file, run[0]);
      RunIsHarmless(s, Apply(t, run[0]), run[1..], p, file);
    }
  }

  lemma AloneIsHarmless(s: State, run: seq<Event>, p: Pid, file: Source)
    requires TreeInv(s) && IsWhole(s) && NoneIsManifest(Live(s)) && p !in s.procs && file.path !in Listed(Live(s))
    requires !(IsStageable(file.path) && Accepts(s.disk, Key(file.path)) && Collides(s, file))
    requires Alone(run, p, [file]) && Valid(s, run)
    ensures IsWhole(After(s, run))
  {
    hide Key, Listed, IsStageable, Accepts, Collides, NoneIsManifest, Intact, KindsKept, TreeInv, Current, ValidRelative, Skipped;
    StepKeepsTree(s, run[0]);
    assert [file][1..] == [];
    assert Candidates([file], Listed(Live(s))) == [file];
    assert Live(Apply(s, run[0])) == Live(s);
    RunIsHarmless(s, Apply(s, run[0]), run[1..], p, file);
  }

  /** In a whole revision with the lock free whose listed paths lead elsewhere than to the manifest: some
      extension by one new path damages the revision exactly when the path can be staged and put where it
      goes, and leads to the manifest or to a listed file of other bytes. */
  lemma NewPathBreaksIff(s: State, p: Pid, file: Source)
    requires TreeInv(s) && IsWhole(s) && NoneIsManifest(Live(s)) && p !in s.procs && s.lock == map[]
    requires ValidRelative(file.path) && file.path !in Listed(Live(s))
    ensures (exists run :: Alone(run, p, [file]) && Valid(s, run) && !IsWhole(After(s, run))) <==>
            IsStageable(file.path) && Accepts(s.disk, Key(file.path)) && Collides(s, file)
  {
    hide Key, Listed, IsStageable, Accepts, NoneIsManifest, Intact, TreeInv, Current, ValidRelative, Alone, Valid, After;
    if IsStageable(file.path) && Accepts(s.disk, Key(file.path)) && Collides(s, file) {
      if Key(file.path) == [MANIFEST_NAME] {
        var run := ManifestNameIsNotAsListed(s, p, file, file.content + [0]);
        assert !IsWhole(After(s, run));
      } else {
        var i :| 0 <= i < |Live(s)| && Key(Live(s)[i].path) == Key(file.path) && Live(s)[i].digest != Sha256(file.content);
        var run := AliasOverwritesListed(s, p, file, i);
        assert !IsWhole(After(s, run));
      }
    } else {
      forall run | Alone(run, p, [file]) && Valid(s, run) ensures IsWhole(After(s, run)) {
        AloneIsHarmless(s, run, p, file);
      }
    }
  }

  /** Paths in normal form never collide in a revision of such paths. */
  lemma CleanNeverCollides(s: State, file: Source)
    requires Clean(file.path) && CleanEntries(Live(s)) && file.path !in Listed(Live(s))
    ensures IsStageable(file.path) && !Collides(s, file)
  {
    hide Key, ValidRelative, Normal;
    CleanIsNotOwn(file.path);
    forall i | 0 <= i < |Live(s)| ensures Key(Live(s)[i].path) != Key(file.path) {
      assert Live(s)[i].path in Listed(Live(s));
      if Key(Live(s)[i].path) == Key(file.path) { NormalIsUnambiguous(Live(s)[i].path, file.path); }
    }
  }

  /** A published model revision with one file `a/b`. */
  function Nested(): State {
    var manifest := ManifestFile([], Model, [Entry("a/b", 1, Sha256([1]))]);
    State(Model, map[["a"] := Directory, ["a", "b"] := Plain([1]), [MANIFEST_NAME] := manifest], map[], map[], [], [])
  }

  lemma NestedStarts()
    ensures Start(Nested()) && TreeInv(Nested()) && IsWhole(Nested()) && Live(Nested()) == [Entry("a/b", 1, Sha256([1]))]
    ensures Listed(Live(Nested())) == {"a/b"} && Nested().procs == map[] && Nested().lock == map[]
  {
    SimplePaths();
    hide Key, ValidRelative, Normal, IsStageable;
    assert Live(Nested())[0].path == "a/b";
    assert Parent(["a"]) == [] && Parent(["a", "b"]) == ["a"] && Parent([MANIFEST_NAME]) == [];
  }

  /** Without normal form the property fails: a request for `a//b`, which validation accepts,
      overwrites the listed file `a/b`. */
  lemma DoubleSlashOverwritesListed() returns (run: seq<Event>)
    ensures Start(Nested()) && ValidRelative("a//b")
    ensures Valid(Nested(), run) && !Intact(Live(After(Nested(), run)), After(Nested(), run).disk)
  {
    hide Key, ValidRelative, IsStageable, Valid, After, TreeInv, Start, Intact, IsWhole, Nested, Current, Live;
    NestedStarts();
    SimplePaths();
    run := AliasOverwritesListed(Nested(), 0, Source("a//b", [2], None), 0);
  }
}
