/** Monotonic extension of one published revision: any number of extensions and readers
    interleave, and each may stop for good between any two steps.

    An extension stages its sources outside the lock, takes the lock, reads the manifest again,
    creates the directories for each new file and renames it into the revision, one by one, and then
    renames a new manifest over the old one. The manifest is a file of the revision like any other, and
    the lease one of the staging directory: an accepted path may lead to either. Stopping in between
    stands for a crash and for an error return alike: both release the lock and leave whatever was
    created. An extension that finds a file where it needs a directory, or a directory where its file
    goes, can only stop. */
module Extension {
  import opened Common
  import opened FileTree
  import opened Manifests
  import opened Paths
  import opened Placing
  import opened Selection
  import Text

  type Pid = nat

  datatype Report = Report(added: seq<string>, skipped: set<string>)

  datatype Phase =
    | Planned(candidates: seq<Source>, skipped: set<string>)         // first manifest read done
    | Staged(files: seq<Source>, skipped: set<string>)               // sources copied and hashed
    | Locked(files: seq<Source>, skipped: set<string>)
    | Moving(files: seq<Source>, skipped: set<string>, published: set<string>,
             entries: seq<Entry>, added: seq<string>)                 // `files` still to move
    | Swapped(report: Report)                                         // new manifest in place
    | Found(entry: Entry)                                             // a reader found its entry

  datatype Served = Served(path: string, size: nat, digest: Digest, content: Bytes)

  datatype State = State(
    repoType: RepositoryType,
    disk: Tree,                         // what the revision's directory holds, the manifest included
    lock: map<(), Pid>,                 // holder of the extension lock, if any
    procs: map<Pid, Phase>,
    reports: seq<Report>,               // history: reports of finished extensions
    served: seq<Served>)                // history: what readers were given

  datatype Step =
    | Plan(request: seq<Source>)
    | Stage
    | Lock
    | Reread
    | MakeDir(dir: Place)
    | Move
    | Swap(text: Bytes)
    | Finish
    | Stop
    | Lookup(path: string)
    | Open

  datatype Event = Event(pid: Pid, step: Step)

  // ---------------------------------------------------------------- helpers

  /** The entries of the manifest file, which must read as a complete manifest of this type. */
  function Current(t: Tree, repoType: RepositoryType): Option<seq<Entry>> {
    if [MANIFEST_NAME] !in t then None
    else
      match t[[MANIFEST_NAME]]
      case File(_, Some(m), _) => if m.repoType == repoType && m.complete then Some(m.entries) else None
      case _ => None
  }

  predicate IsReadable(s: State) {
    Current(s.disk, s.repoType).Some?
  }

  /** What the revision lists. */
  function Live(s: State): seq<Entry> {
    if IsReadable(s) then Current(s.disk, s.repoType).value else []
  }

  function ManifestFile(text: Bytes, repoType: RepositoryType, entries: seq<Entry>): Node {
    File(text, Some(Manifest(true, repoType, entries)), None)
  }

  /** The sources whose path the manifest does not list yet, in request order. */
  function Candidates(request: seq<Source>, listed: set<string>): (r: seq<Source>)
    ensures forall f :: f in r <==> f in request && f.path !in listed
  {
    if request == [] then []
    else if request[0].path in listed then Candidates(request[1..], listed)
    else [request[0]] + Candidates(request[1..], listed)
  }

  /** The paths once each, ascending. */
  function SortedPaths(paths: seq<string>): (r: seq<string>)
    ensures Text.Ascending(r) && forall p :: p in r <==> p in paths
  {
    if paths == [] then []
    else
      InsertKeepsAscending(SortedPaths(paths[1..]), paths[0]);
      Insert(SortedPaths(paths[1..]), paths[0])
  }

  function Skipped(request: seq<Source>, listed: set<string>): set<string> {
    set i | 0 <= i < |request| && request[i].path in listed :: request[i].path
  }

  // ---------------------------------------------------------------- steps

  predicate HoldsLock(s: State, pid: Pid) {
    () in s.lock && s.lock[()] == pid
  }

  predicate Enabled(s: State, e: Event) {
    if e.step.Plan? then
      && e.pid !in s.procs && IsReadable(s)
      && (forall f :: f in e.step.request ==> ValidRelative(f.path))
      && DistinctSources(e.step.request)
    else if e.step.Lookup? then e.pid !in s.procs && ValidRelative(e.step.path) && e.step.path in Listed(Live(s))
    else e.pid in s.procs && EnabledFor(s, e.pid, s.procs[e.pid], e.step)
  }

  predicate EnabledFor(s: State, pid: Pid, ph: Phase, step: Step) {
    match step
    case Stage => ph.Planned? && ph.candidates != [] && CanCreate(FRESH, ph.candidates)
    case Lock => ph.Staged? && () !in s.lock
    case Reread => ph.Locked? && IsReadable(s)
    case MakeDir(dir) =>
      && ph.Moving? && ph.files != [] && ph.files[0].path !in ph.published
      && dir != [] && Under(dir, Key(ph.files[0].path)) && dir !in s.disk && IsDir(s.disk, Parent(dir))
    case Move => ph.Moving? && ph.files != [] && (ph.files[0].path in ph.published || CanRename(s.disk, Key(ph.files[0].path)))
    case Swap(_) => ph.Moving? && ph.files == [] && ph.added != [] && CanRename(s.disk, [MANIFEST_NAME])
    case Finish =>
      || (ph.Planned? && ph.candidates == [])
      || (ph.Moving? && ph.files == [] && ph.added == [])
      || ph.Swapped?
    case Open => ph.Found? && EndsInName(ph.entry.path) && Key(ph.entry.path) in s.disk && s.disk[Key(ph.entry.path)].File?
    case Stop => true
    case _ => false
  }

  /** A file can be renamed to `key` now. */
  predicate CanRename(t: Tree, key: Place) {
    key != [] && IsDir(t, Parent(key)) && (key in t ==> !t[key].Directory?)
  }

  function Unlock(s: State, pid: Pid): State {
    if HoldsLock(s, pid) then s.(lock := map[]) else s
  }

  function Apply(s: State, e: Event): State
    requires Enabled(s, e)
  {
    if e.step.Plan? then
      var listed := Listed(Live(s));
      s.(procs := s.procs[e.pid := Planned(Candidates(e.step.request, listed), Skipped(e.step.request, listed))])
    else if e.step.Lookup? then s.(procs := s.procs[e.pid := Found(Live(s)[Find(Live(s), e.step.path)])])
    else ApplyFor(s, e.pid, s.procs[e.pid], e.step)
  }

  function ApplyFor(s: State, pid: Pid, ph: Phase, step: Step): State
    requires pid in s.procs && s.procs[pid] == ph && EnabledFor(s, pid, ph, step)
  {
    match step
    case Stage => s.(procs := s.procs[pid := Staged(ph.candidates, ph.skipped)])
    case Lock => s.(lock := map[() := pid], procs := s.procs[pid := Locked(ph.files, ph.skipped)])
    case Reread =>
      s.(procs := s.procs[pid := Moving(ph.files, ph.skipped, Listed(Live(s)), Live(s), [])])
    case MakeDir(dir) => s.(disk := s.disk[dir := Directory])
    case Move =>
      var file := ph.files[0];
      if file.path in ph.published then
        s.(procs := s.procs[pid := ph.(files := ph.files[1..], skipped := ph.skipped + {file.path})])
      else
        s.(disk := s.disk[Key(file.path) := NodeOf(file)],
           procs := s.procs[pid := ph.(files := ph.files[1..], entries := ph.entries + [EntryOf(file)],
                                        added := ph.added + [file.path])])
    case Swap(text) =>
      s.(disk := s.disk[[MANIFEST_NAME] := ManifestFile(text, s.repoType, ph.entries)],
         procs := s.procs[pid := Swapped(Report(SortedPaths(ph.added), ph.skipped))])
    case Finish =>
      var report := if ph.Swapped? then ph.report else Report([], ph.skipped);
      Unlock(s.(procs := s.procs - {pid}, reports := s.reports + [report]), pid)
    case Stop => Unlock(s.(procs := s.procs - {pid}), pid)
    case Open =>
      var content := s.disk[Key(ph.entry.path)].bytes;
      s.(procs := s.procs - {pid}, served := s.served + [Served(ph.entry.path, |content|, ph.entry.digest, content)])
  }

  predicate Valid(s: State, run: seq<Event>)
    decreases |run|
  {
    run == [] || (Enabled(s, run[0]) && Valid(Apply(s, run[0]), run[1..]))
  }

  function After(s: State, run: seq<Event>): State
    requires Valid(s, run)
    decreases |run|
  {
    if run == [] then s else After(Apply(s, run[0]), run[1..])
  }

  // ---------------------------------------------------------------- the invariant

  /** The file an entry names is on disk with the recorded size and digest. */
  predicate Holds(disk: Tree, e: Entry) {
    && Key(e.path) in disk && disk[Key(e.path)].File?
    && e.size == |disk[Key(e.path)].bytes|
    && e.digest == Sha256(disk[Key(e.path)].bytes)
  }

  predicate Intact(entries: seq<Entry>, disk: Tree) {
    forall i :: 0 <= i < |entries| ==> Holds(disk, entries[i])
  }

  predicate ValidFiles(files: seq<Source>) {
    forall i :: 0 <= i < |files| ==> ValidRelative(files[i].path)
  }

  predicate PhaseFits(ph: Phase) {
    match ph
    case Planned(files, _) => ValidFiles(files)
    case Staged(files, _) => ValidFiles(files)
    case Locked(files, _) => ValidFiles(files)
    case Moving(files, _, _, _, _) => ValidFiles(files)
    case Swapped(_) => true
    case Found(_) => true
  }

  predicate NoLinks(t: Tree) {
    forall p :: p in t ==> !t[p].Link?
  }

  predicate InCritical(ph: Phase) {
    ph.Locked? || ph.Moving? || ph.Swapped?
  }

  predicate LockOK(s: State) {
    && (forall p :: p in s.procs && InCritical(s.procs[p]) ==> HoldsLock(s, p))
    && (() in s.lock ==> s.lock[()] in s.procs && InCritical(s.procs[s.lock[()]]))
  }

  /** What needs no assumption about spellings: the revision is a proper tree without links with a file
      under the manifest's name, and who moves files holds the lock. */
  predicate TreeInv(s: State) {
    && WellFormed(s.disk) && NoLinks(s.disk) && [MANIFEST_NAME] in s.disk && s.disk[[MANIFEST_NAME]].File?
    && LockOK(s)
    && forall p :: p in s.procs ==> PhaseFits(s.procs[p])
  }

  /** Valid paths in normal form. */
  predicate Clean(path: string) {
    ValidRelative(path) && Normal(path)
  }

  predicate CleanFiles(files: seq<Source>) {
    forall i :: 0 <= i < |files| ==> Clean(files[i].path)
  }

  predicate CleanEntries(entries: seq<Entry>) {
    forall i :: 0 <= i < |entries| ==> Clean(entries[i].path)
  }

  predicate RequestsNormal(run: seq<Event>) {
    forall i :: 0 <= i < |run| && run[i].step.Plan? ==> NormalFiles(run[i].step.request)
  }

  predicate GoodManifest(s: State) {
    IsReadable(s) && Intact(Live(s), s.disk) && DistinctEntries(Live(s)) && CleanEntries(Live(s))
  }

  predicate MovingOK(s: State, ph: Phase)
    requires ph.Moving?
  {
    && DistinctSources(ph.files) && CleanFiles(ph.files)
    && Live(s) <= ph.entries
    && ph.published == Listed(Live(s))
    && (|ph.added| == |ph.entries| - |Live(s)|)
    && (forall i :: 0 <= i < |ph.added| ==> ph.added[i] == ph.entries[|Live(s)| + i].path)
    && Intact(ph.entries, s.disk) && DistinctEntries(ph.entries) && CleanEntries(ph.entries)
    && (forall f, p :: f in ph.files && p in ph.added ==> f.path != p)
    && ph.skipped <= Listed(Live(s))
  }

  function ReportPaths(r: Report): set<string> {
    r.skipped + set p | p in r.added
  }

  predicate PhaseOK(s: State, ph: Phase) {
    match ph
    case Planned(files, skipped) => DistinctSources(files) && CleanFiles(files) && skipped <= Listed(Live(s))
    case Staged(files, skipped) => DistinctSources(files) && CleanFiles(files) && skipped <= Listed(Live(s))
    case Locked(files, skipped) => DistinctSources(files) && CleanFiles(files) && skipped <= Listed(Live(s))
    case Moving(_, _, _, _, _) => MovingOK(s, ph)
    case Swapped(report) => ReportPaths(report) <= Listed(Live(s))
    case Found(e) => e in Live(s)
  }

  predicate AllPhasesOK(s: State) {
    forall p :: p in s.procs ==> PhaseOK(s, s.procs[p])
  }

  predicate HistoryOK(s: State) {
    && (forall r :: r in s.reports ==> ReportPaths(r) <= Listed(Live(s)))
    && (forall v :: v in s.served ==>
          && Entry(v.path, v.size, v.digest) in Live(s)
          && v.digest == Sha256(v.content) && v.size == |v.content|)
  }

  predicate Inv(s: State) {
    TreeInv(s) && Good(s)
  }

  predicate Good(s: State) {
    GoodManifest(s) && AllPhasesOK(s) && HistoryOK(s)
  }

  /** A published revision with nobody working on it; files the manifest does not list may be
      left over from extensions that stopped. */
  predicate Start(s: State) {
    && WellFormed(s.disk) && NoLinks(s.disk) && GoodManifest(s)
    && s.lock == map[] && s.procs == map[] && s.reports == [] && s.served == []
  }

  // ---------------------------------------------------------------- one step

  lemma ListedGrows(a: seq<Entry>, b: seq<Entry>)
    requires a <= b
    ensures Listed(a) <= Listed(b)
    ensures forall e :: e in a ==> e in b
  {
    forall p | p in Listed(a) ensures p in Listed(b) {
      var i :| 0 <= i < |a| && a[i].path == p;
      assert b[i].path == p;
    }
  }

  lemma SameFilesStayIntact(entries: seq<Entry>, disk: Tree, disk': Tree)
    requires Intact(entries, disk)
    requires forall i :: 0 <= i < |entries| && Key(entries[i].path) in disk ==>
               Key(entries[i].path) in disk' && disk'[Key(entries[i].path)] == disk[Key(entries[i].path)]
    ensures Intact(entries, disk')
  {
    forall i | 0 <= i < |entries| ensures Holds(disk', entries[i]) {
      assert Holds(disk, entries[i]);
    }
  }

  /** Overwriting the file of an unlisted normal path touches no listed file. */
  lemma MoveSparesListed(entries: seq<Entry>, disk: Tree, file: Source)
    requires Intact(entries, disk) && CleanEntries(entries) && Clean(file.path)
    requires file.path !in Listed(entries)
    ensures Intact(entries, disk[Key(file.path) := NodeOf(file)])
  {
    forall i | 0 <= i < |entries| ensures Key(entries[i].path) != Key(file.path) {
      assert entries[i].path in Listed(entries);
      if Key(entries[i].path) == Key(file.path) {
        NormalIsUnambiguous(entries[i].path, file.path);
      }
    }
    SameFilesStayIntact(entries, disk, disk[Key(file.path) := NodeOf(file)]);
  }

  // ---------------------------------------------------------------- the tree

  /** Nothing disappears, and no file becomes a directory or a directory a file. */
  predicate KindsKept(t: Tree, t': Tree) {
    forall q :: q in t ==> q in t' && (t'[q].Directory? <==> t[q].Directory?) && (t[q].File? ==> t'[q].File?)
  }

  lemma AddedNodeKeepsTree(t: Tree, p: Place, node: Node)
    requires WellFormed(t) && NoLinks(t) && p != [] && IsDir(t, Parent(p)) && AllNames(p) && !node.Link?
    requires p in t ==> !t[p].Directory? && node.File?
    ensures WellFormed(t[p := node]) && NoLinks(t[p := node]) && KindsKept(t, t[p := node])
  {
  }

  lemma OwnNameIsName()
    ensures AllNames([MANIFEST_NAME])
  {
  }

  lemma PrefixIsNames(p: Place, n: nat)
    requires AllNames(p) && n <= |p|
    ensures AllNames(p[..n])
  {
  }

  lemma OrdinaryStepKeepsDisk(s: State, pid: Pid, step: Step)
    requires TreeInv(s) && pid in s.procs && EnabledFor(s, pid, s.procs[pid], step)
    ensures var t := ApplyFor(s, pid, s.procs[pid], step).disk;
            WellFormed(t) && NoLinks(t) && KindsKept(s.disk, t)
  {
    hide ValidRelative, Key, LockOK;
    var ph := s.procs[pid];
    assert PhaseFits(ph);
    if step.MakeDir? || (step.Move? && ph.files[0].path !in ph.published) {
      var key := Key(ph.files[0].path);
      ValidKeysAreNames(ph.files);
      if step.MakeDir? {
        PrefixIsNames(key, |step.dir|);
        AddedNodeKeepsTree(s.disk, step.dir, Directory);
      } else {
        AddedNodeKeepsTree(s.disk, key, NodeOf(ph.files[0]));
      }
    } else if step.Swap? {
      OwnNameIsName();
      AddedNodeKeepsTree(s.disk, [MANIFEST_NAME], ManifestFile(step.text, s.repoType, ph.entries));
    }
  }

  lemma LockStep(s: State, pid: Pid, step: Step)
    requires LockOK(s) && pid in s.procs && EnabledFor(s, pid, s.procs[pid], step)
    ensures LockOK(ApplyFor(s, pid, s.procs[pid], step))
  {
  }

  lemma OrdinaryStepKeepsTree(s: State, pid: Pid, step: Step)
    requires TreeInv(s) && pid in s.procs && EnabledFor(s, pid, s.procs[pid], step)
    ensures var s' := ApplyFor(s, pid, s.procs[pid], step);
            TreeInv(s') && KindsKept(s.disk, s'.disk)
  {
    hide ValidRelative, Key, WellFormed, NoLinks, CanCreate, LockOK, Current, IsReadable;
    OrdinaryStepKeepsDisk(s, pid, step);
    LockStep(s, pid, step);
    assert PhaseFits(s.procs[pid]);
  }

  lemma StepKeepsTree(s: State, e: Event)
    requires TreeInv(s) && Enabled(s, e)
    ensures TreeInv(Apply(s, e)) && KindsKept(s.disk, Apply(s, e).disk)
  {
    hide ValidRelative, Key, WellFormed, ApplyFor, EnabledFor, Current;
    if !e.step.Plan? && !e.step.Lookup? {
      OrdinaryStepKeepsTree(s, e.pid, e.step);
    }
  }

  lemma {:induction false} RunKeepsTree(s: State, run: seq<Event>)
    requires TreeInv(s) && Valid(s, run)
    ensures TreeInv(After(s, run)) && KindsKept(s.disk, After(s, run).disk)
    decreases |run|
  {
    hide TreeInv, Enabled, Apply;
    if run != [] {
      StepKeepsTree(s, run[0]);
      RunKeepsTree(Apply(s, run[0]), run[1..]);
    }
  }

  lemma {:induction false} CandidatesKeep(request: seq<Source>, listed: set<string>)
    requires DistinctSources(request) && CleanFiles(request)
    ensures DistinctSources(Candidates(request, listed)) && CleanFiles(Candidates(request, listed))
  {
    hide Clean;
    if request != [] {
      CandidatesKeep(request[1..], listed);
      forall f | f in request[1..] ensures f.path != request[0].path {}
    }
  }

  lemma SameManifestFile(t: Tree, t': Tree, repoType: RepositoryType)
    requires [MANIFEST_NAME] in t ==> [MANIFEST_NAME] in t' && t'[[MANIFEST_NAME]] == t[[MANIFEST_NAME]]
    requires [MANIFEST_NAME] in t
    ensures Current(t', repoType) == Current(t, repoType)
  {
  }

  /** A path in normal form leads to none of ModelKeep's own names, and can be staged. */
  lemma CleanIsNotOwn(path: string)
    requires Clean(path)
    ensures Key(path) != [MANIFEST_NAME] && IsStageable(path)
  {
    NormalKey(path);
    assert LEASE_NAME[..11] == ".modelkeep-" && MANIFEST_NAME[..11] == ".modelkeep-";
  }

  lemma QuietStepKeeps(s: State, pid: Pid, step: Step)
    requires Good(s) && pid in s.procs && EnabledFor(s, pid, s.procs[pid], step) && !step.Move? && !step.MakeDir? && !step.Swap?
    ensures var s' := ApplyFor(s, pid, s.procs[pid], step);
            GoodManifest(s') && Live(s') == Live(s) && (pid in s'.procs ==> PhaseOK(s', s'.procs[pid]))
  {
    hide Clean, Current, HistoryOK;
    assert PhaseOK(s, s.procs[pid]);
  }

  lemma SwapKeeps(s: State, pid: Pid, text: Bytes)
    requires Good(s) && pid in s.procs && EnabledFor(s, pid, s.procs[pid], Swap(text))
    ensures var s' := ApplyFor(s, pid, s.procs[pid], Swap(text));
            && GoodManifest(s') && Live(s') == s.procs[pid].entries && Live(s) <= Live(s')
            && pid in s'.procs && PhaseOK(s', s'.procs[pid])
  {
    hide Key, HistoryOK, IsStageable, Clean, Holds, CanRename, SortedPaths;
    var ph := s.procs[pid];
    var s' := ApplyFor(s, pid, ph, Swap(text));
    assert PhaseOK(s, ph);
    ListedGrows(Live(s), ph.entries);
    forall p | p in ph.added ensures p in Listed(ph.entries) {
      var i :| 0 <= i < |ph.added| && ph.added[i] == p;
      assert ph.entries[|Live(s)| + i].path == p;
    }
    forall i | 0 <= i < |ph.entries| ensures Key(ph.entries[i].path) != [MANIFEST_NAME] {
      CleanIsNotOwn(ph.entries[i].path);
    }
    SameFilesStayIntact(ph.entries, s.disk, s'.disk);
  }

  lemma NextIsUnlisted(s: State, ph: Phase)
    requires ph.Moving? && MovingOK(s, ph) && ph.files != [] && ph.files[0].path !in ph.published
    ensures ph.files[0].path !in Listed(ph.entries)
  {
    forall i | 0 <= i < |ph.entries| ensures ph.entries[i].path != ph.files[0].path {
      if i < |Live(s)| {
        assert ph.entries[i] == Live(s)[i];
        assert Live(s)[i].path in Listed(Live(s));
      } else {
        assert ph.files[0] in ph.files && ph.added[i - |Live(s)|] in ph.added;
      }
    }
  }

  lemma RestIsUnadded(s: State, ph: Phase)
    requires ph.Moving? && MovingOK(s, ph) && ph.files != []
    ensures DistinctSources(ph.files[1..]) && CleanFiles(ph.files[1..])
    ensures forall f, p :: f in ph.files[1..] && p in ph.added + [ph.files[0].path] ==> f.path != p
  {
    forall f | f in ph.files[1..] ensures f in ph.files && f.path != ph.files[0].path {
      var i :| 0 <= i < |ph.files[1..]| && ph.files[1..][i] == f;
      assert ph.files[i + 1] == f;
    }
  }

  lemma MoveKeeps(s: State, pid: Pid)
    requires Good(s) && pid in s.procs && EnabledFor(s, pid, s.procs[pid], Move)
    ensures var s' := ApplyFor(s, pid, s.procs[pid], Move);
            GoodManifest(s') && Live(s') == Live(s) && pid in s'.procs && PhaseOK(s', s'.procs[pid])
  {
    hide Key, Clean, Listed, HistoryOK, Current, Intact, CanRename, MovingOK, CleanEntries, DistinctEntries, EntryOf, NodeOf;
    var ph := s.procs[pid];
    assert PhaseOK(s, ph);
    if ph.files[0].path in ph.published {
      SkippedFits(s, ph);
      SameMoving(s, ApplyFor(s, pid, ph, Move), ApplyFor(s, pid, ph, Move).procs[pid]);
    } else {
      PlacedFileKeeps(s, ph);
      PlacedFits(s, ph);
      SameMoving(s.(disk := ApplyFor(s, pid, ph, Move).disk), ApplyFor(s, pid, ph, Move), ApplyFor(s, pid, ph, Move).procs[pid]);
    }
  }

  lemma SameMoving(s: State, s': State, ph: Phase)
    requires ph.Moving? && MovingOK(s, ph) && s'.disk == s.disk && s'.repoType == s.repoType
    ensures MovingOK(s', ph)
  {
  }

  lemma SkippedFits(s: State, ph: Phase)
    requires ph.Moving? && MovingOK(s, ph) && ph.files != [] && ph.files[0].path in ph.published
    ensures MovingOK(s, ph.(files := ph.files[1..], skipped := ph.skipped + {ph.files[0].path}))
  {
    hide Key, Clean, Listed, Current, Intact;
    RestIsUnadded(s, ph);
  }

  lemma PlacedFits(s: State, ph: Phase)
    requires GoodManifest(s) && ph.Moving? && MovingOK(s, ph) && ph.files != [] && ph.files[0].path !in ph.published
    ensures var file := ph.files[0];
            MovingOK(s.(disk := s.disk[Key(file.path) := NodeOf(file)]),
                     ph.(files := ph.files[1..], entries := ph.entries + [EntryOf(file)], added := ph.added + [file.path]))
  {
    hide Key, Clean, Listed, Current, Intact, CleanEntries, DistinctEntries, GoodManifest;
    RestIsUnadded(s, ph);
    PlacedFileKeeps(s, ph);
  }

  /** What placing the next file does to the disk and to what the extension has gathered. */
  lemma PlacedFileKeeps(s: State, ph: Phase)
    requires GoodManifest(s) && ph.Moving? && MovingOK(s, ph) && ph.files != [] && ph.files[0].path !in ph.published
    ensures var file := ph.files[0];
            var s' := s.(disk := s.disk[Key(file.path) := NodeOf(file)]);
            var entries' := ph.entries + [EntryOf(file)];
            && Current(s'.disk, s'.repoType) == Current(s.disk, s.repoType) && Intact(Live(s), s'.disk)
            && Intact(entries', s'.disk) && DistinctEntries(entries') && CleanEntries(entries')
  {
    hide Key, Clean, Listed, Current, IsStageable, Intact;
    var file := ph.files[0];
    NextIsUnlisted(s, ph);
    assert CleanFiles(ph.files);
    CleanIsNotOwn(file.path);
    MoveSparesListed(ph.entries, s.disk, file);
    AddedEntryHolds(s, ph);
    PlacedElsewhere(s.disk, file, s.repoType);
  }

  /** A file placed under another name leaves the manifest as it was. */
  lemma PlacedElsewhere(t: Tree, file: Source, repoType: RepositoryType)
    requires Key(file.path) != [MANIFEST_NAME]
    ensures Current(t[Key(file.path) := NodeOf(file)], repoType) == Current(t, repoType)
  {
  }

  lemma MakeDirKeeps(s: State, pid: Pid, dir: Place)
    requires Good(s) && [MANIFEST_NAME] in s.disk && pid in s.procs && EnabledFor(s, pid, s.procs[pid], MakeDir(dir))
    ensures var s' := ApplyFor(s, pid, s.procs[pid], MakeDir(dir));
            GoodManifest(s') && Live(s') == Live(s) && pid in s'.procs && PhaseOK(s', s'.procs[pid])
  {
    hide Key, Clean, Listed, HistoryOK, Holds;
    var s' := ApplyFor(s, pid, s.procs[pid], MakeDir(dir));
    assert PhaseOK(s, s.procs[pid]);
    SameFilesStayIntact(Live(s), s.disk, s'.disk);
    SameFilesStayIntact(s.procs[pid].entries, s.disk, s'.disk);
  }

  lemma AddedEntryHolds(s: State, ph: Phase)
    requires ph.Moving? && MovingOK(s, ph) && ph.files != [] && Clean(ph.files[0].path)
    requires ph.files[0].path !in Listed(ph.entries)
    requires Intact(ph.entries, s.disk[Key(ph.files[0].path) := NodeOf(ph.files[0])])
    ensures var disk' := s.disk[Key(ph.files[0].path) := NodeOf(ph.files[0])];
            var entries' := ph.entries + [EntryOf(ph.files[0])];
            && Intact(entries', disk') && DistinctEntries(entries') && CleanEntries(entries')
            && Intact(Live(s), disk')
  {
    var disk' := s.disk[Key(ph.files[0].path) := NodeOf(ph.files[0])];
    forall i | 0 <= i < |ph.entries| ensures ph.entries[i].path != ph.files[0].path {
      assert ph.entries[i].path in Listed(ph.entries);
    }
    forall i | 0 <= i < |Live(s)| ensures Holds(disk', Live(s)[i]) {
      assert Live(s)[i] == ph.entries[i];
    }
  }

  lemma OthersRely(s: State, s': State, ph: Phase)
    requires PhaseOK(s, ph) && Live(s) <= Live(s')
    requires (s'.disk == s.disk && s'.repoType == s.repoType) || !ph.Moving?
    ensures PhaseOK(s', ph)
  {
    ListedGrows(Live(s), Live(s'));
  }

  lemma HistoryStep(s: State, pid: Pid, step: Step)
    requires Good(s) && pid in s.procs && EnabledFor(s, pid, s.procs[pid], step)
    requires Live(s) <= Live(ApplyFor(s, pid, s.procs[pid], step))
    ensures HistoryOK(ApplyFor(s, pid, s.procs[pid], step))
  {
    hide Live, Key, Clean, CanCreate, CanRename, CleanEntries, DistinctEntries, CleanFiles, DistinctSources, SortedPaths;
    var ph := s.procs[pid];
    var s' := ApplyFor(s, pid, ph, step);
    ListedGrows(Live(s), Live(s'));
    assert PhaseOK(s, ph);
    if step.Open? {
      var i :| 0 <= i < |Live(s)| && Live(s)[i] == ph.entry;
      assert Holds(s.disk, Live(s)[i]);
    }
    if step.Finish? && ph.Moving? {
      assert ReportPaths(Report([], ph.skipped)) == ph.skipped;
    }
  }

  /** An event an extension or a reader may take, with normal request paths. */
  predicate NormalEvent(e: Event) {
    e.step.Plan? ==> NormalFiles(e.step.request)
  }

  lemma OrdinaryStepKeepsGood(s: State, pid: Pid, step: Step)
    requires Good(s) && LockOK(s) && [MANIFEST_NAME] in s.disk && pid in s.procs && EnabledFor(s, pid, s.procs[pid], step)
    ensures var s' := ApplyFor(s, pid, s.procs[pid], step);
            Good(s') && Live(s) <= Live(s')
  {
    var ph := s.procs[pid];
    var s' := ApplyFor(s, pid, ph, step);
    hide Current, IsReadable, Clean, HistoryOK, LockOK;
    if step.Move? {
      MoveKeeps(s, pid);
    } else if step.MakeDir? {
      MakeDirKeeps(s, pid, step.dir);
    } else if step.Swap? {
      SwapKeeps(s, pid, step.text);
    } else {
      QuietStepKeeps(s, pid, step);
    }
    HistoryStep(s, pid, step);
    OthersMoveNothing(s, pid, step);
    forall q | q in s'.procs && q != pid ensures PhaseOK(s', s'.procs[q]) {
      assert PhaseOK(s, s.procs[q]);
      OthersRely(s, s', s.procs[q]);
    }
  }

  /** While one extension moves files or swaps the manifest, no other one is at that stage. */
  lemma OthersMoveNothing(s: State, pid: Pid, step: Step)
    requires LockOK(s) && pid in s.procs && EnabledFor(s, pid, s.procs[pid], step)
    ensures var s' := ApplyFor(s, pid, s.procs[pid], step);
            forall q :: q in s'.procs && q != pid ==>
              && q in s.procs && s'.procs[q] == s.procs[q]
              && (s.procs[q].Moving? ==> s'.disk == s.disk && s'.repoType == s.repoType)
  {
  }

  lemma ArrivalKeepsGood(s: State, pid: Pid, ph: Phase)
    requires Good(s) && pid !in s.procs && PhaseOK(s, ph) && !InCritical(ph)
    ensures Good(s.(procs := s.procs[pid := ph]))
  {
    var s' := s.(procs := s.procs[pid := ph]);
    forall q | q in s'.procs ensures PhaseOK(s', s'.procs[q]) {
      assert PhaseOK(s, s'.procs[q]);
    }
  }

  lemma StepKeepsGood(s: State, e: Event)
    requires Good(s) && LockOK(s) && [MANIFEST_NAME] in s.disk && Enabled(s, e) && NormalEvent(e)
    ensures Good(Apply(s, e)) && Live(s) <= Live(Apply(s, e))
  {
    hide ApplyFor, EnabledFor, HistoryOK, LockOK, Current, ValidRelative, Normal;
    if e.step.Plan? {
      var request, listed := e.step.request, Listed(Live(s));
      CandidatesKeep(request, listed);
      ArrivalKeepsGood(s, e.pid, Planned(Candidates(request, listed), Skipped(request, listed)));
    } else if e.step.Lookup? {
      ArrivalKeepsGood(s, e.pid, Found(Live(s)[Find(Live(s), e.step.path)]));
    } else {
      OrdinaryStepKeepsGood(s, e.pid, e.step);
    }
  }

  lemma StepKeepsInv(s: State, e: Event)
    requires Inv(s) && Enabled(s, e) && NormalEvent(e)
    ensures Inv(Apply(s, e)) && Live(s) <= Live(Apply(s, e))
  {
    hide Good, Apply, Enabled, LockOK, WellFormed;
    StepKeepsTree(s, e);
    StepKeepsGood(s, e);
  }

  // ---------------------------------------------------------------- every run

  lemma {:induction false} RunKeepsInv(s: State, run: seq<Event>)
    requires Inv(s) && Valid(s, run) && RequestsNormal(run)
    ensures Inv(After(s, run)) && Live(s) <= Live(After(s, run))
    decreases |run|
  {
    if run != [] {
      StepKeepsInv(s, run[0]);
      assert RequestsNormal(run[1..]) by {
        forall i | 0 <= i < |run[1..]| && run[1..][i].step.Plan? ensures NormalFiles(run[1..][i].step.request) {
          assert run[1..][i] == run[i + 1];
        }
      }
      RunKeepsInv(Apply(s, run[0]), run[1..]);
    }
  }

  lemma StartIsInv(s: State)
    requires Start(s)
    ensures Inv(s)
  {
  }

  /** In every run: the manifest only grows, entry by entry at its end; every listed file is on
      disk with its recorded size and digest; every path a finished extension reported is still
      listed; and every reader was given a listed path's recorded bytes. */
  lemma ExtensionsAreMonotonic(s: State, run: seq<Event>)
    requires Start(s) && Valid(s, run) && RequestsNormal(run)
    ensures var t := After(s, run);
            && Live(s) <= Live(t)
            && Intact(Live(t), t.disk) && DistinctEntries(Live(t))
            && (forall r :: r in t.reports ==> ReportPaths(r) <= Listed(Live(t)))
            && (forall v :: v in t.served ==>
                  Entry(v.path, v.size, v.digest) in Live(t) && v.digest == Sha256(v.content) && v.size == |v.content|)
  {
    StartIsInv(s);
    RunKeepsInv(s, run);
  }

  /** A reader that found its entry can open it, and gets bytes of the recorded size and digest,
      whatever extensions did in between. */
  lemma ReadersAreServed(s: State, run: seq<Event>, p: Pid)
    requires Start(s) && Valid(s, run) && RequestsNormal(run)
    requires p in After(s, run).procs && After(s, run).procs[p].Found?
    ensures var t := After(s, run);
            var e := t.procs[p].entry;
            Enabled(t, Event(p, Open)) && e in Live(t) && Holds(t.disk, e)
  {
    hide Live, Key, Inv, Start, After, Valid, RequestsNormal, Enabled, Holds;
    StartIsInv(s);
    RunKeepsInv(s, run);
    FoundHolds(After(s, run), p);
    MayOpen(After(s, run), p);
  }

  lemma FoundHolds(t: State, p: Pid)
    requires Inv(t) && p in t.procs && t.procs[p].Found?
    ensures t.procs[p].entry in Live(t) && Holds(t.disk, t.procs[p].entry) && EndsInName(t.procs[p].entry.path)
  {
    hide Live, Key, ValidRelative, Normal, TreeInv, HistoryOK, IsStageable, Holds, EndsInName;
    assert PhaseOK(t, t.procs[p]);
    var i :| 0 <= i < |Live(t)| && Live(t)[i] == t.procs[p].entry;
    assert Holds(t.disk, Live(t)[i]);
    assert Clean(Live(t)[i].path);
    CleanIsNotOwn(Live(t)[i].path);
    StageableEndsInName(Live(t)[i].path);
  }

  lemma MayOpen(t: State, p: Pid)
    requires p in t.procs && t.procs[p].Found? && Holds(t.disk, t.procs[p].entry) && EndsInName(t.procs[p].entry.path)
    ensures Enabled(t, Event(p, Open))
  {
    hide Key, EndsInName, CanCreate, Current;
  }

  lemma StageableEndsInName(path: string)
    requires IsStageable(path)
    ensures EndsInName(path)
  {
  }

  // ---------------------------------------------------------------- putting runs together

  lemma {:induction false} RunsCompose(s: State, run: seq<Event>, rest: seq<Event>)
    requires Valid(s, run) && Valid(After(s, run), rest)
    ensures Valid(s, run + rest) && After(s, run + rest) == After(After(s, run), rest)
    decreases |run|
  {
    hide Enabled, Apply;
    if run == [] {
      assert run + rest == rest;
    } else {
      RunsCompose(Apply(s, run[0]), run[1..], rest);
      assert (run + rest)[1..] == run[1..] + rest;
    }
  }

  lemma Append(s: State, run: seq<Event>, e: Event)
    requires Valid(s, run) && Enabled(After(s, run), e)
    ensures Valid(s, run + [e]) && After(s, run + [e]) == Apply(After(s, run), e)
  {
    RunsCompose(s, run, [e]);
  }

  // ---------------------------------------------------------------- spellings that name one file

  /** Renaming a new file into the revision keeps every listed file as recorded exactly when no
      listed entry names the same file under another spelling with other bytes. */
  lemma RenameKeepsListedIff(manifest: seq<Entry>, disk: Tree, file: Source)
    requires Intact(manifest, disk)
    ensures Intact(manifest, disk[Key(file.path) := NodeOf(file)]) <==>
            forall i :: 0 <= i < |manifest| && Key(manifest[i].path) == Key(file.path) ==>
              manifest[i].size == |file.content| && manifest[i].digest == Sha256(file.content)
  {
    var disk' := disk[Key(file.path) := NodeOf(file)];
    if Intact(manifest, disk') {
      forall i | 0 <= i < |manifest| && Key(manifest[i].path) == Key(file.path)
        ensures manifest[i].size == |file.content| && manifest[i].digest == Sha256(file.content)
      {
        assert Holds(disk', manifest[i]);
      }
    } else {
      var i :| 0 <= i < |manifest| && !Holds(disk', manifest[i]);
      assert Holds(disk, manifest[i]);
    }
  }
}
