/** The fetch-staging protocol: any number of acquisition attempts and startup recoveries
    interleave their file-system steps over one temporary area, each may stop for good between
    any two steps, and a clock runs beside them.

    One step is one observable file-system effect, one read or one clock reading: in particular
    a lease write is two steps, computing the expiry and renaming the lease file into place, and
    recovery reads a lease in one step and the clock in a later one. */
module StagingProtocol {
  import opened Common
  import opened StagingRules

  type Pid = nat

  const LEASE_SECONDS := 120

  /** A directory name: its form and the operation id, fresh for every name ever created. */
  datatype Name = Name(form: NameForm, op: nat)

  /** A staging directory. `inode` stands for the directory itself across renames. */
  datatype Dir = Dir(inode: nat, lease: Option<nat>, meta: Option<Meta>)

  /** Where one attempt is. Each phase names the step it has completed. */
  datatype Phase =
    | Scanning(start: nat)                            // `now` read, looking at the entries
    | Reading(start: nat, path: Name, found: Meta)    // metadata of `path` read and claimable
    | Expired(start: nat, path: Name, found: Meta)    // lease of `path` read as expired
    | Renewing(start: nat, path: Name, found: Meta, stamp: nat) // expiry for `path` computed
    | Renewed(start: nat, path: Name, found: Meta)    // lease of `path` replaced
    | Claimed(name: Name, found: Meta)                // `path` renamed to our own marker
    | Restamping(name: Name, found: Meta, stamp: nat)
    | Restamped(name: Name, found: Meta)              // lease renewed under the new name
    | Making(name: Name)                              // fresh directory created, no lease yet
    | Stamping(name: Name, stamp: nat)
    | Made(name: Name)                                // fresh directory with a lease
    | Working(name: Name, resume: Option<string>)     // the attempt owns `name`
    | Publishing(name: Name)                          // lease removed, about to be renamed out
    | Preserving(name: Name)                          // renamed to abandoned, lease still ours
    | LeaseRead(path: Name, expiry: nat)              // recovery read a lease, not yet the clock
    | Examining(path: Name)                           // the clock had reached that expiry
    | Judged(path: Name, identity: Option<Meta>)      // recovery read the metadata

  datatype Proc = Proc(request: Request, phase: Phase, beat: Option<nat>)

  datatype State = State(
    now: nat,
    nextOp: nat,                 // operation ids below this one are used
    dirs: map<Name, Dir>,
    procs: map<Pid, Proc>,
    claims: seq<Name>)          // history: the names claims renamed away, in order

  datatype Step =
    | Begin(request: Request)
    | ReadMeta(path: Name)
    | ReadLease
    | StampClaim
    | InstallClaim
    | RenameClaim
    | StampAgain
    | InstallAgain
    | Rescan
    | Narrow
    | MakeDir(form: NameForm)
    | StampFirst
    | InstallFirst
    | WriteMeta
    | BeatStamp
    | BeatInstall
    | Record(commit: string)
    | DropLease
    | PublishRename
    | Preserve
    | MarkAbandoned
    | Remove
    | Examine(path: Name)
    | ReadClock
    | Judge
    | Reclaim
    | Leave
    | Tick(to: nat)

  datatype Event = Event(pid: Pid, step: Step)

  // ---------------------------------------------------------------- who holds what

  /** The directory name an attempt owns: from creating it, or from winning the claim rename,
      until it renames or removes it. */
  function Held(phase: Phase): Option<Name> {
    match phase
    case Claimed(n, _) => Some(n)
    case Restamping(n, _, _) => Some(n)
    case Restamped(n, _) => Some(n)
    case Making(n) => Some(n)
    case Stamping(n, _) => Some(n)
    case Made(n) => Some(n)
    case Working(n, _) => Some(n)
    case Publishing(n) => Some(n)
    case Preserving(n) => Some(n)
    case _ => None
  }

  /** The name an attempt is about to take over. */
  function Watched(phase: Phase): Option<Name> {
    match phase
    case Expired(_, n, _) => Some(n)
    case Renewing(_, n, _, _) => Some(n)
    case Renewed(_, n, _) => Some(n)
    case _ => None
  }

  /** The name recovery is about to reclaim. */
  function Target(phase: Phase): Option<Name> {
    match phase
    case Examining(n) => Some(n)
    case Judged(n, _) => Some(n)
    case _ => None
  }

  /** An expiry computed and not yet in place. */
  function Stamp(phase: Phase): Option<nat> {
    match phase
    case Renewing(_, _, _, e) => Some(e)
    case Restamping(_, _, e) => Some(e)
    case Stamping(_, e) => Some(e)
    case _ => None
  }

  /** The name whose lease an attempt must keep alive: the one it holds, and the one it has
      just renewed and is about to rename. */
  function Guarded(phase: Phase): Option<Name> {
    if phase.Renewed? then Some(phase.path) else Held(phase)
  }

  predicate Before(now: nat, deadline: Option<nat>) {
    deadline.Some? ==> now < deadline.value
  }

  /** The timing assumption for one attempt: at `now`, no expiry it has computed has passed
      uninstalled and the lease it keeps alive has not run out. */
  predicate OnTime(now: nat, dirs: map<Name, Dir>, proc: Proc) {
    && Before(now, Stamp(proc.phase))
    && Before(now, proc.beat)
    && (Guarded(proc.phase).Some? && Guarded(proc.phase).value in dirs ==>
          Before(now, dirs[Guarded(proc.phase).value].lease))
  }

  predicate AllOnTime(now: nat, s: State) {
    forall p :: p in s.procs ==> OnTime(now, s.dirs, s.procs[p])
  }

  // ---------------------------------------------------------------- steps

  predicate HasLease(s: State, path: Name) {
    path in s.dirs && s.dirs[path].lease.Some?
  }

  predicate MayBeat(phase: Phase) {
    phase.Made? || phase.Working? || phase.Publishing?
  }

  predicate Enabled(s: State, e: Event) {
    if e.step.Tick? then s.now <= e.step.to && AllOnTime(e.step.to, s)
    else if e.step.Begin? then e.pid !in s.procs
    else if e.step.Examine? then e.pid !in s.procs && HasLease(s, e.step.path)
    else e.pid in s.procs && EnabledFor(s, s.procs[e.pid], e.step)
  }

  predicate EnabledFor(s: State, proc: Proc, step: Step) {
    var ph := proc.phase;
    match step
    case ReadMeta(path) =>
      ph.Scanning? && path in s.dirs && path.form != OtherForm
      && s.dirs[path].meta.Some? && Claimable(s.dirs[path].meta.value, proc.request)
    case ReadLease => ph.Reading? && HasLease(s, ph.path) && s.dirs[ph.path].lease.value <= ph.start
    case StampClaim => ph.Expired?
    case InstallClaim => ph.Renewing? && ph.path in s.dirs
    case RenameClaim => ph.Renewed? && ph.path in s.dirs
    case Rescan => ph.Reading? || ph.Expired? || ph.Renewing? || ph.Renewed?
    case StampAgain => ph.Claimed?
    case InstallAgain => ph.Restamping?
    case Narrow => ph.Restamped?
    case MakeDir(form) => ph.Scanning? && form != AbandonedForm
    case StampFirst => ph.Making?
    case InstallFirst => ph.Stamping?
    case WriteMeta => ph.Made?
    case BeatStamp => MayBeat(ph)
    case BeatInstall => MayBeat(ph) && proc.beat.Some?
    case Record(commit) => ph.Working? && ph.name in s.dirs && RecordAccepted(s.dirs[ph.name].meta, proc.request, commit)
    case DropLease => ph.Working?
    case PublishRename => ph.Publishing?
    case Preserve => ph.Working? && ph.name in s.dirs && RecordsCommit(s.dirs[ph.name].meta)
    case MarkAbandoned => ph.Preserving?
    case Remove => ph.Working? || ph.Publishing?
    case ReadClock => ph.LeaseRead?
    case Judge => ph.Examining?
    case Reclaim => ph.Judged?
    case Leave => true
    case _ => false
  }

  /** The checks before a resolved commit is recorded: unchanged identity and selection, and no
      different commit recorded earlier. */
  predicate RecordAccepted(meta: Option<Meta>, request: Request, commit: string) {
    && meta.Some?
    && meta.value.identity == request.identity
    && meta.value.files == request.files
    && (meta.value.commit.Some? ==> meta.value.commit.value == commit)
  }

  function Recoverer(phase: Phase): Proc {
    Proc(Request(Identity(0, "", ""), []), phase, None)
  }

  function MoveTo(s: State, pid: Pid, phase: Phase): State
    requires pid in s.procs
  {
    s.(procs := s.procs[pid := s.procs[pid].(phase := phase)])
  }

  function SetLease(s: State, name: Name, lease: Option<nat>): State {
    if name in s.dirs then s.(dirs := s.dirs[name := s.dirs[name].(lease := lease)]) else s
  }

  function SetMeta(s: State, name: Name, meta: Meta): State {
    if name in s.dirs then s.(dirs := s.dirs[name := s.dirs[name].(meta := Some(meta))]) else s
  }

  /** Renames to a name with a fresh operation id. */
  function RenameDir(s: State, path: Name, to: Name): State
    requires path in s.dirs
  {
    s.(dirs := (s.dirs - {path})[to := s.dirs[path]], nextOp := s.nextOp + 1)
  }

  function Apply(s: State, e: Event): State
    requires Enabled(s, e)
  {
    if e.step.Tick? then s.(now := e.step.to)
    else if e.step.Begin? then s.(procs := s.procs[e.pid := Proc(e.step.request, Scanning(s.now), None)])
    else if e.step.Examine? then
      s.(procs := s.procs[e.pid := Recoverer(LeaseRead(e.step.path, s.dirs[e.step.path].lease.value))])
    else ApplyFor(s, e.pid, s.procs[e.pid], e.step)
  }

  function ApplyFor(s: State, pid: Pid, proc: Proc, step: Step): State
    requires pid in s.procs && s.procs[pid] == proc && EnabledFor(s, proc, step)
  {
    if IsQuiet(step) then ApplyQuiet(s, pid, proc, step)
    else if IsInstall(step) then ApplyInstall(s, pid, proc, step)
    else if IsMetaWrite(step) then ApplyMetaWrite(s, pid, proc, step)
    else ApplyRename(s, pid, proc, step)
  }

  /** Steps that only read the directory tree or the clock. */
  predicate IsQuiet(step: Step) {
    step.ReadMeta? || step.ReadLease? || step.StampClaim? || step.Rescan? || step.StampAgain?
    || step.StampFirst? || step.BeatStamp? || step.ReadClock? || step.Judge? || step.Leave?
  }

  function ApplyQuiet(s: State, pid: Pid, proc: Proc, step: Step): (s': State)
    requires pid in s.procs && s.procs[pid] == proc && EnabledFor(s, proc, step) && IsQuiet(step)
    ensures s'.dirs == s.dirs && s'.now == s.now && s'.nextOp == s.nextOp && s'.claims == s.claims
  {
    var ph := proc.phase;
    match step
    case ReadMeta(path) => MoveTo(s, pid, Reading(ph.start, path, s.dirs[path].meta.value))
    case ReadLease => MoveTo(s, pid, Expired(ph.start, ph.path, ph.found))
    case StampClaim => MoveTo(s, pid, Renewing(ph.start, ph.path, ph.found, s.now + LEASE_SECONDS))
    case Rescan => MoveTo(s, pid, Scanning(ph.start))
    case StampAgain => MoveTo(s, pid, Restamping(ph.name, ph.found, s.now + LEASE_SECONDS))
    case StampFirst => MoveTo(s, pid, Stamping(ph.name, s.now + LEASE_SECONDS))
    case BeatStamp => s.(procs := s.procs[pid := proc.(beat := Some(s.now + LEASE_SECONDS))])
    case ReadClock =>
      if ph.expiry <= s.now then MoveTo(s, pid, Examining(ph.path)) else s.(procs := s.procs - {pid})
    case Judge => MoveTo(s, pid, Judged(ph.path, if ph.path in s.dirs then s.dirs[ph.path].meta else None))
    case Leave => s.(procs := s.procs - {pid})
  }

  /** Steps that rename a lease file into place, or remove one. */
  predicate IsInstall(step: Step) {
    step.InstallClaim? || step.InstallAgain? || step.InstallFirst? || step.BeatInstall?
    || step.DropLease? || step.MarkAbandoned?
  }

  function ApplyInstall(s: State, pid: Pid, proc: Proc, step: Step): (s': State)
    requires pid in s.procs && s.procs[pid] == proc && EnabledFor(s, proc, step) && IsInstall(step)
    ensures s'.dirs.Keys == s.dirs.Keys && s'.now == s.now && s'.nextOp == s.nextOp && s'.claims == s.claims
  {
    var ph := proc.phase;
    match step
    case InstallClaim => MoveTo(SetLease(s, ph.path, Some(ph.stamp)), pid, Renewed(ph.start, ph.path, ph.found))
    case InstallAgain => MoveTo(SetLease(s, ph.name, Some(ph.stamp)), pid, Restamped(ph.name, ph.found))
    case InstallFirst => MoveTo(SetLease(s, ph.name, Some(ph.stamp)), pid, Made(ph.name))
    case BeatInstall => SetLease(s, Held(ph).value, proc.beat).(procs := s.procs[pid := proc.(beat := None)])
    case DropLease => MoveTo(SetLease(s, ph.name, None), pid, Publishing(ph.name))
    case MarkAbandoned => SetLease(s, ph.name, Some(0)).(procs := s.procs - {pid})
  }

  /** Steps that replace the metadata file of the attempt's own directory. */
  predicate IsMetaWrite(step: Step) {
    step.Narrow? || step.WriteMeta? || step.Record?
  }

  function ApplyMetaWrite(s: State, pid: Pid, proc: Proc, step: Step): (s': State)
    requires pid in s.procs && s.procs[pid] == proc && EnabledFor(s, proc, step) && IsMetaWrite(step)
    ensures s'.dirs.Keys == s.dirs.Keys && s'.now == s.now && s'.nextOp == s.nextOp && s'.claims == s.claims
  {
    var ph := proc.phase;
    match step
    case Narrow =>
      MoveTo(if ph.found.files != proc.request.files then SetMeta(s, ph.name, ph.found.(files := proc.request.files)) else s,
             pid, Working(ph.name, ph.found.commit))
    case WriteMeta =>
      MoveTo(if ph.name.form == ActiveForm then SetMeta(s, ph.name, Meta(proc.request.identity, proc.request.files, None)) else s,
             pid, Working(ph.name, None))
    case Record(commit) => SetMeta(s, ph.name, s.dirs[ph.name].meta.value.(commit := Some(commit)))
  }

  /** Steps that create, rename or remove a directory. */
  predicate IsRename(step: Step) {
    !IsQuiet(step) && !IsInstall(step) && !IsMetaWrite(step)
  }

  function ApplyRename(s: State, pid: Pid, proc: Proc, step: Step): (s': State)
    requires pid in s.procs && s.procs[pid] == proc && EnabledFor(s, proc, step) && IsRename(step)
    ensures s'.now == s.now && (!step.RenameClaim? ==> s'.claims == s.claims)
  {
    var ph := proc.phase;
    match step
    case RenameClaim =>
      var name := Name(ActiveForm, s.nextOp);
      MoveTo(RenameDir(s, ph.path, name).(claims := s.claims + [ph.path]), pid, Claimed(name, ph.found))
    case MakeDir(form) =>
      var name := Name(form, s.nextOp);
      MoveTo(s.(nextOp := s.nextOp + 1, dirs := s.dirs[name := Dir(s.nextOp, None, None)]), pid, Making(name))
    case Preserve =>
      var name := Name(AbandonedForm, s.nextOp);
      RenameDir(s, ph.name, name).(procs := s.procs[pid := proc.(phase := Preserving(name), beat := None)])
    case PublishRename => s.(dirs := s.dirs - {ph.name}, procs := s.procs - {pid})
    case Remove => s.(dirs := s.dirs - {ph.name}, procs := s.procs - {pid})
    case Reclaim => ApplyRecovery(s.(procs := s.procs - {pid}), ph.path, ph.identity)
  }

  /** Recovery acts on the name it judged; a name that has since been renamed away is an error
      it reports and skips. */
  function ApplyRecovery(s: State, path: Name, identity: Option<Meta>): State {
    if path !in s.dirs then s
    else
      match Recover(path.form, Entry(true, Expires(0), identity), 0)
      case Keep => s
      case PreserveForResume => RenameDir(s, path, Name(AbandonedForm, s.nextOp))
      case Discard => s.(dirs := s.dirs - {path})
  }

  // ---------------------------------------------------------------- runs

  predicate Valid(s: State, run: seq<Event>)
    decreases |run|
  {
    run == [] || (Enabled(s, run[0]) && Valid(Apply(s, run[0]), run[1..]))
  }

  function After(s: State, run: seq<Event>): State
    requires Valid(s, run)
    decreases |run|
  {
    if run == [] then s else After(Apply(s, run[0]), run[1..])
  }

  /** A temporary area with no attempt under way: any set of directories earlier processes left. */
  predicate Start(s: State) {
    && s.procs == map[]
    && s.claims == []
    && DirsOK(s)
  }

  // ---------------------------------------------------------------- the invariant

  predicate DirsOK(s: State) {
    && (forall n :: n in s.dirs ==> n.op < s.nextOp && s.dirs[n].inode < s.nextOp)
    && (forall n, m :: n in s.dirs && m in s.dirs && s.dirs[n].inode == s.dirs[m].inode ==> n == m)
  }

  predicate LeaseLater(lease: Option<nat>, start: nat) {
    lease.Some? ==> lease.value > start
  }

  predicate HasMeta(s: State, n: Name, found: Meta) {
    n in s.dirs ==> s.dirs[n].meta == Some(found)
  }

  predicate OwnMeta(s: State, n: Name, found: Meta) {
    n in s.dirs ==> s.dirs[n].meta == Some(found) && s.dirs[n].lease.Some?
  }

  predicate OwnName(s: State, n: Name) {
    n.form != AbandonedForm && n.op < s.nextOp
  }

  /** What one attempt may rely on, phase by phase; what it holds may have been taken away. */
  predicate ProcOK(s: State, proc: Proc) {
    var ph := proc.phase;
    match ph
    case Scanning(start) => start <= s.now
    case Reading(start, n, found) =>
      && start <= s.now && n.op < s.nextOp && n.form != OtherForm && Claimable(found, proc.request)
      && (n in s.dirs ==>
            s.dirs[n].meta == Some(found) || (n.form == ActiveForm && LeaseLater(s.dirs[n].lease, start)))
    case Expired(start, n, found) => start <= s.now && n.op < s.nextOp && Claimable(found, proc.request) && HasMeta(s, n, found)
    case Renewing(start, n, found, _) => start <= s.now && n.op < s.nextOp && Claimable(found, proc.request) && HasMeta(s, n, found)
    case Renewed(start, n, found) =>
      start <= s.now && n.op < s.nextOp && Claimable(found, proc.request) && HasMeta(s, n, found) && (n in s.dirs ==> s.dirs[n].lease.Some?)
    case Claimed(n, found) => OwnName(s, n) && n.form == ActiveForm && Claimable(found, proc.request) && OwnMeta(s, n, found)
    case Restamping(n, found, _) => OwnName(s, n) && n.form == ActiveForm && Claimable(found, proc.request) && OwnMeta(s, n, found)
    case Restamped(n, found) => OwnName(s, n) && n.form == ActiveForm && Claimable(found, proc.request) && OwnMeta(s, n, found)
    case Making(n) => OwnName(s, n) && (n in s.dirs ==> s.dirs[n].meta == None)
    case Stamping(n, _) => OwnName(s, n) && (n in s.dirs ==> s.dirs[n].meta == None)
    case Made(n) => OwnName(s, n) && (n in s.dirs ==> s.dirs[n].meta == None && s.dirs[n].lease.Some?)
    case Working(n, resume) =>
      && OwnName(s, n) && (resume.Some? ==> n.form == ActiveForm)
      && (n in s.dirs ==>
            && s.dirs[n].lease.Some?
            && (n.form == ActiveForm ==>
                  && s.dirs[n].meta.Some?
                  && s.dirs[n].meta.value.identity == proc.request.identity
                  && s.dirs[n].meta.value.files == proc.request.files)
            && (resume.Some? ==> s.dirs[n].meta.value.commit == resume))
    case Publishing(n) => OwnName(s, n)
    case Preserving(n) => n.form == AbandonedForm && n.op < s.nextOp && (n in s.dirs ==> s.dirs[n].lease.Some?)
    case LeaseRead(n, _) => n.op < s.nextOp
    case Examining(n) => n.op < s.nextOp
    case Judged(n, _) => n.op < s.nextOp
  }

  /** No two attempts hold one name, and no claim takes over a held one. */
  predicate Apart(a: Proc, b: Proc) {
    Held(a.phase).Some? ==> Held(b.phase) != Held(a.phase) && Watched(b.phase) != Held(a.phase)
  }

  predicate AllApart(s: State) {
    forall p, q :: p in s.procs && q in s.procs && p != q ==> Apart(s.procs[p], s.procs[q])
  }

  predicate AllProcsOK(s: State) {
    forall p :: p in s.procs ==> ProcOK(s, s.procs[p])
  }

  /** A name is claimed once: it is gone for good afterwards. */
  predicate ClaimsOK(s: State) {
    && (forall i :: 0 <= i < |s.claims| ==> s.claims[i].op < s.nextOp && s.claims[i] !in s.dirs)
    && (forall i, j :: 0 <= i < j < |s.claims| ==> s.claims[i] != s.claims[j])
  }

  predicate Inv(s: State) {
    DirsOK(s) && AllProcsOK(s) && AllApart(s) && AllOnTime(s.now, s) && ClaimsOK(s)
  }

  // ---------------------------------------------------------------- when recovery leaves owners alone

  predicate LeaseExpired(s: State, n: Name) {
    n in s.dirs && s.dirs[n].lease.Some? && s.dirs[n].lease.value <= s.now
  }

  predicate Holds(s: State, p: Pid, n: Name) {
    p in s.procs && Held(s.procs[p].phase) == Some(n)
  }

  /** Every owner's directory is in place, recovery is after no owned one, and what it judged is
      still so. */
  predicate Undisturbed(s: State) {
    && (forall p :: p in s.procs && Held(s.procs[p].phase).Some? ==> Held(s.procs[p].phase).value in s.dirs)
    && (forall p, r :: p in s.procs && r in s.procs && Held(s.procs[p].phase).Some? ==>
          Target(s.procs[r].phase) != Held(s.procs[p].phase))
    && (forall r :: r in s.procs && s.procs[r].phase.Judged? && s.procs[r].phase.path in s.dirs ==>
          s.dirs[s.procs[r].phase.path].meta == s.procs[r].phase.identity)
  }

  /** The clock reading lets this recovery go on. */
  predicate Passes(s: State, r: Pid) {
    r in s.procs && s.procs[r].phase.LeaseRead? && s.procs[r].phase.expiry <= s.now
  }

  /** If this event is a clock reading that lets a recovery go on, the lease in place by then has
      expired too, or the name is gone: what the code does not check. */
  predicate Careful(s: State, e: Event) {
    e.step.ReadClock? && Passes(s, e.pid) ==>
      s.procs[e.pid].phase.path !in s.dirs || LeaseExpired(s, s.procs[e.pid].phase.path)
  }

  predicate CarefulRun(s: State, run: seq<Event>)
    requires Valid(s, run)
    decreases |run|
  {
    run == [] || (Careful(s, run[0]) && CarefulRun(Apply(s, run[0]), run[1..]))
  }
}
