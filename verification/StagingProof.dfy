/** The invariant of the staging protocol, by rely and guarantee: every step of one attempt
    guarantees a bound on what it does to the directories, and every other attempt's own
    invariant survives any step within that bound. */
module StagingProof {
  import opened Common
  import opened StagingRules
  import opened StagingProtocol

  // ---------------------------------------------------------------- the guarantee

  predicate Mine(held: Option<Name>, watched: Option<Name>, n: Name) {
    held == Some(n) || watched == Some(n)
  }

  /** How a step may change a directory it acts on: by the holder, or by a claim in progress. */
  predicate Touch(now: nat, held: bool, form: NameForm, d: Dir, d': Dir) {
    && d'.inode == d.inode
    && (held && form == AbandonedForm ==> d'.meta == d.meta)
    && (held && form != AbandonedForm ==>
          && (d'.lease == d.lease || LeaseLater(d'.lease, now))
          && (d'.meta == d.meta || LeaseLater(d'.lease, now)))
    && (!held ==> d'.meta == d.meta && (d'.lease == d.lease || (d'.lease.Some? && d'.lease.value > now)))
  }

  /** What a step of an attempt holding `held` and watching `watched` guarantees to the others. */
  predicate Guarantee(s: State, s': State, held: Option<Name>, watched: Option<Name>) {
    && s'.now == s.now && s.nextOp <= s'.nextOp
    && (forall n :: n in s.dirs && n in s'.dirs && !Mine(held, watched, n) ==> s'.dirs[n] == s.dirs[n])
    && (forall n :: n in s'.dirs && n.op < s.nextOp ==> n in s.dirs)
    && (forall n :: n in s.dirs && n in s'.dirs ==> Touch(s.now, held == Some(n), n.form, s.dirs[n], s'.dirs[n]))
  }

  predicate Guaranteed(s: State, s': State, ph: Phase) {
    Guarantee(s, s', Held(ph), Watched(ph))
  }

  /** One attempt is about to step and everything it relies on holds. */
  predicate Ready(s: State, pid: Pid, step: Step) {
    && DirsOK(s)
    && pid in s.procs
    && ProcOK(s, s.procs[pid])
    && OnTime(s.now, s.dirs, s.procs[pid])
    && EnabledFor(s, s.procs[pid], step)
  }

  /** The stepping attempt's own invariant after the step. */
  predicate OwnOK(s': State, pid: Pid) {
    pid in s'.procs ==> ProcOK(s', s'.procs[pid]) && OnTime(s'.now, s'.dirs, s'.procs[pid])
  }

  /** A step takes over only a name it already had, a fresh one, or one whose lease has expired. */
  predicate Moves(s: State, ph: Phase, ph': Phase) {
    && (Held(ph').Some? ==> Held(ph') == Held(ph) || Held(ph').value.op >= s.nextOp)
    && (Watched(ph').Some? ==> Watched(ph') == Watched(ph) || LeaseExpired(s, Watched(ph').value))
  }

  predicate OnlyMoves(s: State, s': State, pid: Pid)
    requires pid in s.procs
  {
    && (forall q :: q in s'.procs && q != pid ==> q in s.procs && s'.procs[q] == s.procs[q])
    && (pid in s'.procs ==> Moves(s, s.procs[pid].phase, s'.procs[pid].phase))
  }

  // ---------------------------------------------------------------- quiet steps

  lemma QuietGuarantees(s: State, pid: Pid, step: Step)
    requires Ready(s, pid, step) && IsQuiet(step)
    ensures Guaranteed(s, ApplyQuiet(s, pid, s.procs[pid], step), s.procs[pid].phase)
  {
  }

  lemma QuietKeepsOwn(s: State, pid: Pid, step: Step)
    requires Ready(s, pid, step) && IsQuiet(step)
    ensures OwnOK(ApplyQuiet(s, pid, s.procs[pid], step), pid)
  {
  }

  lemma QuietKeepsTable(s: State, pid: Pid, step: Step)
    requires Ready(s, pid, step) && IsQuiet(step)
    ensures DirsOK(ApplyQuiet(s, pid, s.procs[pid], step))
  {
  }

  lemma QuietMoves(s: State, pid: Pid, step: Step)
    requires Ready(s, pid, step) && IsQuiet(step)
    ensures OnlyMoves(s, ApplyQuiet(s, pid, s.procs[pid], step), pid)
  {
    hide DirsOK, OnTime, Claimable, RecordAccepted;
  }

  // ---------------------------------------------------------------- lease steps

  lemma SetLeaseGuarantees(s: State, s': State, held: Option<Name>, watched: Option<Name>, n: Name, lease: Option<nat>)
    requires s'.now == s.now && s'.nextOp == s.nextOp && s'.dirs == SetLease(s, n, lease).dirs
    requires held == Some(n) ==> n.form == AbandonedForm || LeaseLater(lease, s.now)
    requires held != Some(n) ==> watched == Some(n) && lease.Some? && lease.value > s.now
    ensures Guarantee(s, s', held, watched)
  {
  }

  lemma InstallGuarantees(s: State, pid: Pid, step: Step)
    requires Ready(s, pid, step) && IsInstall(step)
    ensures Guaranteed(s, ApplyInstall(s, pid, s.procs[pid], step), s.procs[pid].phase)
  {
    var proc := s.procs[pid];
    var ph := proc.phase;
    var s' := ApplyInstall(s, pid, proc, step);
    match step
    case InstallClaim => SetLeaseGuarantees(s, s', Held(ph), Watched(ph), ph.path, Some(ph.stamp));
    case InstallAgain => SetLeaseGuarantees(s, s', Held(ph), Watched(ph), ph.name, Some(ph.stamp));
    case InstallFirst => SetLeaseGuarantees(s, s', Held(ph), Watched(ph), ph.name, Some(ph.stamp));
    case BeatInstall => SetLeaseGuarantees(s, s', Held(ph), Watched(ph), Held(ph).value, proc.beat);
    case DropLease => SetLeaseGuarantees(s, s', Held(ph), Watched(ph), ph.name, None);
    case MarkAbandoned => SetLeaseGuarantees(s, s', Held(ph), Watched(ph), ph.name, Some(0));
  }

  lemma InstallKeepsOwn(s: State, pid: Pid, step: Step)
    requires Ready(s, pid, step) && IsInstall(step)
    ensures OwnOK(ApplyInstall(s, pid, s.procs[pid], step), pid)
  {
    hide DirsOK, Claimable, RecordAccepted;
  }

  lemma SameInodesKeepTable(s: State, s': State)
    requires DirsOK(s) && s'.nextOp == s.nextOp && s'.dirs.Keys == s.dirs.Keys
    requires forall n :: n in s.dirs ==> s'.dirs[n].inode == s.dirs[n].inode
    ensures DirsOK(s')
  {
  }

  lemma InstallKeepsTable(s: State, pid: Pid, step: Step)
    requires Ready(s, pid, step) && IsInstall(step)
    ensures DirsOK(ApplyInstall(s, pid, s.procs[pid], step))
  {
    SameInodesKeepTable(s, ApplyInstall(s, pid, s.procs[pid], step));
  }

  lemma InstallMoves(s: State, pid: Pid, step: Step)
    requires Ready(s, pid, step) && IsInstall(step)
    ensures OnlyMoves(s, ApplyInstall(s, pid, s.procs[pid], step), pid)
  {
    hide DirsOK, ProcOK, OnTime, Claimable, RecordAccepted;
  }

  // ---------------------------------------------------------------- metadata steps

  lemma SetMetaGuarantees(s: State, s': State, n: Name, meta: Meta)
    requires s'.now == s.now && s'.nextOp == s.nextOp && s'.dirs == SetMeta(s, n, meta).dirs
    requires n.form != AbandonedForm && (n in s.dirs ==> LeaseLater(s.dirs[n].lease, s.now))
    ensures Guarantee(s, s', Some(n), None)
  {
  }

  lemma MetaWriteGuarantees(s: State, pid: Pid, step: Step)
    requires Ready(s, pid, step) && IsMetaWrite(step)
    ensures Guaranteed(s, ApplyMetaWrite(s, pid, s.procs[pid], step), s.procs[pid].phase)
  {
    hide Claimable;
    var proc := s.procs[pid];
    var n := Held(proc.phase).value;
    var s' := ApplyMetaWrite(s, pid, proc, step);
    if s'.dirs != s.dirs {
      SetMetaGuarantees(s, s', n, s'.dirs[n].meta.value);
    }
  }

  lemma MetaWriteKeepsOwn(s: State, pid: Pid, step: Step)
    requires Ready(s, pid, step) && IsMetaWrite(step)
    ensures OwnOK(ApplyMetaWrite(s, pid, s.procs[pid], step), pid)
  {
  }

  lemma MetaWriteKeepsTable(s: State, pid: Pid, step: Step)
    requires Ready(s, pid, step) && IsMetaWrite(step)
    ensures DirsOK(ApplyMetaWrite(s, pid, s.procs[pid], step))
  {
    SameInodesKeepTable(s, ApplyMetaWrite(s, pid, s.procs[pid], step));
  }

  lemma MetaWriteMoves(s: State, pid: Pid, step: Step)
    requires Ready(s, pid, step) && IsMetaWrite(step)
    ensures OnlyMoves(s, ApplyMetaWrite(s, pid, s.procs[pid], step), pid)
  {
    hide DirsOK, ProcOK, OnTime, Claimable, RecordAccepted;
  }

  // ---------------------------------------------------------------- creating, renaming, removing

  lemma RenameGuarantees(s: State, pid: Pid, step: Step)
    requires Ready(s, pid, step) && IsRename(step)
    ensures Guaranteed(s, ApplyRename(s, pid, s.procs[pid], step), s.procs[pid].phase)
  {
  }

  lemma RenameKeepsOwn(s: State, pid: Pid, step: Step)
    requires Ready(s, pid, step) && IsRename(step)
    ensures OwnOK(ApplyRename(s, pid, s.procs[pid], step), pid)
  {
  }

  lemma RenameKeepsTable(s: State, pid: Pid, step: Step)
    requires Ready(s, pid, step) && IsRename(step)
    ensures DirsOK(ApplyRename(s, pid, s.procs[pid], step))
  {
    hide ProcOK, OnTime, RecordAccepted, Claimable;
  }

  lemma RenameMoves(s: State, pid: Pid, step: Step)
    requires Ready(s, pid, step) && IsRename(step)
    ensures OnlyMoves(s, ApplyRename(s, pid, s.procs[pid], step), pid)
  {
    hide DirsOK, ProcOK, OnTime, Claimable, RecordAccepted;
  }

  // ---------------------------------------------------------------- any step of one attempt

  lemma StepGuarantees(s: State, pid: Pid, step: Step)
    requires Ready(s, pid, step)
    ensures var s' := ApplyFor(s, pid, s.procs[pid], step);
            && Guaranteed(s, s', s.procs[pid].phase)
            && OwnOK(s', pid)
            && DirsOK(s')
            && OnlyMoves(s, s', pid)
  {
    if IsQuiet(step) {
      QuietGuarantees(s, pid, step); QuietKeepsOwn(s, pid, step); QuietKeepsTable(s, pid, step); QuietMoves(s, pid, step);
    } else if IsInstall(step) {
      InstallGuarantees(s, pid, step); InstallKeepsOwn(s, pid, step); InstallKeepsTable(s, pid, step); InstallMoves(s, pid, step);
    } else if IsMetaWrite(step) {
      MetaWriteGuarantees(s, pid, step); MetaWriteKeepsOwn(s, pid, step); MetaWriteKeepsTable(s, pid, step); MetaWriteMoves(s, pid, step);
    } else {
      RenameGuarantees(s, pid, step); RenameKeepsOwn(s, pid, step);
      RenameKeepsTable(s, pid, step); RenameMoves(s, pid, step);
    }
  }

  /** Every other attempt's invariant survives a guaranteed step. */
  lemma OthersRely(s: State, s': State, p: Proc, q: Proc)
    requires DirsOK(s) && ProcOK(s, p) && ProcOK(s, q) && Apart(p, q) && Apart(q, p)
    requires OnTime(s.now, s.dirs, q)
    requires Guaranteed(s, s', p.phase)
    ensures ProcOK(s', q) && OnTime(s'.now, s'.dirs, q)
  {
  }

  /** What an attempt holds or watches was named before now. */
  lemma NamesAreUsed(s: State, q: Proc)
    requires DirsOK(s) && ProcOK(s, q)
    ensures Held(q.phase).Some? ==> Held(q.phase).value.op < s.nextOp
    ensures Watched(q.phase).Some? ==> Watched(q.phase).value.op < s.nextOp
    ensures Target(q.phase).Some? ==> Target(q.phase).value.op < s.nextOp
  {
  }

  lemma MovesStayApart(s: State, p: Proc, p': Proc, q: Proc)
    requires DirsOK(s) && ProcOK(s, q) && OnTime(s.now, s.dirs, q)
    requires Apart(p, q) && Apart(q, p) && Moves(s, p.phase, p'.phase)
    ensures Apart(p', q) && Apart(q, p')
  {
    NamesAreUsed(s, q);
  }

  /** A step changes the claim history only by the name a claim just renamed away. */
  lemma StepClaims(s: State, pid: Pid, step: Step)
    requires Ready(s, pid, step) && ClaimsOK(s)
    requires Guaranteed(s, ApplyFor(s, pid, s.procs[pid], step), s.procs[pid].phase)
    ensures ClaimsOK(ApplyFor(s, pid, s.procs[pid], step))
  {
    var s' := ApplyFor(s, pid, s.procs[pid], step);
    if step.RenameClaim? {
      var path := s.procs[pid].phase.path;
      assert s'.claims == s.claims + [path];
      assert path !in s'.dirs && path.op < s'.nextOp;
    } else {
      assert s'.claims == s.claims;
    }
  }
}
