/** When startup recovery leaves live owners alone. Recovery reads a lease before it reads the clock,
    so an owner that renews or drops its lease in between can lose its directory; the exact guard
    that would prevent it, and what holds wherever that guard is met. */
module StagingCare {
  import opened Common
  import opened StagingRules
  import opened StagingProtocol
  import opened StagingProof
  import opened StagingTheorems

  // ---------------------------------------------------------------- careful runs

  /** What a step removes: the name its attempt holds, takes over or reclaims. */
  predicate RemovesOnly(s: State, s': State, ph: Phase) {
    forall n :: n in s.dirs && n !in s'.dirs ==> Held(ph) == Some(n) || Watched(ph) == Some(n) || Target(ph) == Some(n)
  }

  lemma StepRemovesOnly(s: State, pid: Pid, step: Step)
    requires Ready(s, pid, step)
    ensures RemovesOnly(s, ApplyFor(s, pid, s.procs[pid], step), s.procs[pid].phase)
  {
    hide ProcOK, DirsOK, OnTime, RecordAccepted, Claimable;
  }

  /** What an attempt holds after its own step is in place. */
  lemma StepStaysInPlace(s: State, pid: Pid, step: Step)
    requires Ready(s, pid, step) && (Held(s.procs[pid].phase).Some? ==> Held(s.procs[pid].phase).value in s.dirs)
    ensures var s' := ApplyFor(s, pid, s.procs[pid], step);
            pid in s'.procs && Held(s'.procs[pid].phase).Some? ==> Held(s'.procs[pid].phase).value in s'.dirs
  {
    hide ProcOK, DirsOK, OnTime, RecordAccepted, Claimable;
  }

  /** Recovery goes after a new name only when the clock has reached the expiry it read. */
  lemma StepTargets(s: State, pid: Pid, step: Step)
    requires Ready(s, pid, step)
    ensures var s' := ApplyFor(s, pid, s.procs[pid], step);
            && (pid in s'.procs && Target(s'.procs[pid].phase).Some? ==>
                  || Target(s'.procs[pid].phase) == Target(s.procs[pid].phase)
                  || (step.ReadClock? && Passes(s, pid) && Target(s'.procs[pid].phase) == Some(s.procs[pid].phase.path)))
            && (pid in s'.procs && s'.procs[pid].phase.Judged? && s'.procs[pid].phase.path in s'.dirs ==>
                  s'.dirs[s'.procs[pid].phase.path].meta == s'.procs[pid].phase.identity)
  {
    hide ProcOK, DirsOK, OnTime, RecordAccepted, Claimable;
  }

  /** If this event is a clock reading that lets a recovery go on, nobody owns the name. */
  ghost predicate Sparing(s: State, e: Event) {
    e.step.ReadClock? && Passes(s, e.pid) ==> forall p :: !Holds(s, p, s.procs[e.pid].phase.path)
  }

  /** A careful clock reading is of a name nobody owns. */
  lemma CarefulIsSparing(s: State, e: Event)
    requires Inv(s) && Undisturbed(s) && Careful(s, e)
    ensures Sparing(s, e)
  {
    hide DirsOK, ProcOK, AllApart, ClaimsOK;
    forall p | p in s.procs ensures OnTime(s.now, s.dirs, s.procs[p]) {}
  }

  lemma OrdinaryStepKeepsUndisturbed(s: State, pid: Pid, step: Step)
    requires Inv(s) && Undisturbed(s) && pid in s.procs && EnabledFor(s, s.procs[pid], step)
    requires Sparing(s, Event(pid, step))
    ensures Undisturbed(ApplyFor(s, pid, s.procs[pid], step))
  {
    hide ApplyFor, EnabledFor, ProcOK, OnTime, DirsOK, ClaimsOK, Sparing;
    var p := s.procs[pid];
    var s' := ApplyFor(s, pid, p, step);
    assert Ready(s, pid, step);
    StepGuarantees(s, pid, step);
    StepRemovesOnly(s, pid, step);
    StepStaysInPlace(s, pid, step);
    StepTargets(s, pid, step);
    forall q | q in s'.procs && q != pid ensures OtherUndisturbed(s', s'.procs[q]) {
      OtherStaysUndisturbed(s, s', pid, q);
    }
    forall q, r | q in s'.procs && r in s'.procs && Held(s'.procs[q].phase).Some?
      ensures Target(s'.procs[r].phase) != Held(s'.procs[q].phase)
    {
      StaysApartFromTarget(s, s', pid, step, q, r);
    }
  }

  predicate OtherUndisturbed(s: State, q: Proc) {
    && (Held(q.phase).Some? ==> Held(q.phase).value in s.dirs)
    && (q.phase.Judged? && q.phase.path in s.dirs ==> s.dirs[q.phase.path].meta == q.phase.identity)
  }

  lemma OtherStaysUndisturbed(s: State, s': State, pid: Pid, q: Pid)
    requires Inv(s) && Undisturbed(s) && pid in s.procs && q in s.procs && q != pid
    requires Guaranteed(s, s', s.procs[pid].phase) && RemovesOnly(s, s', s.procs[pid].phase)
    ensures OtherUndisturbed(s', s.procs[q])
  {
    hide ProcOK, OnTime, DirsOK, ClaimsOK;
    assert Apart(s.procs[pid], s.procs[q]) && Apart(s.procs[q], s.procs[pid]);
    assert ProcOK(s, s.procs[q]);
    NamesAreUsed(s, s.procs[q]);
  }

  lemma StaysApartFromTarget(s: State, s': State, pid: Pid, step: Step, q: Pid, r: Pid)
    requires Inv(s) && Undisturbed(s) && Ready(s, pid, step) && Sparing(s, Event(pid, step))
    requires s' == ApplyFor(s, pid, s.procs[pid], step) && OnlyMoves(s, s', pid)
    requires q in s'.procs && r in s'.procs && Held(s'.procs[q].phase).Some?
    ensures Target(s'.procs[r].phase) != Held(s'.procs[q].phase)
  {
    hide ApplyFor, EnabledFor, ProcOK, OnTime, DirsOK, ClaimsOK;
    StepTargets(s, pid, step);
    assert ProcOK(s, s.procs[pid]) && (r in s.procs ==> ProcOK(s, s.procs[r]));
    if r in s.procs { NamesAreUsed(s, s.procs[r]); }
    if step.ReadClock? && Passes(s, pid) {
      assert !Holds(s, q, s.procs[pid].phase.path);
      ReadNameIsUsed(s, pid);
    }
  }

  lemma ReadNameIsUsed(s: State, r: Pid)
    requires Inv(s) && Passes(s, r)
    ensures s.procs[r].phase.path.op < s.nextOp
  {
    assert ProcOK(s, s.procs[r]);
  }

  lemma StepKeepsUndisturbed(s: State, e: Event)
    requires Inv(s) && Undisturbed(s) && Enabled(s, e) && Sparing(s, e)
    ensures Undisturbed(Apply(s, e))
  {
    hide ApplyFor, EnabledFor, ProcOK, OnTime, DirsOK, ClaimsOK, AllApart, Sparing;
    if !(e.step.Begin? || e.step.Tick? || e.step.Examine?) {
      OrdinaryStepKeepsUndisturbed(s, e.pid, e.step);
    }
  }

  /** Along a careful run every owner keeps its directory. */
  lemma {:induction false} CarefulRunKeepsUndisturbed(s: State, run: seq<Event>)
    requires Inv(s) && Undisturbed(s) && Valid(s, run) && CarefulRun(s, run)
    ensures Inv(After(s, run)) && Undisturbed(After(s, run))
    decreases |run|
  {
    hide Enabled, Apply, Inv, Undisturbed, Careful;
    if run != [] {
      StepKeepsInv(s, run[0]);
      CarefulIsSparing(s, run[0]);
      StepKeepsUndisturbed(s, run[0]);
      CarefulRunKeepsUndisturbed(Apply(s, run[0]), run[1..]);
    }
  }

  lemma StartIsUndisturbed(s: State)
    requires Start(s)
    ensures Inv(s) && Undisturbed(s)
  {
  }

  /** On careful runs every owner's directory is in place. */
  lemma OwnersKeepTheirDirectories(s: State, run: seq<Event>, p: Pid)
    requires Start(s) && Valid(s, run) && CarefulRun(s, run)
    ensures var t := After(s, run);
            p in t.procs && Held(t.procs[p].phase).Some? ==> Held(t.procs[p].phase).value in t.dirs
  {
    StartIsUndisturbed(s);
    CarefulRunKeepsUndisturbed(s, run);
  }

  lemma SparesOwnedNow(t: State, r: Pid, p: Pid)
    requires Inv(t) && Undisturbed(t) && Enabled(t, Event(r, Reclaim))
    requires p in t.procs && Held(t.procs[p].phase).Some?
    ensures var n := Held(t.procs[p].phase).value;
            n in t.dirs && n in Apply(t, Event(r, Reclaim)).dirs && Apply(t, Event(r, Reclaim)).dirs[n] == t.dirs[n]
  {
    hide AllApart, AllOnTime, ClaimsOK;
    assert ProcOK(t, t.procs[p]);
    NamesAreUsed(t, t.procs[p]);
  }

  /** On careful runs recovery, beside any attempts, leaves every owned directory as it is. */
  lemma RecoverySparesOwned(s: State, run: seq<Event>, r: Pid, p: Pid)
    requires Start(s) && Valid(s, run) && CarefulRun(s, run)
    requires Enabled(After(s, run), Event(r, Reclaim))
    requires p in After(s, run).procs && Held(After(s, run).procs[p].phase).Some?
    ensures var t := After(s, run);
            var n := Held(t.procs[p].phase).value;
            n in t.dirs && n in Apply(t, Event(r, Reclaim)).dirs && Apply(t, Event(r, Reclaim)).dirs[n] == t.dirs[n]
  {
    hide Apply, Enabled, Inv, Undisturbed;
    StartIsUndisturbed(s);
    CarefulRunKeepsUndisturbed(s, run);
    SparesOwnedNow(After(s, run), r, p);
  }

  lemma ReclaimLosesNothingResumable(s: State, path: Name, n: Name)
    requires DirsOK(s) && path in s.dirs && n in s.dirs && Adoptable(n.form, s.dirs[n].meta)
    ensures var s' := ApplyRecovery(s, path, s.dirs[path].meta);
            exists m :: m in s'.dirs && s'.dirs[m] == s.dirs[n] && Adoptable(m.form, s'.dirs[m].meta)
  {
    var s' := ApplyRecovery(s, path, s.dirs[path].meta);
    if n == path && path.form == ActiveForm {
      assert s'.dirs[Name(AbandonedForm, s.nextOp)] == s.dirs[n];
    } else {
      assert n in s'.dirs && s'.dirs[n] == s.dirs[n];
    }
  }

  /** On careful runs recovery, beside any attempts, loses no directory a resume could use. */
  lemma RecoveryLosesNothingResumable(s: State, run: seq<Event>, r: Pid, n: Name)
    requires Start(s) && Valid(s, run) && CarefulRun(s, run)
    requires Enabled(After(s, run), Event(r, Reclaim))
    requires n in After(s, run).dirs && Adoptable(n.form, After(s, run).dirs[n].meta)
    ensures var t := After(s, run);
            var t' := Apply(t, Event(r, Reclaim));
            exists m :: m in t'.dirs && t'.dirs[m] == t.dirs[n] && Adoptable(m.form, t'.dirs[m].meta)
  {
    StartIsUndisturbed(s);
    CarefulRunKeepsUndisturbed(s, run);
    var t := After(s, run);
    var path := t.procs[r].phase.path;
    if path in t.dirs {
      ReclaimLosesNothingResumable(t.(procs := t.procs - {r}), path, n);
    } else {
      assert Apply(t, Event(r, Reclaim)).dirs == t.dirs;
    }
  }
}
