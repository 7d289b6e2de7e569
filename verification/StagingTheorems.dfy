/** What the staging protocol guarantees in every run. */
module StagingTheorems {
  import opened Common
  import opened StagingRules
  import opened StagingProtocol
  import opened StagingProof

  // ---------------------------------------------------------------- the invariant over runs

  lemma OrdinaryStepKeepsInv(s: State, pid: Pid, step: Step)
    requires Inv(s) && pid in s.procs && EnabledFor(s, s.procs[pid], step)
    ensures Inv(ApplyFor(s, pid, s.procs[pid], step))
  {
    var p := s.procs[pid];
    var s' := ApplyFor(s, pid, p, step);
    StepGuarantees(s, pid, step);
    StepClaims(s, pid, step);
    forall q | q in s'.procs && q != pid
      ensures ProcOK(s', s'.procs[q]) && OnTime(s'.now, s'.dirs, s'.procs[q])
    {
      OthersRely(s, s', p, s.procs[q]);
    }
    forall q | q in s'.procs && q != pid && pid in s'.procs
      ensures Apart(s'.procs[pid], s'.procs[q]) && Apart(s'.procs[q], s'.procs[pid])
    {
      MovesStayApart(s, p, s'.procs[pid], s.procs[q]);
    }
    assert AllApart(s');
  }

  lemma ArrivalKeepsInv(s: State, pid: Pid, proc: Proc)
    requires Inv(s) && pid !in s.procs
    requires ProcOK(s, proc) && OnTime(s.now, s.dirs, proc) && Moves(s, Scanning(0), proc.phase) && Held(proc.phase) == None
    ensures Inv(s.(procs := s.procs[pid := proc]))
  {
    var s' := s.(procs := s.procs[pid := proc]);
    forall q | q in s'.procs
      ensures ProcOK(s', s'.procs[q])
    {
      assert ProcOK(s, s'.procs[q]);
    }
    forall q | q in s.procs
      ensures Apart(proc, s.procs[q]) && Apart(s.procs[q], proc)
    {
      NamesAreUsed(s, s.procs[q]);
    }
  }

  lemma TickKeepsInv(s: State, to: nat)
    requires Inv(s) && s.now <= to && AllOnTime(to, s)
    ensures Inv(s.(now := to))
  {
    forall q | q in s.procs
      ensures ProcOK(s.(now := to), s.procs[q])
    {
      assert ProcOK(s, s.procs[q]);
    }
  }

  lemma StepKeepsInv(s: State, e: Event)
    requires Inv(s) && Enabled(s, e)
    ensures Inv(Apply(s, e))
  {
    hide ApplyFor, EnabledFor, AllApart, ClaimsOK;
    if e.step.Tick? {
      TickKeepsInv(s, e.step.to);
    } else if e.step.Begin? {
      ArrivalKeepsInv(s, e.pid, Proc(e.step.request, Scanning(s.now), None));
    } else if e.step.Examine? {
      ArrivalKeepsInv(s, e.pid, Recoverer(LeaseRead(e.step.path, s.dirs[e.step.path].lease.value)));
    } else {
      OrdinaryStepKeepsInv(s, e.pid, e.step);
    }
  }

  lemma {:induction false} RunKeepsInv(s: State, run: seq<Event>)
    requires Inv(s) && Valid(s, run)
    ensures Inv(After(s, run))
    decreases |run|
  {
    if run != [] {
      StepKeepsInv(s, run[0]);
      RunKeepsInv(Apply(s, run[0]), run[1..]);
    }
  }

  // ---------------------------------------------------------------- ownership

  /** In every run, two attempts never own one directory, however it has been renamed. */
  lemma NoDirectoryHasTwoOwners(s: State, run: seq<Event>, p: Pid, q: Pid)
    requires Start(s) && Valid(s, run)
    ensures var t := After(s, run);
            p in t.procs && q in t.procs && Held(t.procs[p].phase).Some? && Held(t.procs[q].phase).Some? ==>
              var n, m := Held(t.procs[p].phase).value, Held(t.procs[q].phase).value;
              n in t.dirs && m in t.dirs ==> (t.dirs[n].inode == t.dirs[m].inode <==> p == q)
  {
    RunKeepsInv(s, run);
    var t := After(s, run);
    if p in t.procs && q in t.procs && p != q {
      assert Apart(t.procs[p], t.procs[q]);
    }
  }

  /** In every run, a directory whose lease reads as expired has no live owner. */
  lemma ExpiredMeansNoOwner(s: State, run: seq<Event>, n: Name, p: Pid)
    requires Start(s) && Valid(s, run)
    ensures var t := After(s, run);
            LeaseExpired(t, n) && p in t.procs ==> Held(t.procs[p].phase) != Some(n)
  {
    RunKeepsInv(s, run);
    var t := After(s, run);
    if p in t.procs {
      assert OnTime(t.now, t.dirs, t.procs[p]);
    }
  }

  /** In every run, a name is claimed at most once: at most one retry resumes it. */
  lemma EachNameIsClaimedOnce(s: State, run: seq<Event>)
    requires Start(s) && Valid(s, run)
    ensures var claims := After(s, run).claims;
            forall i, j :: 0 <= i < j < |claims| ==> claims[i] != claims[j]
  {
    RunKeepsInv(s, run);
  }

  // ---------------------------------------------------------------- what is recorded

  /** How recorded metadata may develop: identity fixed, commit written once, selection changed
      only from unrestricted. */
  predicate Develops(meta: Option<Meta>, meta': Option<Meta>) {
    meta.Some? ==>
      && meta'.Some?
      && meta'.value.identity == meta.value.identity
      && (meta.value.commit.Some? ==> meta'.value.commit == meta.value.commit)
      && (meta.value.files != [] ==> meta'.value.files == meta.value.files)
  }

  /** Every directory of `s'` that existed in `s` is there, and its metadata has developed. */
  predicate Developed(s: State, s': State) {
    && s.nextOp <= s'.nextOp
    && (forall m :: m in s'.dirs && s'.dirs[m].inode < s.nextOp ==> exists n :: n in s.dirs && s.dirs[n].inode == s'.dirs[m].inode)
    && (forall n, m :: n in s.dirs && m in s'.dirs && s.dirs[n].inode == s'.dirs[m].inode ==> Develops(s.dirs[n].meta, s'.dirs[m].meta))
  }

  /** The same, with the name each directory had before. */
  lemma DevelopedByName(s: State, s': State, before: map<Name, Name>)
    requires DirsOK(s) && s.nextOp <= s'.nextOp
    requires forall m :: m in s'.dirs && s'.dirs[m].inode < s.nextOp ==>
               && m in before && before[m] in s.dirs
               && s.dirs[before[m]].inode == s'.dirs[m].inode
               && Develops(s.dirs[before[m]].meta, s'.dirs[m].meta)
    ensures Developed(s, s')
  {
    forall m | m in s'.dirs && s'.dirs[m].inode < s.nextOp
      ensures exists n :: n in s.dirs && s.dirs[n].inode == s'.dirs[m].inode
    {
      assert before[m] in s.dirs;
    }
  }

  lemma SameDirsDevelop(s: State, s': State)
    requires DirsOK(s) && s'.dirs.Keys <= s.dirs.Keys && s.nextOp <= s'.nextOp
    requires forall n :: n in s'.dirs ==> s'.dirs[n].inode == s.dirs[n].inode && Develops(s.dirs[n].meta, s'.dirs[n].meta)
    ensures Developed(s, s')
  {
    DevelopedByName(s, s', map m | m in s'.dirs :: m);
  }

  lemma RenamedDirsDevelop(s: State, s': State, path: Name, to: Name)
    requires DirsOK(s) && s.nextOp <= s'.nextOp && path in s.dirs
    requires s'.dirs == (s.dirs - {path})[to := s.dirs[path]]
    ensures Developed(s, s')
  {
    DevelopedByName(s, s', map m | m in s'.dirs :: if m == to then path else m);
  }

  lemma MetaStepDevelops(s: State, pid: Pid, step: Step)
    requires Ready(s, pid, step) && IsMetaWrite(step)
    ensures var s' := ApplyMetaWrite(s, pid, s.procs[pid], step);
            forall n :: n in s'.dirs ==> s'.dirs[n].inode == s.dirs[n].inode && Develops(s.dirs[n].meta, s'.dirs[n].meta)
  {
    hide DirsOK, OnTime;
  }

  lemma InstallKeepsMeta(s: State, pid: Pid, step: Step)
    requires Ready(s, pid, step) && IsInstall(step)
    ensures var s' := ApplyInstall(s, pid, s.procs[pid], step);
            forall n :: n in s'.dirs ==> s'.dirs[n].inode == s.dirs[n].inode && s'.dirs[n].meta == s.dirs[n].meta
  {
  }

  lemma RenameDevelops(s: State, pid: Pid, step: Step)
    requires Ready(s, pid, step) && IsRename(step)
    ensures Developed(s, ApplyRename(s, pid, s.procs[pid], step))
  {
    var ph := s.procs[pid].phase;
    var s' := ApplyRename(s, pid, s.procs[pid], step);
    match step
    case RenameClaim => RenamedDirsDevelop(s, s', ph.path, Name(ActiveForm, s.nextOp));
    case Preserve => RenamedDirsDevelop(s, s', ph.name, Name(AbandonedForm, s.nextOp));
    case MakeDir(form) => DevelopedByName(s, s', map m | m in s'.dirs :: m);
    case Reclaim =>
      if ph.path in s.dirs && ph.path !in s'.dirs && s'.nextOp != s.nextOp {
        RenamedDirsDevelop(s, s', ph.path, Name(AbandonedForm, s.nextOp));
      } else {
        SameDirsDevelop(s, s');
      }
    case _ => SameDirsDevelop(s, s');
  }

  lemma SameMetasDevelop(s: State, s': State)
    requires DirsOK(s) && s'.dirs.Keys == s.dirs.Keys && s.nextOp == s'.nextOp
    requires forall n :: n in s'.dirs ==> s'.dirs[n].inode == s.dirs[n].inode && s'.dirs[n].meta == s.dirs[n].meta
    ensures Developed(s, s')
  {
    hide Developed;
    SameDirsDevelop(s, s');
  }

  lemma OrdinaryStepDevelops(s: State, pid: Pid, step: Step)
    requires Ready(s, pid, step)
    ensures Developed(s, ApplyFor(s, pid, s.procs[pid], step))
  {
    hide EnabledFor, ProcOK, OnTime, Developed, DirsOK, Develops, ApplyRename, ApplyMetaWrite, ApplyInstall, ApplyQuiet;
    if IsQuiet(step) {
      SameMetasDevelop(s, ApplyQuiet(s, pid, s.procs[pid], step));
    } else if IsInstall(step) {
      InstallKeepsMeta(s, pid, step);
      SameMetasDevelop(s, ApplyInstall(s, pid, s.procs[pid], step));
    } else if IsMetaWrite(step) {
      MetaStepDevelops(s, pid, step);
      SameDirsDevelop(s, ApplyMetaWrite(s, pid, s.procs[pid], step));
    } else {
      RenameDevelops(s, pid, step);
    }
  }

  lemma StepDevelops(s: State, e: Event)
    requires Inv(s) && Enabled(s, e)
    ensures Developed(s, Apply(s, e))
  {
    hide ApplyFor, EnabledFor, ProcOK, OnTime, AllApart, ClaimsOK, Developed;
    var s' := Apply(s, e);
    if e.step.Begin? || e.step.Tick? || e.step.Examine? {
      SameDirsDevelop(s, s');
    } else {
      OrdinaryStepDevelops(s, e.pid, e.step);
    }
  }

  lemma DevelopmentComposes(a: State, b: State, c: State)
    requires DirsOK(a) && Developed(a, b) && Developed(b, c)
    ensures Developed(a, c)
  {
    forall m | m in c.dirs && c.dirs[m].inode < a.nextOp
      ensures exists n :: n in a.dirs && a.dirs[n].inode == c.dirs[m].inode
    {
      var k :| k in b.dirs && b.dirs[k].inode == c.dirs[m].inode;
    }
    forall n, m | n in a.dirs && m in c.dirs && a.dirs[n].inode == c.dirs[m].inode
      ensures Develops(a.dirs[n].meta, c.dirs[m].meta)
    {
      var k :| k in b.dirs && b.dirs[k].inode == c.dirs[m].inode;
    }
  }

  /** Over any chain of interruption, preservation, recovery, adoption and resume: a directory's
      recorded commit is written once, and its selection changes at most once, from unrestricted. */
  lemma {:induction false} RecordsAreWrittenOnce(s: State, run: seq<Event>)
    requires Inv(s) && Valid(s, run)
    ensures Developed(s, After(s, run))
    decreases |run|
  {
    hide Enabled, Apply, Developed, AllProcsOK, AllApart, ClaimsOK, AllOnTime;
    if run == [] {
      SameDirsDevelop(s, s);
    } else {
      StepDevelops(s, run[0]);
      StepKeepsInv(s, run[0]);
      RecordsAreWrittenOnce(Apply(s, run[0]), run[1..]);
      DevelopmentComposes(s, Apply(s, run[0]), After(s, run));
    }
  }

  /** A resumed attempt works under its own identity and selection, and its directory records
      exactly the commit it was told to resume. */
  lemma ResumedWorkIsPinned(s: State, run: seq<Event>, p: Pid)
    requires Start(s) && Valid(s, run)
    requires p in After(s, run).procs && After(s, run).procs[p].phase.Working?
    requires After(s, run).procs[p].phase.resume.Some?
    ensures var t := After(s, run);
            var proc := t.procs[p];
            proc.phase.name in t.dirs ==>
              t.dirs[proc.phase.name].meta == Some(Meta(proc.request.identity, proc.request.files, proc.phase.resume))
  {
    RunKeepsInv(s, run);
    assert ProcOK(After(s, run), After(s, run).procs[p]);
  }

  /** A directory as another acquisition finds it. */
  function EntryOf(d: Dir): Entry {
    Entry(true, if d.lease.Some? then Expires(d.lease.value) else NoLease, d.meta)
  }

  /** In every run, while an attempt works in an active directory that is in place, a second acquisition of
      the same thing is refused as in flight. */
  lemma WorkIsInFlight(s: State, run: seq<Event>, p: Pid)
    requires Start(s) && Valid(s, run)
    requires p in After(s, run).procs && After(s, run).procs[p].phase.Working?
    requires After(s, run).procs[p].phase.name.form == ActiveForm
    ensures var (t, proc) := (After(s, run), After(s, run).procs[p]);
            var n := proc.phase.name;
            n in t.dirs ==> Acquire(ActiveForm, EntryOf(t.dirs[n]), proc.request, t.now) == InFlight
  {
    hide Acquire;
    RunKeepsInv(s, run);
    var t := After(s, run);
    var proc := t.procs[p];
    assert ProcOK(t, proc) && OnTime(t.now, t.dirs, proc);
    if proc.phase.name in t.dirs {
      InFlightIff(ActiveForm, EntryOf(t.dirs[proc.phase.name]), proc.request, t.now);
    }
  }

  // ---------------------------------------------------------------- leases

  /** No lease, and none about to be written, reaches further ahead than a lease lasts. */
  predicate LeasesBounded(s: State) {
    && (forall n :: n in s.dirs && s.dirs[n].lease.Some? ==> s.dirs[n].lease.value <= s.now + 120)
    && (forall p :: p in s.procs ==> ProcBounded(s.now, s.procs[p]))
  }

  predicate ProcBounded(now: nat, proc: Proc) {
    && (Stamp(proc.phase).Some? ==> Stamp(proc.phase).value <= now + 120)
    && (proc.beat.Some? ==> proc.beat.value <= now + 120)
  }

  lemma QuietKeepsBounds(s: State, pid: Pid, step: Step)
    requires LeasesBounded(s) && pid in s.procs && EnabledFor(s, s.procs[pid], step) && IsQuiet(step)
    ensures LeasesBounded(ApplyQuiet(s, pid, s.procs[pid], step))
  {
    hide Claimable;
    assert ProcBounded(s.now, s.procs[pid]);
  }

  lemma InstallKeepsBounds(s: State, pid: Pid, step: Step)
    requires LeasesBounded(s) && pid in s.procs && EnabledFor(s, s.procs[pid], step) && IsInstall(step)
    ensures LeasesBounded(ApplyInstall(s, pid, s.procs[pid], step))
  {
    assert ProcBounded(s.now, s.procs[pid]);
    hide Claimable, RecordAccepted, LeasesBounded, SetLease;
    var proc := s.procs[pid];
    var t := ApplyInstall(s, pid, proc, step);
    if step.InstallClaim? { LeaseKeepsBounds(s, proc.phase.path, Some(proc.phase.stamp), pid, t.procs[pid]); }
    else if step.InstallAgain? || step.InstallFirst? { LeaseKeepsBounds(s, proc.phase.name, Some(proc.phase.stamp), pid, t.procs[pid]); }
    else if step.BeatInstall? { LeaseKeepsBounds(s, Held(proc.phase).value, proc.beat, pid, t.procs[pid]); }
    else if step.DropLease? { LeaseKeepsBounds(s, proc.phase.name, None, pid, t.procs[pid]); }
    else { LeaseKeepsBounds(s, proc.phase.name, Some(0), pid, proc); }
  }

  lemma LeaseKeepsBounds(s: State, name: Name, lease: Option<nat>, pid: Pid, proc: Proc)
    requires LeasesBounded(s) && (lease.Some? ==> lease.value <= s.now + 120) && ProcBounded(s.now, proc)
    ensures var t := SetLease(s, name, lease);
            && t.procs == s.procs
            && LeasesBounded(t.(procs := t.procs[pid := proc])) && LeasesBounded(t.(procs := t.procs - {pid}))
  {
    hide ProcBounded;
  }

  lemma MetaWriteKeepsBounds(s: State, pid: Pid, step: Step)
    requires LeasesBounded(s) && pid in s.procs && EnabledFor(s, s.procs[pid], step) && IsMetaWrite(step)
    ensures LeasesBounded(ApplyMetaWrite(s, pid, s.procs[pid], step))
  {
    hide Claimable, RecordAccepted;
    assert ProcBounded(s.now, s.procs[pid]);
  }

  lemma RenameKeepsBounds(s: State, pid: Pid, step: Step)
    requires LeasesBounded(s) && pid in s.procs && EnabledFor(s, s.procs[pid], step) && IsRename(step)
    ensures LeasesBounded(ApplyRename(s, pid, s.procs[pid], step))
  {
    hide Claimable, RecordAccepted, Recover;
    assert ProcBounded(s.now, s.procs[pid]);
  }

  lemma OrdinaryStepKeepsBounds(s: State, pid: Pid, step: Step)
    requires LeasesBounded(s) && pid in s.procs && EnabledFor(s, s.procs[pid], step)
    ensures LeasesBounded(ApplyFor(s, pid, s.procs[pid], step))
  {
    hide EnabledFor, LeasesBounded, ApplyRename, ApplyMetaWrite, ApplyInstall, ApplyQuiet;
    if IsQuiet(step) { QuietKeepsBounds(s, pid, step); }
    else if IsInstall(step) { InstallKeepsBounds(s, pid, step); }
    else if IsMetaWrite(step) { MetaWriteKeepsBounds(s, pid, step); }
    else { RenameKeepsBounds(s, pid, step); }
  }

  lemma StepKeepsBounds(s: State, e: Event)
    requires LeasesBounded(s) && Enabled(s, e)
    ensures LeasesBounded(Apply(s, e)) && s.now <= Apply(s, e).now
  {
    hide ApplyFor, EnabledFor, OnTime;
    if !e.step.Tick? && !e.step.Begin? && !e.step.Examine? {
      OrdinaryStepKeepsBounds(s, e.pid, e.step);
      TimeStands(s, e.pid, e.step);
    }
  }

  lemma TimeStands(s: State, pid: Pid, step: Step)
    requires pid in s.procs && EnabledFor(s, s.procs[pid], step)
    ensures ApplyFor(s, pid, s.procs[pid], step).now == s.now
  {
    hide EnabledFor;
  }

  /** In every run from leases that reach at most 120 seconds ahead, they do so always: once the clock has gone
      that far past the last renewal, nobody is refused because of a directory whose owner has gone. */
  lemma {:induction false} LeasesRunOut(s: State, run: seq<Event>)
    requires LeasesBounded(s) && Valid(s, run)
    ensures LeasesBounded(After(s, run)) && s.now <= After(s, run).now
    decreases |run|
  {
    hide Enabled, Apply, LeasesBounded;
    if run != [] {
      StepKeepsBounds(s, run[0]);
      LeasesRunOut(Apply(s, run[0]), run[1..]);
    }
  }

  /** Every expiry is computed 120 seconds ahead, and a lease write puts the computed one in place: when a claim
      renews the old name and then the new one, when a fresh directory gets its first, and at every heartbeat. */
  lemma LeasesLast(s: State, pid: Pid, step: Step)
    requires pid in s.procs && EnabledFor(s, s.procs[pid], step)
    ensures var (ph, t) := (s.procs[pid].phase, ApplyFor(s, pid, s.procs[pid], step));
            && (step.StampClaim? || step.StampAgain? || step.StampFirst? ==>
                  pid in t.procs && Stamp(t.procs[pid].phase) == Some(s.now + 120))
            && (step.BeatStamp? ==> pid in t.procs && t.procs[pid].beat == Some(s.now + 120))
            && (step.InstallClaim? && ph.path in s.dirs ==> ph.path in t.dirs && t.dirs[ph.path].lease == Stamp(ph))
            && ((step.InstallAgain? || step.InstallFirst?) && ph.name in s.dirs ==> ph.name in t.dirs && t.dirs[ph.name].lease == Stamp(ph))
            && (step.BeatInstall? && Held(ph).value in s.dirs ==>
                  Held(ph).value in t.dirs && t.dirs[Held(ph).value].lease == s.procs[pid].beat && t.procs[pid].beat == None)
  {
  }

  /** An attempt that publishes or gives up takes its directory away, and no other. */
  lemma FinishedLeavesNothing(s: State, pid: Pid, step: Step)
    requires pid in s.procs && EnabledFor(s, s.procs[pid], step) && (step.PublishRename? || step.Remove?)
    ensures var t := ApplyFor(s, pid, s.procs[pid], step);
            t.dirs == s.dirs - {Held(s.procs[pid].phase).value} && pid !in t.procs
  {
  }

  // ---------------------------------------------------------------- progress

  lemma {:induction false} RunsCompose(s: State, run: seq<Event>, rest: seq<Event>)
    requires Valid(s, run) && Valid(After(s, run), rest)
    ensures Valid(s, run + rest) && After(s, run + rest) == After(After(s, run), rest)
    decreases |run|
  {
    hide Enabled, Apply;
    if run == [] {
      assert run + rest == rest;
    } else {
      RunsCompose(Apply(s, run[0]), run[1..], rest);
      assert (run + rest)[1..] == run[1..] + rest;
    }
  }

  lemma Append(s: State, run: seq<Event>, e: Event)
    requires Valid(s, run) && Enabled(After(s, run), e)
    ensures Valid(s, run + [e]) && After(s, run + [e]) == Apply(After(s, run), e)
  {
    RunsCompose(s, run, [e]);
  }

  lemma NothingHappens(s: State)
    ensures Valid(s, []) && After(s, []) == s
  {
  }

  /** Two more steps of `p`, taken one after the other. */
  lemma RenewsOldName(s: State, p: Pid) returns (run: seq<Event>)
    requires Inv(s) && p in s.procs && s.procs[p].phase.Expired? && s.procs[p].phase.path in s.dirs
    ensures Valid(s, run)
    ensures var (ph, t) := (s.procs[p].phase, After(s, run));
            && p in t.procs && t.procs[p].phase == Renewed(ph.start, ph.path, ph.found)
            && t.nextOp == s.nextOp && ph.path in t.dirs && t.dirs[ph.path].inode == s.dirs[ph.path].inode
  {
    hide Valid, After, Inv;
    NothingHappens(s);
    Append(s, [], Event(p, StampClaim));
    run := [] + [Event(p, StampClaim)];
    Append(s, run, Event(p, InstallClaim));
    run := run + [Event(p, InstallClaim)];
  }

  lemma RenewsNewName(s: State, p: Pid) returns (run: seq<Event>)
    requires Inv(s) && p in s.procs && s.procs[p].phase.Claimed? && s.procs[p].phase.name in s.dirs
    ensures Valid(s, run)
    ensures var (ph, t) := (s.procs[p].phase, After(s, run));
            && p in t.procs && t.procs[p].phase == Restamped(ph.name, ph.found)
            && ph.name in s.dirs && ph.name in t.dirs && t.dirs[ph.name].inode == s.dirs[ph.name].inode
  {
    hide Valid, After, Inv;
    NothingHappens(s);
    Append(s, [], Event(p, StampAgain));
    run := [] + [Event(p, StampAgain)];
    Append(s, run, Event(p, InstallAgain));
    run := run + [Event(p, InstallAgain)];
  }

  /** From reading an expired lease on, an attempt that keeps stepping alone ends up owning the
      directory under its own marker, with the commit it read. */
  lemma ClaimGoesThrough(s: State, p: Pid) returns (run: seq<Event>)
    requires Inv(s) && p in s.procs && s.procs[p].phase.Expired? && s.procs[p].phase.path in s.dirs
    ensures Valid(s, run)
    ensures Resumed(s, After(s, run), p, s.procs[p].phase.path, s.procs[p].phase.found.commit)
  {
    hide Inv, Valid, After;
    var was := s.procs[p].phase;
    run := RenewsOldName(s, p);
    RunKeepsInv(s, run);
    Append(s, run, Event(p, RenameClaim));
    run := run + [Event(p, RenameClaim)];
    RunKeepsInv(s, run);
    var rest := RenewsNewName(After(s, run), p);
    RunsCompose(s, run, rest);
    run := run + rest;
    Append(s, run, Event(p, Narrow));
    run := run + [Event(p, Narrow)];
  }

  /** `p` owns the directory `n` named in `s`, under the marker a claim in `s` would draw, and is
      told to resume `commit`. */
  predicate Resumed(s: State, t: State, p: Pid, n: Name, commit: Option<string>) {
    var marker := Name(ActiveForm, s.nextOp);
    && p in t.procs && t.procs[p].phase == Working(marker, commit)
    && n in s.dirs && marker in t.dirs && t.dirs[marker].inode == s.dirs[n].inode
  }

  /** Work that has resolved its commit can be put aside: recording the commit, preserving the directory and
      marking it abandoned leaves it, with everything it recorded and that commit, for any later request of
      the same thing to claim at once. */
  lemma PreservedIsAdoptable(s: State, p: Pid, commit: string) returns (run: seq<Event>)
    requires Inv(s) && p in s.procs && s.procs[p].phase.Working? && s.procs[p].phase.name in s.dirs
    requires RecordAccepted(s.dirs[s.procs[p].phase.name].meta, s.procs[p].request, commit)
    ensures Valid(s, run)
    ensures var (was, t, marker) := (s.dirs[s.procs[p].phase.name], After(s, run), Name(AbandonedForm, s.nextOp));
            && p !in t.procs && marker in t.dirs && t.dirs[marker].inode == was.inode
            && t.dirs[marker].meta == Some(was.meta.value.(commit := Some(commit)))
            && LeaseExpired(t, marker) && Acquire(AbandonedForm, EntryOf(t.dirs[marker]), s.procs[p].request, t.now) == Claim
  {
    hide Valid, After, Inv;
    NothingHappens(s);
    Append(s, [], Event(p, Record(commit)));
    run := [] + [Event(p, Record(commit))];
    Append(s, run, Event(p, Preserve));
    run := run + [Event(p, Preserve)];
    Append(s, run, Event(p, MarkAbandoned));
    run := run + [Event(p, MarkAbandoned)];
  }

  lemma FindsExpired(s: State, n: Name, request: Request, p: Pid) returns (run: seq<Event>)
    requires Inv(s) && p !in s.procs
    requires LeaseExpired(s, n) && n.form != OtherForm && s.dirs[n].meta.Some? && Claimable(s.dirs[n].meta.value, request)
    ensures Valid(s, run)
    ensures After(s, run) == s.(procs := s.procs[p := Proc(request, Expired(s.now, n, s.dirs[n].meta.value), None)])
  {
    hide Inv, Valid, After, Claimable;
    NothingHappens(s);
    Append(s, [], Event(p, Begin(request)));
    run := [] + [Event(p, Begin(request))];
    Append(s, run, Event(p, ReadMeta(n)));
    run := run + [Event(p, ReadMeta(n))];
    Append(s, run, Event(p, ReadLease));
    run := run + [Event(p, ReadLease)];
  }

  /** Beside any other attempts, a new attempt whose request matches an adoptable directory with
      an expired lease can resume it. */
  lemma AdoptableIsResumed(s: State, n: Name, request: Request, p: Pid) returns (run: seq<Event>)
    requires Inv(s) && p !in s.procs
    requires LeaseExpired(s, n) && Adoptable(n.form, s.dirs[n].meta) && Claimable(s.dirs[n].meta.value, request)
    ensures Valid(s, run)
    ensures Resumed(s, After(s, run), p, n, s.dirs[n].meta.value.commit)
  {
    run := FindsExpired(s, n, request, p);
    RunKeepsInv(s, run);
    var rest := ClaimGoesThrough(After(s, run), p);
    RunsCompose(s, run, rest);
    run := run + rest;
  }
}
