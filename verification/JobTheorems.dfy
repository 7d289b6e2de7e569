/** What every run of the job store keeps, and what a client of it may rely on. */
module JobTheorems {
  import opened Common
  import opened Selection
  import opened RequestHash
  import opened JobStore
  import opened JobRuns

  // ---------------------------------------------------------------- submission

  /** Creating a job, however far it gets. */
  lemma CreationKeeps(d: Disk, job: Job, draw: Draw)
    requires DiskOK(d) && FreshJob(d, job) && IsLive(job.state)
    requires job.keyHash.Some? ==> KeyIsFree(d, job)
    ensures var d' := Creation(d, job, draw);
            && Kept(d, d') && DiskOK(d')
            && d'.records == if draw.cut >= RECORD_WRITTEN then d.records[job.id := job] else d.records
  {
    var steps := CreationSteps(job);
    var prepared := DoAll(d, steps[..4]);
    if draw.cut < 4 {
      PreparationKeeps(d, job, draw.cut);
    } else {
      PreparationKeeps(d, job, 4);
      if draw.cut == 4 {
        if draw.released { ReservationKeeps(prepared, Unreserve(job.id)); KeptComposes(d, prepared, Do(prepared, Unreserve(job.id))); }
      } else {
        var written := Do(prepared, Write(job));
        NewRecordKeeps(prepared, job);
        KeptComposes(d, prepared, written);
        DoLast(d, steps, 5);
        if draw.cut > 5 {
          DoLast(d, steps, 6);
          ReservationKeeps(written, Unreserve(job.id));
          KeptComposes(d, written, Do(written, Unreserve(job.id)));
        }
      }
    }
  }

  /** Creating a job reserves its id while it lasts: the reservation is there from the first disk step until
      the record is written and indexed, or given back after a failed write, and no other is touched. */
  lemma CreationReserves(d: Disk, job: Job, draw: Draw)
    ensures Creation(d, job, draw).reserved
         == if draw.cut == 0 then d.reserved
            else if draw.cut > RECORD_WRITTEN || (draw.cut == RECORD_WRITTEN - 1 && draw.released) then d.reserved - {job.id}
            else d.reserved + {job.id}
  {
    hide DoAll;
    var steps := CreationSteps(job);
    var cut := if draw.cut <= 6 then draw.cut else 6;
    assert steps[..0] == [] && DoAll(d, []) == d by { NoSteps(d); }
    if cut >= 1 { DoLast(d, steps, 1); }
    if cut >= 2 { DoLast(d, steps, 2); }
    if cut >= 3 { DoLast(d, steps, 3); }
    if cut >= 4 { DoLast(d, steps, 4); }
    if cut >= 5 { DoLast(d, steps, 5); }
    if cut >= 6 { DoLast(d, steps, 6); }
  }

  lemma NoSteps(d: Disk)
    ensures DoAll(d, []) == d
  {
  }

  lemma DropKeeps(d: Disk, key: KeyHash)
    requires DiskOK(d) && (key in d.keys ==> d.keys[key].jobId !in d.records)
    ensures Kept(d, Do(d, DropKey(key))) && DiskOK(Do(d, DropKey(key)))
  {
    SameRecordsDevelop(d, Do(d, DropKey(key)));
  }

  /** A drawn id that has a history entry has it for the second it was drawn in. */
  predicate DrawnNow(d: Disk, draw: Draw) {
    forall h :: h in d.history && h.1 in draw.ids ==> h.0 == draw.now
  }

  /** A new job is the only active job for its request. */
  lemma NewJobKeepsActive(s: Store, sub: Submission, draw: Draw, id: Id, disk: Disk)
    requires ActiveOK(s) && id !in s.active && disk.records == s.disk.records[id := NewJob(sub, id, draw.now)]
    requires forall a :: a in s.active ==> !IsEquivalent(s.active[a], sub)
    ensures ActiveOK(Store(disk, s.active[id := NewJob(sub, id, draw.now)]))
  {
    var job := NewJob(sub, id, draw.now);
    var active := s.active[id := job];
    forall a, b | a in active && b in active && Equivalent(active[a], active[b]) ensures a == b {
      if a != id && b != id { assert Equivalent(s.active[a], s.active[b]); }
    }
  }

  lemma ActiveStaysOK(s: Store, disk: Disk)
    requires ActiveOK(s) && forall id :: id in s.active ==> id in disk.records && disk.records[id] == s.disk.records[id]
    ensures ActiveOK(Store(disk, s.active))
  {
    forall a, b | a in s.active && b in s.active && Equivalent(s.active[a], s.active[b]) ensures a == b {}
  }

  lemma CreatedInKeeps(s: Store, sub: Submission, draw: Draw)
    requires StoreOK(s) && DrawnNow(s.disk, draw)
    requires sub.key.Some? ==> sub.key.value !in s.disk.keys
    requires forall a :: a in s.active ==> !IsEquivalent(s.active[a], sub)
    ensures var s' := CreatedIn(s, sub, draw).0;
            Kept(s.disk, s'.disk) && StoreOK(s')
  {
    SameRecordsDevelop(s.disk, s.disk);
    var id := FirstUsable(s, FirstAttempts(draw.ids));
    if id.Some? {
      var job := NewJob(sub, id.value, draw.now);
      CreationKeeps(s.disk, job, draw);
      if draw.cut >= RECORD_WRITTEN && draw.ok {
        NewJobKeepsActive(s, sub, draw, id.value, Creation(s.disk, job, draw));
      } else {
        ActiveStaysOK(s, Creation(s.disk, job, draw));
      }
    }
  }

  lemma SubmittedKeeps(s: Store, sub: Submission, draw: Draw)
    requires StoreOK(s) && DrawnNow(s.disk, draw)
    ensures var s' := Submitted(s, sub, draw).0;
            Kept(s.disk, s'.disk) && StoreOK(s')
  {
    SameRecordsDevelop(s.disk, s.disk);
    if !HasLiveKey(s.disk, sub) && !(HasStaleKey(s.disk, sub) && draw.dropFails) {
      var s1 := WithoutStaleKey(s, sub);
      if HasStaleKey(s.disk, sub) { DropKeeps(s.disk, sub.key.value); }
      if EquivalentJob(s1.active, sub).None? {
        CreatedInKeeps(s1, sub, draw);
        KeptComposes(s.disk, s1.disk, CreatedIn(s1, sub, draw).0.disk);
      }
    }
  }

  lemma {:induction false} FirstUsableIs(s: Store, ids: seq<Id>, i: nat)
    requires i < |ids| && Usable(s, ids[i]) && forall j :: 0 <= j < i ==> !Usable(s, ids[j])
    ensures FirstUsable(s, ids) == Some(ids[i])
  {
    if i > 0 {
      FirstUsableIs(s, ids[1..], i - 1);
    }
  }

  /** The id is the first of the sixteen first drawn that nothing uses. */
  lemma {:induction false} FirstOfSixteen(s: Store, ids: seq<Id>, i: nat)
    requires i < |ids| && i < 16 && Usable(s, ids[i]) && forall j :: 0 <= j < i ==> !Usable(s, ids[j])
    ensures FirstUsable(s, FirstAttempts(ids)) == Some(ids[i])
  {
    FirstUsableIs(s, FirstAttempts(ids), i);
  }

  /** The key's entry was written for this very submission, or for a whole-repository model request before
      selections existed. */
  predicate EntryMatches(entry: KeyEntry, sub: Submission) {
    || entry.requestHash == RequestDigest(sub.request, sub.selection, sub.principal)
    || (sub.request.repoType == Model && sub.selection.IsUnrestricted() && entry.requestHash == LegacyDigest(sub.request, sub.principal))
  }

  /** What a submission is answered, case by case. A key whose record exists decides alone. Otherwise the one
      active job that asks for the same work is the answer; and otherwise, and only then, a new queued job
      with exactly what was submitted is created, under the first id drawn that nothing uses. */
  lemma SubmissionMeans(s: Store, sub: Submission, draw: Draw)
    requires StoreOK(s)
    ensures var result := Submitted(s, sub, draw).1;
            var open := !HasLiveKey(s.disk, sub) && !(HasStaleKey(s.disk, sub) && draw.dropFails);
            var alone := forall id :: id in s.active ==> !IsEquivalent(s.active[id], sub);
            var drawn := FirstUsable(s, FirstAttempts(draw.ids));
            && (HasLiveKey(s.disk, sub) && EntryMatches(s.disk.keys[sub.key.value], sub) ==>
                  result == Existing(s.disk.records[s.disk.keys[sub.key.value].jobId]))
            && (result.Conflict? <==> HasLiveKey(s.disk, sub) && !EntryMatches(s.disk.keys[sub.key.value], sub))
            && (forall id :: open && id in s.active && IsEquivalent(s.active[id], sub) ==> result == Existing(s.active[id]))
            && (result.Created? <==> open && alone && drawn.Some? && draw.cut >= RECORD_WRITTEN && draw.ok)
            && (result.Created? ==> result.job == Job(drawn.value, sub.request, sub.selection, sub.principal, Queued, "queued",
                  Meter(None, None), Meter(None, None), sub.key, if sub.key.Some? then Some(DigestOf(sub)) else None, draw.now))
            && (result.Storage? <==>
                  || (HasStaleKey(s.disk, sub) && draw.dropFails)
                  || (open && alone && !(drawn.Some? && draw.cut >= RECORD_WRITTEN && draw.ok)))
  {
    hide LegacyDigest, RequestDigest, Creation;
    var s1 := WithoutStaleKey(s, sub);
    SameUsable(s, s1, FirstAttempts(draw.ids));
    forall id | id in s.active && IsEquivalent(s.active[id], sub) ensures EquivalentJob(s.active, sub) == Some(id) {
      OnlyOneEquivalent(s, sub, id);
    }
  }

  // ---------------------------------------------------------------- migration and recovery

  /** How far the indexes of one record have been rebuilt after `upTo` disk steps. */
  predicate Rebuilt(d: Disk, d': Disk, id: Id, upTo: nat)
    requires id in d.records
  {
    var job := d.records[id];
    && RecordsOK(d') && d'.records == d.records && d'.migrated == d.migrated
    && (forall i :: i in d.records && Indexed(d, i) ==> Indexed(d', i))
    && (upTo >= 1 ==> (job.createdAt, id) in d'.history)
    && (upTo <= 1 ==> d'.keys == d.keys)
    && (upTo >= 2 && job.keyHash.Some? && job.requestHash.Some? ==> Remembers(d', job.keyHash.value, id, job.requestHash.value))
    && (upTo >= 3 && IsLive(job.state) ==> id in d'.markers)
  }

  lemma MigrationStep(d: Disk, before: Disk, id: Id, upTo: nat)
    requires RecordsOK(d) && id in d.records && 0 < upTo <= 3 && Rebuilt(d, before, id, upTo - 1)
    requires upTo == 2 ==> !KeyConflict(d, d.records[id])
    ensures var after := Do(before, MigrationSteps(d.records[id])[upTo - 1]);
            Kept(before, after) && Rebuilt(d, after, id, upTo)
  {
    IndexStepKeeps(before, MigrationSteps(d.records[id])[upTo - 1]);
  }

  /** Building the indexes of one record completes them for it and disturbs no other. */
  lemma {:induction false} MigrationKeeps(d: Disk, id: Id, upTo: nat)
    requires RecordsOK(d) && id in d.records && upTo <= 3
    requires upTo > 1 ==> !KeyConflict(d, d.records[id])
    ensures var d' := DoAll(d, MigrationSteps(d.records[id])[..upTo]);
            Kept(d, d') && Rebuilt(d, d', id, upTo)
  {
    var steps := MigrationSteps(d.records[id]);
    SameRecordsDevelop(d, d);
    assert steps[..0] == [];
    if upTo > 0 {
      MigrationKeeps(d, id, upTo - 1);
      var before := DoAll(d, steps[..upTo - 1]);
      DoLast(d, steps, upTo);
      MigrationStep(d, before, id, upTo);
      KeptComposes(d, before, Do(before, steps[upTo - 1]));
    }
  }

  lemma TornKeyKeeps(d: Disk, job: Job)
    requires RecordsOK(d) && job.id in d.records && d.records[job.id] == job
    ensures Kept(d, WithoutFreeKey(d, job)) && WithoutFreeKey(d, job).records == d.records && WithoutFreeKey(d, job).migrated == d.migrated
  {
    SameRecordsDevelop(d, WithoutFreeKey(d, job));
  }

  lemma MigrateOneKeeps(s: State, e: Event)
    requires Inv(s) && e.MigrateOne? && Enabled(s, e)
    ensures Inv(Apply(s, e)) && Kept(s.store.disk, Apply(s, e).store.disk)
  {
    var d := s.store.disk;
    MigrationKeeps(d, e.id, e.upTo);
    var d' := DoAll(d, MigrationSteps(d.records[e.id])[..e.upTo]);
    if e.upTo == 1 && e.torn {
      TornKeyKeeps(d', d.records[e.id]);
      KeptComposes(d, d', WithoutFreeKey(d', d.records[e.id]));
    }
  }

  lemma RecoverOneKeeps(s: State, e: Event)
    requires Inv(s) && e.RecoverOne? && Enabled(s, e)
    ensures Inv(Apply(s, e)) && Kept(s.store.disk, Apply(s, e).store.disk)
  {
    var d := s.store.disk;
    if e.id !in d.records {
      SameRecordsDevelop(d, Apply(s, e).store.disk);
    } else if IsLive(d.records[e.id].state) {
      SameRecordsDevelop(d, d);
      PersistedKeeps(d, Interrupted(d.records[e.id]), e.fate);
    } else {
      SameRecordsDevelop(d, d);
      IndexStepKeeps(d, Mark(d.records[e.id]));
    }
  }

  // ---------------------------------------------------------------- every step, every run

  lemma StepKeeps(s: State, e: Event)
    requires Inv(s) && Enabled(s, e)
    ensures Inv(Apply(s, e)) && Kept(s.store.disk, Apply(s, e).store.disk)
  {
    SameRecordsDevelop(s.store.disk, s.store.disk);
    match e
    case Submit(sub, draw, _) => SubmittedKeeps(s.store, sub, draw);
    case Transition(id, change, fate, _) => UpdatedKeeps(s.store, id, change, fate);
    case MigrateOne(_, _, _) => MigrateOneKeeps(s, e);
    case RecoverOne(_, _) => RecoverOneKeeps(s, e);
    case MigrateEnd => SameRecordsDevelop(s.store.disk, Apply(s, e).store.disk);
    case _ =>
  }

  /** Over every run, with faults and crashes anywhere: the invariant holds, no record is lost,
      altered once terminal, or set back in its progress, and no remembered key is forgotten. */
  lemma {:induction false} RunKeeps(s: State, run: seq<Event>)
    requires Inv(s) && Valid(s, run)
    ensures Inv(After(s, run)) && Kept(s.store.disk, After(s, run).store.disk)
    decreases |run|
  {
    SameRecordsDevelop(s.store.disk, s.store.disk);
    if run != [] {
      var next := Apply(s, run[0]);
      StepKeeps(s, run[0]);
      RunKeeps(next, run[1..]);
      KeptComposes(s.store.disk, next.store.disk, After(next, run[1..]).store.disk);
    }
  }

  /** A store found on disk: fresh, written before the indexes existed, or left by any crash. */
  predicate Found(d: Disk) {
    RecordsOK(d) && (d.migrated ==> DiskOK(d))
  }

  /** Whatever happens to a store, its records only develop: progress does not go back and a
      terminal record never changes; and whenever the store is serving, the active jobs are live,
      equal to their records, and no two of them ask for the same work. */
  lemma RecordsOnlyDevelop(d: Disk, first: seq<Event>, rest: seq<Event>, id: Id)
    requires Found(d) && Valid(Stopped(d), first) && Valid(After(Stopped(d), first), rest)
    requires id in After(Stopped(d), first).store.disk.records
    ensures var s, t := After(Stopped(d), first), After(After(Stopped(d), first), rest);
            && id in t.store.disk.records
            && JobDevelops(s.store.disk.records[id], t.store.disk.records[id])
            && (t.phase.Serving? ==> StoreOK(t.store))
  {
    RunKeeps(Stopped(d), first);
    RunKeeps(After(Stopped(d), first), rest);
  }

  /** Which events take a record to a terminal state it was not in. */
  predicate Ends(e: Event, id: Id, state: JobState) {
    match state
    case Completed => e.Transition? && e.id == id && e.change.Complete?
    case Cancelled => e.Transition? && e.id == id && e.change.Cancel?
    case Failed => (e.Transition? && e.id == id && e.change.Fail?) || (e.RecoverOne? && e.id == id)
    case _ => false
  }

  ghost predicate IsIn(s: State, id: Id, state: JobState) {
    id in s.store.disk.records && s.store.disk.records[id].state == state
  }

  lemma ActiveIds(s: State)
    requires Inv(s) && s.phase.Serving?
    ensures StoreOK(s.store) && forall id :: id in s.store.active ==> s.store.active[id].id == id
  {
    hide Indexed;
  }

  lemma TransitionEnds(s: State, e: Event, id: Id, state: JobState)
    requires Inv(s) && Enabled(s, e) && e.Transition? && !IsLive(state)
    requires IsIn(Apply(s, e), id, state) && !IsIn(s, id, state)
    ensures Ends(e, id, state)
  {
    hide Indexed, Persisted, DiskOK, Kept, Equivalent;
    assert StoreOK(s.store) && (e.id in s.store.active ==> s.store.active[e.id].id == e.id) by { ActiveIds(s); }
    if e.id in s.store.active && e.fate.written {
      PersistedRecords(s.store.disk, Changed(s.store.active[e.id], e.change), e.fate);
      ChangedKeepsId(s.store.active[e.id], e.change);
    }
  }

  lemma StepEnds(s: State, e: Event, id: Id, state: JobState)
    requires Inv(s) && Enabled(s, e) && !IsLive(state)
    requires IsIn(Apply(s, e), id, state) && !IsIn(s, id, state)
    ensures Ends(e, id, state)
  {
    hide Indexed, Submitted, Updated, Persisted;
    if e.Submit? {
      SubmittedRecords(s.store, e.sub, e.draw);
    } else if e.Transition? {
      TransitionEnds(s, e, id, state);
    } else if e.MigrateOne? {
      MigrateOneRecords(s, e);
    } else if e.RecoverOne? {
      RecoverOneEnds(s, e, id, state);
    }
  }

  lemma MigrateOneRecords(s: State, e: Event)
    requires Inv(s) && e.MigrateOne? && Enabled(s, e)
    ensures Apply(s, e).store.disk.records == s.store.disk.records
  {
    MigrationKeeps(s.store.disk, e.id, e.upTo);
    var d' := DoAll(s.store.disk, MigrationSteps(s.store.disk.records[e.id])[..e.upTo]);
    TornKeyKeeps(d', s.store.disk.records[e.id]);
  }

  lemma RecoverOneEnds(s: State, e: Event, id: Id, state: JobState)
    requires Inv(s) && e.RecoverOne? && Enabled(s, e) && !IsLive(state)
    requires IsIn(Apply(s, e), id, state) && !IsIn(s, id, state)
    ensures e.id == id && state.Failed? && Apply(s, e).store.disk.records[id].phase == "interrupted"
  {
    var d := s.store.disk;
    if e.id in d.records && IsLive(d.records[e.id].state) {
      PersistedKeeps(d, Interrupted(d.records[e.id]), e.fate);
    }
  }

  /** Over every run: a record that is completed was taken there by completing its job, a cancelled one by a
      cancellation, and a failed one by its job's failure or by an opening that found it live. */
  lemma {:induction false} EndedByItsOwnEvent(s: State, run: seq<Event>, id: Id, state: JobState)
    requires Inv(s) && Valid(s, run) && !IsLive(state)
    requires IsIn(After(s, run), id, state) && !IsIn(s, id, state)
    ensures exists i :: 0 <= i < |run| && Ends(run[i], id, state)
    decreases |run|
  {
    hide Inv, Enabled, Apply, IsIn, Ends;
    if run != [] {
      var next := Apply(s, run[0]);
      if IsIn(next, id, state) {
        StepEnds(s, run[0], id, state);
      } else {
        StepKeeps(s, run[0]);
        EndedByItsOwnEvent(next, run[1..], id, state);
        var i :| 0 <= i < |run[1..]| && Ends(run[1..][i], id, state);
        assert run[i + 1] == run[1..][i];
      }
    }
  }

  // ---------------------------------------------------------------- which records are live

  /** This event wrote the new record of `id`, went on, and reported a storage error. */
  ghost predicate Misreported(s: State, e: Event, id: Id)
    requires Enabled(s, e)
  {
    && e.Submit? && e.draw.cut >= RECORD_WRITTEN && !e.draw.ok && !e.crash
    && id !in s.store.disk.records && id in Apply(s, e).store.disk.records
  }

  ghost predicate StaysServing(s: State, run: seq<Event>)
    requires Valid(s, run)
    decreases |run|
  {
    s.phase.Serving? && (run == [] || StaysServing(Apply(s, run[0]), run[1..]))
  }

  /** The record of `id` was created with a storage error since the store last opened. */
  ghost predicate CreatedWithError(s: State, run: seq<Event>, id: Id)
    requires Valid(s, run)
    decreases |run|
  {
    run != [] &&
      var next := Apply(s, run[0]);
      || (Misreported(s, run[0], id) && StaysServing(next, run[1..]))
      || CreatedWithError(next, run[1..], id)
  }

  /** What one submission does to the records and the active jobs. */
  lemma SubmittedRecords(s: Store, sub: Submission, draw: Draw)
    requires StoreOK(s) && DrawnNow(s.disk, draw)
    ensures var (s', result) := Submitted(s, sub, draw);
            var id := FirstUsable(s, FirstAttempts(draw.ids));
            if s'.disk.records == s.disk.records then s'.active == s.active && !result.Created?
            else
              && id.Some? && id.value !in s.disk.records && draw.cut >= RECORD_WRITTEN
              && s'.disk.records == s.disk.records[id.value := NewJob(sub, id.value, draw.now)]
              && (draw.ok ==> s'.active == s.active[id.value := NewJob(sub, id.value, draw.now)]
                              && result == Created(NewJob(sub, id.value, draw.now)))
              && (!draw.ok ==> s'.active == s.active && result == Storage)
  {
    if !HasLiveKey(s.disk, sub) && !(HasStaleKey(s.disk, sub) && draw.dropFails) {
      var s1 := WithoutStaleKey(s, sub);
      if HasStaleKey(s.disk, sub) { DropKeeps(s.disk, sub.key.value); }
      SameUsable(s, s1, FirstAttempts(draw.ids));
      var id := FirstUsable(s, FirstAttempts(draw.ids));
      if EquivalentJob(s1.active, sub).None? && id.Some? {
        CreationKeeps(s1.disk, NewJob(sub, id.value, draw.now), draw);
      }
    }
  }

  lemma {:induction false} SameUsable(s: Store, s': Store, ids: seq<Id>)
    requires s'.active == s.active && s'.disk.records == s.disk.records && s'.disk.reserved == s.disk.reserved
    ensures FirstUsable(s', ids) == FirstUsable(s, ids)
  {
    if ids != [] {
      SameUsable(s, s', ids[1..]);
    }
  }

  lemma SubmissionStrays(s: State, e: Event, id: Id)
    requires Inv(s) && Enabled(s, e) && e.Submit? && Apply(s, e).phase.Serving?
    ensures IsStray(Apply(s, e).store, id) <==> IsStray(s.store, id) || Misreported(s, e, id)
  {
    SubmittedRecords(s.store, e.sub, e.draw);
  }

  lemma TransitionStrays(s: State, e: Event, id: Id)
    requires Inv(s) && Enabled(s, e) && e.Transition? && Apply(s, e).phase.Serving?
    ensures IsStray(Apply(s, e).store, id) <==> IsStray(s.store, id)
  {
    if e.id in s.store.active && e.fate.written {
      ChangedDevelops(s.store.active[e.id], e.change);
      PersistedKeeps(s.store.disk, Changed(s.store.active[e.id], e.change), e.fate);
    }
  }

  lemma StepStrays(s: State, e: Event, id: Id)
    requires Inv(s) && Enabled(s, e) && Apply(s, e).phase.Serving?
    ensures IsStray(Apply(s, e).store, id) <==> (s.phase.Serving? && IsStray(s.store, id)) || Misreported(s, e, id)
  {
    match e
    case Submit(_, _, _) => SubmissionStrays(s, e, id);
    case Transition(_, _, _, _) => TransitionStrays(s, e, id);
    case _ =>
  }

  lemma {:induction false} RunStrays(s: State, run: seq<Event>, id: Id)
    requires Inv(s) && Valid(s, run) && After(s, run).phase.Serving?
    ensures IsStray(After(s, run).store, id) <==>
            (StaysServing(s, run) && IsStray(s.store, id)) || CreatedWithError(s, run, id)
    decreases |run|
  {
    hide Apply, Enabled, Inv, IsStray, Misreported;
    if run != [] {
      StepKeeps(s, run[0]);
      RunStrays(Apply(s, run[0]), run[1..], id);
      if StaysServing(Apply(s, run[0]), run[1..]) {
        StepStrays(s, run[0], id);
      }
    }
  }

  /** Whatever happens to a store: when opening ends no record is live; and while it is serving a
      record is live exactly when its job is active, except for exactly those records that were
      created with a storage error since it opened, which are live and not active. */
  lemma LiveExactlyWhenActive(d: Disk, run: seq<Event>)
    requires Found(d) && Valid(Stopped(d), run)
    ensures var t := After(Stopped(d), run);
            && (t.phase == Opening({}) ==> forall id :: id in t.store.disk.records ==> !IsLive(t.store.disk.records[id].state))
            && (t.phase.Serving? ==> forall id :: id in t.store.disk.records ==>
                  && (IsStray(t.store, id) <==> CreatedWithError(Stopped(d), run, id))
                  && ((IsLive(t.store.disk.records[id].state) <==> id in t.store.active) <==> !CreatedWithError(Stopped(d), run, id)))
  {
    RunKeeps(Stopped(d), run);
    var t := After(Stopped(d), run);
    if t.phase.Serving? {
      forall id | id in t.store.disk.records ensures IsStray(t.store, id) <==> CreatedWithError(Stopped(d), run, id) {
        RunStrays(Stopped(d), run, id);
      }
    }
  }

  /** Whenever a job would be created and the storage fails once its record is written, the record
      becomes live and not active, and a retry under its key returns it. */
  lemma StorageErrorStrays(s: State, e: Event, i: nat, retry: Draw)
    requires Inv(s) && Enabled(s, e) && e.Submit? && !e.crash && e.draw.cut >= RECORD_WRITTEN && !e.draw.ok
    requires !HasLiveKey(s.store.disk, e.sub) && !(HasStaleKey(s.store.disk, e.sub) && e.draw.dropFails)
    requires forall a :: a in s.store.active ==> !IsEquivalent(s.store.active[a], e.sub)
    requires i < |e.draw.ids| && i < ATTEMPTS && Usable(s.store, e.draw.ids[i])
    ensures Submitted(s.store, e.sub, e.draw).1 == Storage
    ensures exists id :: Misreported(s, e, id)
    ensures forall id :: Misreported(s, e, id) ==>
              var t := Apply(s, e);
              && IsStray(t.store, id) && id in t.store.disk.records
              && (e.sub.key.Some? ==> Submitted(t.store, e.sub, retry) == (t.store, Existing(t.store.disk.records[id])))
  {
    assert FirstAttempts(e.draw.ids)[i] == e.draw.ids[i];
    SameUsable(s.store, WithoutStaleKey(s.store, e.sub), FirstAttempts(e.draw.ids));
    var id := FirstUsable(s.store, FirstAttempts(e.draw.ids)).value;
    if HasStaleKey(s.store.disk, e.sub) { DropKeeps(s.store.disk, e.sub.key.value); }
    CreationKeeps(WithoutStaleKey(s.store, e.sub).disk, NewJob(e.sub, id, e.draw.now), e.draw);
    assert Misreported(s, e, id);
    forall id | Misreported(s, e, id)
      ensures IsStray(Apply(s, e).store, id)
      ensures e.sub.key.Some? ==>
                var t := Apply(s, e);
                Submitted(t.store, e.sub, retry) == (t.store, Existing(t.store.disk.records[id]))
    {
      StepStrays(s, e, id);
      if e.sub.key.Some? {
        NewRecordIsRemembered(s.store, e.sub, e.draw, id);
        RememberedAnswer(Apply(s, e).store, e.sub, e.sub, retry, id);
      }
    }
  }

  lemma FirstThen(s: State, e: Event, run: seq<Event>)
    requires Enabled(s, e) && Valid(Apply(s, e), run)
    ensures Valid(s, [e] + run) && After(s, [e] + run) == After(Apply(s, e), run)
  {
    assert ([e] + run)[1..] == run;
  }

  const EMPTY := Disk(map[], {}, map[], {}, {}, true)

  lemma OpensEmpty(e: Event) returns (run: seq<Event>)
    requires Enabled(State(Store(EMPTY, map[]), Serving), e)
    ensures Valid(Stopped(EMPTY), run) && After(Stopped(EMPTY), run) == Apply(State(Store(EMPTY, map[]), Serving), e)
  {
    var opening := State(Store(EMPTY, map[]), Opening({}));
    var serving := State(Store(EMPTY, map[]), Serving);
    var last := Apply(serving, e);
    assert Valid(last, []) && After(last, []) == last;
    FirstThen(serving, e, []);
    FirstThen(opening, OpenEnd, [e] + []);
    FirstThen(Stopped(EMPTY), Open, [OpenEnd] + ([e] + []));
    run := [Open] + ([OpenEnd] + ([e] + []));
  }

  /** Such a run from an empty store. */
  lemma LiveRecordMayStray() returns (run: seq<Event>)
    ensures Found(EMPTY) && Valid(Stopped(EMPTY), run)
    ensures var t := After(Stopped(EMPTY), run); t.phase.Serving? && exists id :: IsStray(t.store, id)
  {
    var sub := Submission(JobRequest(Audit, Model, None, None), FileSelection([], []), Principal("", None), None);
    var e := Submit(sub, Draw(["a"], 0, false, RECORD_WRITTEN, false, false), false);
    var serving := State(Store(EMPTY, map[]), Serving);
    run := OpensEmpty(e);
    StorageErrorStrays(serving, e, 0, e.draw);
    var id :| Misreported(serving, e, id);
  }

  // ---------------------------------------------------------------- idempotency

  /** A new record written under a key is remembered under it, whether or not the caller was told. */
  lemma NewRecordIsRemembered(s: Store, sub: Submission, draw: Draw, id: Id)
    requires StoreOK(s) && DrawnNow(s.disk, draw) && sub.key.Some?
    requires id !in s.disk.records && id in Submitted(s, sub, draw).0.disk.records
    ensures var d' := Submitted(s, sub, draw).0.disk;
            && Remembers(d', sub.key.value, id, DigestOf(sub))
            && d'.records[id] == NewJob(sub, id, draw.now)
  {
    SubmittedRecords(s, sub, draw);
    SubmittedKeeps(s, sub, draw);
    assert Indexed(Submitted(s, sub, draw).0.disk, id);
  }

  lemma RememberedAnswer(t: Store, sub: Submission, later: Submission, draw: Draw, id: Id)
    requires ValidSubmission(sub) && ValidSubmission(later) && sub.key.Some? && later.key == sub.key
    requires Remembers(t.disk, sub.key.value, id, DigestOf(sub))
    ensures Submitted(t, later, draw) ==
            (t, if SameSubmission(sub.request, sub.selection, sub.principal, later.request, later.selection, later.principal)
                then Existing(t.disk.records[id]) else Conflict)
  {
    DigestIdentifiesSubmission(sub.request, sub.selection, sub.principal, later.request, later.selection, later.principal);
    LegacyNeverEqualsCurrent(later.request, later.selection, later.principal, sub.request, sub.selection, sub.principal);
  }

  /** Once a submission has written its job's record under a key, every later submission with that
      key, after any run of faults, crashes and restarts, returns that job for the same request,
      selection and principal, is a conflict for any other, and changes nothing. */
  lemma KeyAnswersForever(s: State, e: Event, run: seq<Event>, later: Submission, draw: Draw, id: Id)
    requires Inv(s) && Enabled(s, e) && e.Submit? && e.sub.key.Some?
    requires id !in s.store.disk.records && id in Apply(s, e).store.disk.records
    requires Valid(Apply(s, e), run) && ValidSubmission(later) && later.key == e.sub.key
    ensures var t := After(Apply(s, e), run).store;
            && id in t.disk.records && JobDevelops(NewJob(e.sub, id, e.draw.now), t.disk.records[id])
            && Submitted(t, later, draw) ==
                 (t, if SameSubmission(e.sub.request, e.sub.selection, e.sub.principal, later.request, later.selection, later.principal)
                     then Existing(t.disk.records[id]) else Conflict)
  {
    NewRecordIsRemembered(s.store, e.sub, e.draw, id);
    StepKeeps(s, e);
    RunKeeps(Apply(s, e), run);
    RememberedAnswer(After(Apply(s, e), run).store, e.sub, later, draw, id);
  }

  /** A key entry left by a crash before its record was written never stands in the way: with
      no live entry, no active job for the same work and a usable id, the job is created. */
  lemma StaleKeyNeverBlocks(s: Store, sub: Submission, draw: Draw, i: nat)
    requires StoreOK(s) && DrawnNow(s.disk, draw) && !HasLiveKey(s.disk, sub) && !draw.dropFails
    requires forall a :: a in s.active ==> !IsEquivalent(s.active[a], sub)
    requires i < |draw.ids| && i < ATTEMPTS && Usable(s, draw.ids[i]) && draw.cut >= RECORD_WRITTEN && draw.ok
    ensures var (s', result) := Submitted(s, sub, draw);
            && result.Created? && Usable(s, result.job.id) && result.job == NewJob(sub, result.job.id, draw.now)
            && s'.active == s.active[result.job.id := result.job]
            && s'.disk.records == s.disk.records[result.job.id := result.job]
            && (sub.key.Some? ==> Remembers(s'.disk, sub.key.value, result.job.id, DigestOf(sub)))
  {
    assert FirstAttempts(draw.ids)[i] == draw.ids[i];
    SubmittedRecords(s, sub, draw);
    SameUsable(s, WithoutStaleKey(s, sub), FirstAttempts(draw.ids));
    var id := FirstUsable(s, FirstAttempts(draw.ids)).value;
    if HasStaleKey(s.disk, sub) { DropKeeps(s.disk, sub.key.value); }
    CreationKeeps(WithoutStaleKey(s, sub).disk, NewJob(sub, id, draw.now), draw);
    if sub.key.Some? { NewRecordIsRemembered(s, sub, draw, id); }
  }

  /** No two jobs were ever created under one key. */
  lemma OneJobPerKey(s: State, run: seq<Event>, a: Id, b: Id)
    requires Inv(s) && Valid(s, run) && After(s, run).store.disk.migrated
    requires a in After(s, run).store.disk.records && b in After(s, run).store.disk.records
    requires var d := After(s, run).store.disk;
             && d.records[a].keyHash.Some? && d.records[a].keyHash == d.records[b].keyHash
             && d.records[a].requestHash.Some? && d.records[b].requestHash.Some?
    ensures a == b
  {
    RunKeeps(s, run);
    var d := After(s, run).store.disk;
    assert Indexed(d, a) && Indexed(d, b);
  }
}
