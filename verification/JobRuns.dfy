/** Every run of the job store: submissions, transitions, faults, crashes at any disk step,
    migration and reopening. */
module JobRuns {
  import opened Common
  import opened JobStore
  import opened RequestHash

  /** Between a crash and serving again, `Migrating` builds the indexes of a store that has none
      and `Opening` goes through the active markers. */
  datatype Phase = Closed | Migrating(todo: set<Id>) | Opening(todo: set<Id>) | Serving

  datatype State = State(store: Store, phase: Phase)

  /** `crash` says the process stops inside the operation, after the disk steps it has taken. */
  datatype Event =
    | Submit(sub: Submission, draw: Draw, crash: bool)
    | Transition(id: Id, change: Change, fate: Fate, crash: bool)
    | Crash
    | Open
    | MigrateOne(id: Id, upTo: nat, torn: bool)
    | MigrateEnd
    | RecoverOne(id: Id, fate: Fate)
    | OpenEnd

  predicate KeyConflict(d: Disk, job: Job) {
    && job.keyHash.Some? && job.requestHash.Some? && job.keyHash.value in d.keys
    && !KeyIsFree(d, job)
    && d.keys[job.keyHash.value] != KeyEntry(job.id, job.requestHash.value)
  }

  predicate Enabled(s: State, e: Event) {
    match e
    case Submit(sub, draw, _) =>
      && s.phase.Serving? && ValidSubmission(sub)
      && (forall h :: h in s.store.disk.history && h.1 in draw.ids ==> h.0 == draw.now)
    case Transition(_, _, _, _) => s.phase.Serving?
    case Crash => true
    case Open => s.phase.Closed?
    case MigrateOne(id, upTo, _) =>
      && s.phase.Migrating? && id in s.phase.todo && id in s.store.disk.records && upTo <= 3
      && (KeyConflict(s.store.disk, s.store.disk.records[id]) ==> upTo <= 1)
    case MigrateEnd => s.phase == Migrating({})
    case RecoverOne(id, _) => s.phase.Opening? && id in s.phase.todo
    case OpenEnd => s.phase == Opening({})
  }

  function Stopped(disk: Disk): State {
    State(Store(disk, map[]), Closed)
  }

  function MigrationSteps(job: Job): seq<DiskStep> {
    [IndexHistory(job), IndexKey(job), Mark(job)]
  }

  /** A stale entry is removed before its replacement is written. */
  function WithoutFreeKey(d: Disk, job: Job): Disk {
    if job.keyHash.Some? && KeyIsFree(d, job) then Do(d, DropKey(job.keyHash.value)) else d
  }

  /** One active marker while opening: a marker without a record goes, a live record is marked
      interrupted, and a terminal record loses its marker. A failed write fails the opening. */
  function RecoveredMarker(d: Disk, id: Id, fate: Fate): Option<Disk> {
    if id !in d.records then
      if fate.marker then Some(d.(markers := d.markers - {id})) else None
    else if IsLive(d.records[id].state) then
      if fate.written then Some(Persisted(d, Interrupted(d.records[id]), fate)) else None
    else
      if fate.marker then Some(Do(d, Mark(d.records[id]))) else None
  }

  function Recovered(d: Disk, todo: set<Id>, id: Id, fate: Fate): State {
    var d' := RecoveredMarker(d, id, fate);
    if d'.Some? then State(Store(d'.value, map[]), Opening(todo - {id})) else Stopped(d)
  }

  ghost function Apply(s: State, e: Event): State
    requires Enabled(s, e)
  {
    var d := s.store.disk;
    match e
    case Submit(sub, draw, crash) =>
      var store := Submitted(s.store, sub, draw).0;
      if crash then Stopped(store.disk) else State(store, Serving)
    case Transition(id, change, fate, crash) =>
      var store := Updated(s.store, id, change, fate);
      if crash then Stopped(store.disk) else State(store, Serving)
    case Crash => Stopped(d)
    case Open => State(Store(d, map[]), if d.migrated then Opening(d.markers) else Migrating(d.records.Keys))
    case MigrateOne(id, upTo, torn) =>
      var job := d.records[id];
      var d' := DoAll(d, MigrationSteps(job)[..upTo]);
      if upTo == 3 then State(Store(d', map[]), Migrating(s.phase.todo - {id}))
      else Stopped(if torn && upTo == 1 then WithoutFreeKey(d', job) else d')
    case MigrateEnd => State(Store(d.(migrated := true), map[]), Opening(d.markers))
    case RecoverOne(id, fate) => Recovered(d, s.phase.todo, id, fate)
    case OpenEnd => State(s.store, Serving)
  }

  ghost predicate Valid(s: State, run: seq<Event>)
    decreases |run|
  {
    run == [] || (Enabled(s, run[0]) && Valid(Apply(s, run[0]), run[1..]))
  }

  ghost function After(s: State, run: seq<Event>): State
    requires Valid(s, run)
    decreases |run|
  {
    if run == [] then s else After(Apply(s, run[0]), run[1..])
  }

  // ---------------------------------------------------------------- the invariant

  predicate Inv(s: State) {
    var d := s.store.disk;
    && RecordsOK(d)
    && (d.migrated ==> DiskOK(d))
    && (s.phase.Serving? ==> d.migrated && ActiveOK(s.store))
    && (!s.phase.Serving? ==> s.store.active == map[])
    && (s.phase.Migrating? ==> !d.migrated && forall id :: id in d.records && id !in s.phase.todo ==> Indexed(d, id))
    && (s.phase.Opening? ==> d.migrated && forall id :: id in d.records && IsLive(d.records[id].state) ==> id in s.phase.todo)
  }

  /** How one record may develop: it is never removed, keeps what identifies it, its progress never
      goes back, and once terminal it never changes. */
  predicate JobDevelops(a: Job, b: Job) {
    && b.id == a.id && b.request == a.request && b.selection == a.selection && b.principal == a.principal
    && b.keyHash == a.keyHash && b.requestHash == a.requestHash && b.createdAt == a.createdAt
    && MeterGrows(a.bytes, b.bytes) && MeterGrows(a.files, b.files)
    && (!IsLive(a.state) ==> b == a)
  }

  predicate MeterGrows(a: Meter, b: Meter) {
    && (a.completed.Some? ==> b.completed.Some? && a.completed.value <= b.completed.value)
    && (a.total.Some? ==> b.total == a.total)
  }

  predicate RecordsDevelop(d: Disk, d': Disk) {
    forall id :: id in d.records ==> id in d'.records && JobDevelops(d.records[id], d'.records[id])
  }

  /** No remembered key is forgotten. */
  predicate KeysKept(d: Disk, d': Disk) {
    forall key :: key in d.keys && d.keys[key].jobId in d.records ==> key in d'.keys && d'.keys[key] == d.keys[key]
  }

  // ---------------------------------------------------------------- transitions

  lemma ChangedDevelops(job: Job, change: Change)
    requires IsLive(job.state)
    ensures JobDevelops(job, Changed(job, change))
  {
  }

  /** A progress report moves a meter forward only: the first total stays, and the figure becomes the
      report cut down to the total, or stays where it was if that is more. */
  lemma ProgressIsClamped(m: Meter, completed: nat, total: Option<nat>)
    ensures var m' := Advance(m, completed, total);
            && MeterGrows(m, m') && m'.completed.Some?
            && (m.total.None? ==> m'.total == total)
            && (m'.completed.value == completed || m'.completed == m.completed || m'.completed == m'.total)
            && (m'.completed.value >= completed || m'.total.Some?)
            && (m'.total.Some? && (m.completed.Some? ==> m.completed.value <= m'.total.value) ==> m'.completed.value <= m'.total.value)
  {
  }

  /** A total that first arrives after more progress was recorded is exceeded. */
  lemma LateTotalIsExceeded(done: nat, total: nat)
    requires total < done
    ensures var m := Advance(Advance(Meter(None, None), done, None), done, Some(total));
            m == Meter(Some(done), Some(total))
  {
  }

  /** A queued job waits: it has not started, or resolves its revision, or waits for its transfer. */
  predicate QueuedMeansWaiting(job: Job) {
    job.state.Queued? ==> job.phase in {"queued", RESOLVE_PHASE, TRANSFER_WAIT_PHASE}
  }

  /** A job leaves the queue with its first report of anything but waiting, and becomes terminal
      only by completing, failing or being cancelled. */
  lemma ChangedIsQueuedWhileWaiting(job: Job, change: Change)
    requires IsLive(job.state) && QueuedMeansWaiting(job)
    ensures QueuedMeansWaiting(Changed(job, change))
    ensures IsLive(Changed(job, change).state) <==> change.Start? || change.Report?
    ensures change.Report? && job.state.Queued? ==>
              (Changed(job, change).state.Running? <==> change.progress.phase !in {RESOLVE_PHASE, TRANSFER_WAIT_PHASE})
    ensures change.Cancel? <==> Changed(job, change).state.Cancelled?
    ensures change.Fail? <==> Changed(job, change).state.Failed?
  {
  }

  /** What each change does to a job, field by field: a progress report moves the meter of its unit and no
      other, and only if it carries a figure. */
  lemma ChangedMeans(job: Job, change: Change)
    ensures var next := Changed(job, change);
            && (change.Report? ==>
                  && next.phase == change.progress.phase && (next.state == job.state || next.state.Running?)
                  && (next.bytes != job.bytes ==> change.progress.unit == Some("bytes"))
                  && (next.files != job.files ==> change.progress.unit == Some("files"))
                  && (change.progress.completed.None? ==> next.bytes == job.bytes && next.files == job.files)
                  && (change.progress.unit == Some("bytes") && change.progress.completed.Some? ==>
                        next.bytes == Advance(job.bytes, change.progress.completed.value, change.progress.total))
                  && (change.progress.unit == Some("files") && change.progress.completed.Some? ==>
                        next.files == Advance(job.files, change.progress.completed.value, change.progress.total)))
            && (!change.Report? ==> next.bytes == job.bytes && next.files == job.files)
            && (change.Start? ==> (next.state.Queued? <==> job.request.kind in {Prefetch, Refresh}) && IsLive(next.state))
            && (change.Complete? ==> next.state.Completed? && next.phase == "completed")
            && (change.Fail? ==> next.state.Failed? && next.phase == "failed")
            && (change.Cancel? ==> next.state.Cancelled? && next.phase == "cancelled")
  {
  }

  /** What every disk effect keeps. */
  predicate Kept(d: Disk, d': Disk) {
    RecordsOK(d') && RecordsDevelop(d, d') && KeysKept(d, d') && (d.migrated ==> d'.migrated)
  }

  lemma KeptComposes(a: Disk, b: Disk, c: Disk)
    requires Kept(a, b) && Kept(b, c)
    ensures Kept(a, c)
  {
    forall id | id in a.records ensures id in c.records && JobDevelops(a.records[id], c.records[id]) {
      assert id in b.records && JobDevelops(a.records[id], b.records[id]) && JobDevelops(b.records[id], c.records[id]);
    }
  }

  lemma SameRecordsDevelop(d: Disk, d': Disk)
    requires d'.records == d.records
    ensures RecordsDevelop(d, d')
  {
  }

  /** Updating an index for a job's current record, or for a job that has none yet. */
  lemma IndexStepKeeps(d: Disk, step: DiskStep)
    requires RecordsOK(d) && (step.IndexHistory? || step.IndexKey? || step.Mark?)
    requires step.job.id in d.records ==> d.records[step.job.id] == step.job
    ensures Kept(d, Do(d, step)) && Do(d, step).records == d.records
    ensures forall id :: id in d.records && Indexed(d, id) ==> Indexed(Do(d, step), id)
  {
    SameRecordsDevelop(d, Do(d, step));
  }

  lemma WriteKeeps(d: Disk, job: Job)
    requires RecordsOK(d) && job.id in d.records && JobDevelops(d.records[job.id], job) && IsLive(d.records[job.id].state)
    ensures Kept(d, Do(d, Write(job)))
    ensures forall id :: id in d.records && Indexed(d, id) ==> Indexed(Do(d, Write(job)), id)
  {
  }

  lemma PersistedKeeps(d: Disk, job: Job, fate: Fate)
    requires RecordsOK(d) && job.id in d.records && JobDevelops(d.records[job.id], job) && IsLive(d.records[job.id].state)
    ensures var d' := Persisted(d, job, fate);
            && Kept(d, d')
            && (DiskOK(d) ==> DiskOK(d'))
            && d'.records == if fate.written then d.records[job.id := job] else d.records
  {
    SameRecordsDevelop(d, d);
    if fate.written {
      var d1 := Do(d, Write(job));
      WriteKeeps(d, job);
      var d2 := if fate.history then Do(d1, IndexHistory(job)) else d1;
      SameRecordsDevelop(d1, d1);
      if fate.history { IndexStepKeeps(d1, IndexHistory(job)); }
      KeptComposes(d, d1, d2);
      var d3 := if fate.key then Do(d2, IndexKey(job)) else d2;
      if fate.key { IndexStepKeeps(d2, IndexKey(job)); KeptComposes(d, d2, d3); }
      var d4 := if fate.marker then Do(d3, Mark(job)) else d3;
      if fate.marker { IndexStepKeeps(d3, Mark(job)); KeptComposes(d, d3, d4); }
    }
  }

  /** Each index update that takes effect leaves its index right for the record written: the history knows it,
      its key remembers it if the key was free, and it has a marker exactly while it is live. An update that
      fails leaves that index alone. */
  lemma PersistedIndexes(d: Disk, job: Job, fate: Fate)
    requires fate.written
    ensures var d' := Persisted(d, job, fate);
            && d'.history == (if fate.history then d.history + {(job.createdAt, job.id)} else d.history)
            && d'.markers == (if !fate.marker then d.markers else if IsLive(job.state) then d.markers + {job.id} else d.markers - {job.id})
            && (fate.key && job.keyHash.Some? && job.requestHash.Some? && job.keyHash.value !in d.keys ==>
                  d'.keys == d.keys[job.keyHash.value := KeyEntry(job.id, job.requestHash.value)])
            && (!fate.key ==> d'.keys == d.keys)
  {
  }

  /** Opening clears each marker it goes through, unless it wrote the interrupted record and only then failed
      to; no other marker is touched. */
  lemma MarkerIsCleared(d: Disk, id: Id, fate: Fate)
    requires RecordsOK(d) && RecoveredMarker(d, id, fate).Some?
    ensures var d' := RecoveredMarker(d, id, fate).value;
            && (forall other :: other != id ==> (other in d'.markers <==> other in d.markers))
            && (id in d'.markers <==> id in d.markers && id in d.records && IsLive(d.records[id].state) && !fate.marker)
  {
    if id in d.records && IsLive(d.records[id].state) {
      PersistedIndexes(d, Interrupted(d.records[id]), fate);
    }
  }

  lemma UpdatedKeeps(s: Store, id: Id, change: Change, fate: Fate)
    requires StoreOK(s)
    ensures var s' := Updated(s, id, change, fate);
            && Kept(s.disk, s'.disk) && StoreOK(s')
  {
    SameRecordsDevelop(s.disk, s.disk);
    if id in s.active && fate.written {
      ChangedDevelops(s.active[id], change);
      PersistedKeeps(s.disk, Changed(s.active[id], change), fate);
      UpdatedKeepsActive(s, id, change, fate);
    }
  }

  lemma UpdatedKeepsActive(s: Store, id: Id, change: Change, fate: Fate)
    requires StoreOK(s) && id in s.active && fate.written
    requires Persisted(s.disk, Changed(s.active[id], change), fate).records == s.disk.records[id := Changed(s.active[id], change)]
    ensures ActiveOK(Updated(s, id, change, fate))
  {
    var s' := Updated(s, id, change, fate);
    forall a, b | a in s'.active && b in s'.active && Equivalent(s'.active[a], s'.active[b]) ensures a == b {
      assert Equivalent(s.active[a], s.active[b]);
    }
  }

  // ---------------------------------------------------------------- creation

  predicate FreshJob(d: Disk, job: Job) {
    job.id !in d.records && forall h :: h in d.history && h.1 == job.id ==> h.0 == job.createdAt
  }

  /** Every index already knows the job whose record is about to be written. */
  predicate Indexable(d: Disk, job: Job) {
    && (job.createdAt, job.id) in d.history && job.id in d.markers
    && (job.keyHash.Some? && job.requestHash.Some? ==>
          job.keyHash.value in d.keys && d.keys[job.keyHash.value] == KeyEntry(job.id, job.requestHash.value))
  }

  /** The record of a new job, written after its indexes. */
  lemma NewRecordKeeps(d: Disk, job: Job)
    requires RecordsOK(d) && FreshJob(d, job)
    ensures Kept(d, Do(d, Write(job)))
    ensures DiskOK(d) && Indexable(d, job) ==> DiskOK(Do(d, Write(job)))
  {
    forall id | id in d.records ensures JobDevelops(d.records[id], d.records[id]) {}
  }

  lemma ReservationKeeps(d: Disk, step: DiskStep)
    requires RecordsOK(d) && (step.Reserve? || step.Unreserve?)
    ensures Kept(d, Do(d, step)) && (DiskOK(d) ==> DiskOK(Do(d, step)))
    ensures Do(d, step).records == d.records && Do(d, step).keys == d.keys
  {
    SameRecordsDevelop(d, Do(d, step));
  }

  /** How far the indexes of a new job have been built after the first `cut` disk steps. */
  predicate Prepared(d: Disk, d': Disk, job: Job, cut: nat) {
    && FreshJob(d', job) && d'.records == d.records
    && (cut >= 2 ==> (job.createdAt, job.id) in d'.history)
    && (cut <= 2 ==> d'.keys == d.keys)
    && (cut >= 3 && job.keyHash.Some? && job.requestHash.Some? && KeyIsFree(d, job) ==>
          job.keyHash.value in d'.keys && d'.keys[job.keyHash.value] == KeyEntry(job.id, job.requestHash.value))
    && (cut >= 4 ==> job.id in d'.markers)
  }

  /** The disk before the record is written. */
  lemma {:induction false} PreparationKeeps(d: Disk, job: Job, cut: nat)
    requires DiskOK(d) && FreshJob(d, job) && IsLive(job.state) && cut <= 4
    ensures var d' := DoAll(d, CreationSteps(job)[..cut]);
            Kept(d, d') && DiskOK(d') && Prepared(d, d', job, cut)
  {
    SameRecordsDevelop(d, d);
    var steps := CreationSteps(job);
    assert steps[..0] == [];
    if cut > 0 {
      PreparationKeeps(d, job, cut - 1);
      var before := DoAll(d, steps[..cut - 1]);
      DoLast(d, steps, cut);
      PreparationStep(d, before, job, cut);
      KeptComposes(d, before, Do(before, steps[cut - 1]));
    }
  }

  lemma PreparationStep(d: Disk, before: Disk, job: Job, cut: nat)
    requires DiskOK(before) && 0 < cut <= 4 && Prepared(d, before, job, cut - 1) && IsLive(job.state)
    ensures var after := Do(before, CreationSteps(job)[cut - 1]);
            Kept(before, after) && DiskOK(after) && Prepared(d, after, job, cut)
  {
    var step := CreationSteps(job)[cut - 1];
    if cut == 1 {
      ReservationKeeps(before, step);
    } else {
      IndexStepKeeps(before, step);
    }
  }

  lemma {:induction false} DoLast(d: Disk, steps: seq<DiskStep>, cut: nat)
    requires 0 < cut <= |steps|
    ensures DoAll(d, steps[..cut]) == Do(DoAll(d, steps[..cut - 1]), steps[cut - 1])
    decreases cut
  {
    if cut == 1 {
      assert steps[..1] == [steps[0]] && steps[..0] == [];
      assert DoAll(Do(d, steps[0]), []) == Do(d, steps[0]);
    } else {
      DoLast(Do(d, steps[0]), steps[1..], cut - 1);
      assert steps[..cut][1..] == steps[1..][..cut - 1];
      assert steps[..cut - 1][1..] == steps[1..][..cut - 2];
    }
  }
}
