/** The management job store: active jobs in memory, mirrored to durable records with three
    indexes, through faults, crashes at any disk step, and reopening. */
module JobStore {
  import opened Common
  import opened Selection
  import opened RequestHash

  type Id = string
  type KeyHash = string

  datatype JobState = Queued | Running | Completed | Failed | Cancelled

  /** Progress of one unit: bytes or files. */
  datatype Meter = Meter(completed: Option<nat>, total: Option<nat>)

  datatype Job = Job(
    id: Id,
    request: JobRequest,
    selection: FileSelection,
    principal: Principal,
    state: JobState,
    phase: string,
    bytes: Meter,
    files: Meter,
    keyHash: Option<KeyHash>,
    requestHash: Option<Digest>,
    createdAt: nat)

  predicate IsLive(state: JobState) {
    state.Queued? || state.Running?
  }

  datatype KeyEntry = KeyEntry(jobId: Id, requestHash: Digest)

  /** The store on disk. */
  datatype Disk = Disk(
    records: map<Id, Job>,
    history: set<(nat, Id)>,          // index by creation time
    keys: map<KeyHash, KeyEntry>,     // idempotency index
    markers: set<Id>,                 // active markers
    reserved: set<Id>,
    migrated: bool)

  /** One atomic disk effect. */
  datatype DiskStep =
    | Reserve(id: Id)
    | IndexHistory(job: Job)
    | IndexKey(job: Job)
    | Mark(job: Job)
    | Write(job: Job)
    | Unreserve(id: Id)
    | DropKey(key: KeyHash)

  /** Whether `ensure_idempotency_index` may (re)write the entry for this job. */
  predicate KeyIsFree(d: Disk, job: Job)
    requires job.keyHash.Some?
  {
    job.keyHash.value !in d.keys
    || (d.keys[job.keyHash.value].jobId != job.id && d.keys[job.keyHash.value].jobId !in d.records)
  }

  function Do(d: Disk, step: DiskStep): Disk {
    match step
    case Reserve(id) => d.(reserved := d.reserved + {id})
    case IndexHistory(job) => d.(history := d.history + {(job.createdAt, job.id)})
    case IndexKey(job) =>
      if job.keyHash.Some? && job.requestHash.Some? && KeyIsFree(d, job) then
        d.(keys := d.keys[job.keyHash.value := KeyEntry(job.id, job.requestHash.value)])
      else d
    case Mark(job) => d.(markers := if IsLive(job.state) then d.markers + {job.id} else d.markers - {job.id})
    case Write(job) => d.(records := d.records[job.id := job])
    case Unreserve(id) => d.(reserved := d.reserved - {id})
    case DropKey(key) => d.(keys := d.keys - {key})
  }

  function DoAll(d: Disk, steps: seq<DiskStep>): Disk
    decreases |steps|
  {
    if steps == [] then d else DoAll(Do(d, steps[0]), steps[1..])
  }

  // ---------------------------------------------------------------- job transitions

  /** A progress event as the helper reports it. */
  datatype Progress = Progress(phase: string, unit: Option<string>, completed: Option<nat>, total: Option<nat>)

  datatype Change =
    | Start
    | Report(progress: Progress)
    | Complete
    | Fail
    | Cancel

  const RESOLVE_PHASE := "resolving_revision"
  const TRANSFER_WAIT_PHASE := "waiting_for_transfer_slot"

  function Advance(m: Meter, completed: nat, total: Option<nat>): Meter {
    var t := if m.total.None? then total else m.total;
    var bounded := if t.Some? && t.value < completed then t.value else completed;
    var floor := if m.completed.Some? then m.completed.value else 0;
    Meter(Some(if bounded < floor then floor else bounded), t)
  }

  function Changed(job: Job, change: Change): Job {
    match change
    case Start =>
      (match job.request.kind
       case Prefetch => job.(state := Queued, phase := RESOLVE_PHASE)
       case Refresh => job.(state := Queued, phase := RESOLVE_PHASE)
       case Verify => job.(state := Running, phase := "verifying_revision")
       case Audit => job.(state := Running, phase := "auditing_archive"))
    case Report(p) =>
      var state := if job.state == Queued && p.phase !in {RESOLVE_PHASE, TRANSFER_WAIT_PHASE} then Running else job.state;
      var job' := job.(state := state, phase := p.phase);
      if p.completed.None? then job'
      else if p.unit == Some("bytes") then job'.(bytes := Advance(job.bytes, p.completed.value, p.total))
      else if p.unit == Some("files") then job'.(files := Advance(job.files, p.completed.value, p.total))
      else job'
    case Complete => job.(state := Completed, phase := "completed")
    case Fail => job.(state := Failed, phase := "failed")
    case Cancel => job.(state := Cancelled, phase := "cancelled")
  }

  function Interrupted(job: Job): Job {
    job.(state := Failed, phase := "interrupted")
  }

  // ---------------------------------------------------------------- writing one transition

  /** What becomes of one `persist`: whether the record is written, and which of the index
      updates after it, whose failures are only logged, took effect. */
  datatype Fate = Fate(written: bool, history: bool, key: bool, marker: bool)

  function Persisted(d: Disk, job: Job, fate: Fate): Disk {
    if !fate.written then d
    else
      var d1 := Do(d, Write(job));
      var d2 := if fate.history then Do(d1, IndexHistory(job)) else d1;
      var d3 := if fate.key then Do(d2, IndexKey(job)) else d2;
      if fate.marker then Do(d3, Mark(job)) else d3
  }

  /** The store while serving: what is on disk and the active jobs in memory. */
  datatype Store = Store(disk: Disk, active: map<Id, Job>)

  /** One transition of one active job, decided and written under the lock; a failed write leaves
      memory as it was, a terminal record leaves memory. */
  function Updated(s: Store, id: Id, change: Change, fate: Fate): Store {
    if id !in s.active then s
    else
      var job := Changed(s.active[id], change);
      if !fate.written then s
      else Store(Persisted(s.disk, job, fate), if IsLive(job.state) then s.active[id := job] else s.active - {id})
  }

  // ---------------------------------------------------------------- submission

  datatype Submission = Submission(request: JobRequest, selection: FileSelection, principal: Principal, key: Option<KeyHash>)

  predicate ValidSubmission(sub: Submission) {
    ValidRequest(sub.request, sub.selection) && ValidPrincipal(sub.principal)
  }

  function DigestOf(sub: Submission): Digest {
    RequestDigest(sub.request, sub.selection, sub.principal)
  }

  datatype Result = Created(job: Job) | Existing(job: Job) | Conflict | Storage

  predicate IsEquivalent(job: Job, sub: Submission) {
    IsLive(job.state) && job.request == sub.request && job.selection == sub.selection
  }

  /** What the environment contributes to one submission: the ids it draws, the clock, whether
      removing a stale key entry fails, how many disk steps of creation take effect, whether a
      failed record write is followed by releasing the id, and whether creation reports success. */
  datatype Draw = Draw(ids: seq<Id>, now: nat, dropFails: bool, cut: nat, released: bool, ok: bool)

  predicate Usable(s: Store, id: Id) {
    id !in s.active && id !in s.disk.reserved && id !in s.disk.records
  }

  function FirstUsable(s: Store, ids: seq<Id>): (r: Option<Id>)
    ensures r.Some? ==> Usable(s, r.value) && r.value in ids
    ensures r.None? ==> forall id :: id in ids ==> !Usable(s, id)
  {
    if ids == [] then None
    else if Usable(s, ids[0]) then Some(ids[0])
    else FirstUsable(s, ids[1..])
  }

  const ATTEMPTS := 16

  function FirstAttempts(ids: seq<Id>): seq<Id> {
    if |ids| <= ATTEMPTS then ids else ids[..ATTEMPTS]
  }

  function NewJob(sub: Submission, id: Id, now: nat): Job {
    Job(id, sub.request, sub.selection, sub.principal, Queued, "queued", Meter(None, None), Meter(None, None),
        sub.key, if sub.key.Some? then Some(DigestOf(sub)) else None, now)
  }

  /** The disk steps of creating a job. The indexes come before the record; repeating them after
      it, as the record's own write does, changes nothing. */
  function CreationSteps(job: Job): seq<DiskStep> {
    [Reserve(job.id), IndexHistory(job), IndexKey(job), Mark(job), Write(job), Unreserve(job.id)]
  }

  const RECORD_WRITTEN := 5

  function Creation(d: Disk, job: Job, draw: Draw): Disk {
    if draw.cut == RECORD_WRITTEN - 1 && draw.released then Do(DoAll(d, CreationSteps(job)[..4]), Unreserve(job.id))
    else DoAll(d, CreationSteps(job)[..if draw.cut <= 6 then draw.cut else 6])
  }

  /** A live key entry answers the submission: the same request returns its job, any other is a
      conflict. A whole-repository model request also matches an entry written before selections
      existed. */
  function Answer(existing: Job, entry: KeyEntry, sub: Submission): Result {
    var legacy := sub.request.repoType == Model && sub.selection.IsUnrestricted()
                  && entry.requestHash == LegacyDigest(sub.request, sub.principal);
    if entry.requestHash == DigestOf(sub) || legacy then Existing(existing) else Conflict
  }

  predicate HasStaleKey(d: Disk, sub: Submission) {
    sub.key.Some? && sub.key.value in d.keys && d.keys[sub.key.value].jobId !in d.records
  }

  predicate HasLiveKey(d: Disk, sub: Submission) {
    sub.key.Some? && sub.key.value in d.keys && d.keys[sub.key.value].jobId in d.records
  }

  function WithoutStaleKey(s: Store, sub: Submission): Store {
    if HasStaleKey(s.disk, sub) then s.(disk := Do(s.disk, DropKey(sub.key.value))) else s
  }

  ghost function EquivalentJob(active: map<Id, Job>, sub: Submission): (r: Option<Id>)
    ensures r.Some? ==> r.value in active && IsEquivalent(active[r.value], sub)
    ensures r.None? ==> forall id :: id in active ==> !IsEquivalent(active[id], sub)
  {
    if id :| id in active && IsEquivalent(active[id], sub) then Some(id) else None
  }

  ghost function Submitted(s: Store, sub: Submission, draw: Draw): (Store, Result) {
    if HasLiveKey(s.disk, sub) then
      var entry := s.disk.keys[sub.key.value];
      (s, Answer(s.disk.records[entry.jobId], entry, sub))
    else if HasStaleKey(s.disk, sub) && draw.dropFails then (s, Storage)
    else
      var s1 := WithoutStaleKey(s, sub);
      var same := EquivalentJob(s1.active, sub);
      if same.Some? then (s1, Existing(s1.active[same.value]))
      else CreatedIn(s1, sub, draw)
  }

  function CreatedIn(s: Store, sub: Submission, draw: Draw): (Store, Result) {
    var id := FirstUsable(s, FirstAttempts(draw.ids));
    if id.None? then (s, Storage)
    else
      var job := NewJob(sub, id.value, draw.now);
      var disk := Creation(s.disk, job, draw);
      if draw.cut >= RECORD_WRITTEN && draw.ok then (Store(disk, s.active[id.value := job]), Created(job))
      else (Store(disk, s.active), Storage)
  }

  // ---------------------------------------------------------------- invariants

  predicate Equivalent(a: Job, b: Job) {
    IsLive(a.state) && IsLive(b.state) && a.request == b.request && a.selection == b.selection
  }

  /** The key's entry names job `id` for this digest, and the job's record exists. */
  predicate Remembers(d: Disk, key: KeyHash, id: Id, digest: Digest) {
    key in d.keys && d.keys[key] == KeyEntry(id, digest) && id in d.records
  }

  /** Records are stored under their own id; the history index knows a record only at its own
      creation time; and every record is in the indexes it belongs to. */
  predicate DiskOK(d: Disk) {
    RecordsOK(d) && (forall id :: id in d.records ==> Indexed(d, id))
  }

  predicate RecordsOK(d: Disk) {
    && (forall id :: id in d.records ==> d.records[id].id == id)
    && (forall h :: h in d.history && h.1 in d.records ==> h.0 == d.records[h.1].createdAt)
  }

  predicate Indexed(d: Disk, id: Id)
    requires id in d.records
  {
    var job := d.records[id];
    && (job.createdAt, id) in d.history
    && (IsLive(job.state) ==> id in d.markers)
    && (job.keyHash.Some? && job.requestHash.Some? ==> Remembers(d, job.keyHash.value, id, job.requestHash.value))
  }

  /** The active jobs are live, durable as they stand, and pairwise inequivalent. */
  predicate ActiveOK(s: Store) {
    && (forall id :: id in s.active ==> id in s.disk.records && s.disk.records[id] == s.active[id] && IsLive(s.active[id].state))
    && (forall a, b :: a in s.active && b in s.active && Equivalent(s.active[a], s.active[b]) ==> a == b)
  }

  predicate StoreOK(s: Store) {
    DiskOK(s.disk) && ActiveOK(s)
  }

  /** What a cancellation did: a job that had ended, or whose work could not be stopped any more, is
      an answer and not an error. */
  datatype CancelAnswer = NowCancelled(job: Job) | AlreadyTerminal(job: Job) | AlreadyFinishing(job: Job) | NoSuchJob | NotWritten

  /** A live record that belongs to no active job. */
  predicate IsStray(s: Store, id: Id) {
    id in s.disk.records && IsLive(s.disk.records[id].state) && id !in s.active
  }

  // ---------------------------------------------------------------- the manager

  class JobManager {
    var disk: Disk
    var active: map<Id, Job>

    function State(): Store
      reads this
    {
      Store(disk, active)
    }

    /** A store that has been opened with these records. */
    constructor (found: Disk)
      requires DiskOK(found)
      ensures State() == Store(found, map[]) && StoreOK(State())
    {
      disk, active := found, map[];
    }

    /** One transition. If its record is written, the record and the active job are the changed one, and a job
        that has ended is active no more; if not, nothing changes. Other jobs are left alone. */
    method Update(id: Id, change: Change, fate: Fate) returns (r: Option<Job>)
      requires StoreOK(State())
      modifies this
      ensures State() == Updated(old(State()), id, change, fate)
      ensures id !in old(active) || !fate.written ==> State() == old(State())
      ensures id in old(active) && fate.written ==>
                var job := Changed(old(active)[id], change);
                && disk.records == old(disk).records[id := job]
                && active == if IsLive(job.state) then old(active)[id := job] else old(active) - {id}
      ensures r == if id !in old(active) then None
                   else if fate.written then Some(Changed(old(active)[id], change)) else Some(old(active)[id])
    {
      hide Changed, Persisted, Indexed;
      if id !in active {
        return None;
      }
      ChangedKeepsId(active[id], change);
      PersistedRecords(disk, Changed(active[id], change), fate);
      var previous := active[id];
      var snapshot := Changed(previous, change);
      active := active[id := snapshot];
      disk := Persisted(disk, snapshot, fate);
      if !fate.written {
        active := active[id := previous];
        assert active == old(active);
        return Some(previous);
      }
      if !IsLive(snapshot.state) {
        active := active - {id};
        assert active == old(active) - {id};
      }
      return Some(snapshot);
    }

    /** Cancels a job nothing else touches meanwhile. `stops` says whether its acquisition, if it has
        started one, was stopped. */
    method CancelJob(id: Id, stops: bool, fate: Fate) returns (answer: CancelAnswer)
      requires StoreOK(State())
      modifies this
      ensures answer.NowCancelled? <==> id in old(active) && stops && fate.written
      ensures State() == if answer.NowCancelled? then Updated(old(State()), id, Cancel, fate) else old(State())
      ensures answer.NowCancelled? ==>
                && answer.job == Changed(old(active)[id], Cancel) && answer.job.state.Cancelled?
                && id !in active && id in disk.records && disk.records[id] == answer.job
      ensures answer.AlreadyFinishing? <==> id in old(active) && !stops
      ensures answer.AlreadyTerminal? <==> id !in old(active) && id in disk.records
      ensures answer.AlreadyTerminal? ==> answer.job == disk.records[id] && (IsLive(answer.job.state) <==> IsStray(State(), id))
      ensures answer.NoSuchJob? <==> id !in old(active) && id !in disk.records
    {
      if id !in active {
        if id in disk.records {
          return AlreadyTerminal(disk.records[id]);
        }
        return NoSuchJob;
      }
      if !stops {
        return AlreadyFinishing(active[id]);
      }
      var job := Update(id, Cancel, fate);
      if !fate.written {
        return NotWritten;
      }
      return NowCancelled(job.value);
    }

    /** The first of sixteen drawn ids that nothing uses. */
    method FirstFree(ids: seq<Id>) returns (r: Option<Id>)
      ensures r == FirstUsable(State(), ids)
    {
      for i := 0 to |ids|
        invariant FirstUsable(State(), ids) == FirstUsable(State(), ids[i..])
      {
        assert ids[i..][0] == ids[i] && ids[i..][1..] == ids[i + 1..];
        if ids[i] !in active && ids[i] !in disk.reserved && ids[i] !in disk.records {
          return Some(ids[i]);
        }
      }
      assert ids[|ids|..] == [];
      return None;
    }

    method Create(sub: Submission, draw: Draw) returns (result: Result)
      modifies this
      ensures (State(), result) == CreatedIn(old(State()), sub, draw)
    {
      var id := FirstFree(FirstAttempts(draw.ids));
      if id.None? {
        return Storage;
      }
      var job := NewJob(sub, id.value, draw.now);
      disk := Creation(disk, job, draw);
      if draw.cut < RECORD_WRITTEN || !draw.ok {
        return Storage;
      }
      active := active[job.id := job];
      return Created(job);
    }

    method Submit(sub: Submission, draw: Draw) returns (result: Result)
      requires StoreOK(State())
      modifies this
      ensures (State(), result) == Submitted(old(State()), sub, draw)
    {
      if sub.key.Some? && sub.key.value in disk.keys {
        var entry := disk.keys[sub.key.value];
        if entry.jobId in disk.records {
          return Answer(disk.records[entry.jobId], entry, sub);
        }
        if draw.dropFails {
          return Storage;
        }
        disk := Do(disk, DropKey(sub.key.value));
      }
      assert State() == WithoutStaleKey(old(State()), sub);
      if id :| id in active && IsEquivalent(active[id], sub) {
        OnlyOneEquivalent(old(State()), sub, id);
        return Existing(active[id]);
      }
      result := Create(sub, draw);
    }
  }

  lemma ChangedKeepsId(job: Job, change: Change)
    ensures Changed(job, change).id == job.id
  {
  }

  lemma PersistedRecords(d: Disk, job: Job, fate: Fate)
    ensures Persisted(d, job, fate).records == if fate.written then d.records[job.id := job] else d.records
    ensures !fate.written ==> Persisted(d, job, fate) == d
  {
  }

  lemma OnlyOneEquivalent(s: Store, sub: Submission, id: Id)
    requires ActiveOK(s) && id in s.active && IsEquivalent(s.active[id], sub)
    ensures EquivalentJob(s.active, sub) == Some(id)
  {
    var found := EquivalentJob(s.active, sub).value;
    assert Equivalent(s.active[found], s.active[id]);
  }
}
