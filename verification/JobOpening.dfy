/** Opening a job store: building missing indexes once, then going through the active markers. */
module JobOpening {
  import opened Common
  import opened JobStore
  import opened JobRuns
  import opened JobTheorems

  /** Every record's indexes exist, as far as `done` goes, and nothing else has changed. */
  predicate IndexedSoFar(found: Disk, d: Disk, done: set<Id>) {
    Kept(found, d) && d.records == found.records && d.migrated == found.migrated && forall id :: id in done && id in d.records ==> Indexed(d, id)
  }

  predicate Keyed(job: Job) {
    job.keyHash.Some? && job.requestHash.Some?
  }

  predicate SameKey(a: Job, b: Job) {
    Keyed(a) && Keyed(b) && a.keyHash == b.keyHash
  }

  /** No two records have one key, and no entry that leads to a record is wrong for a record with its key. */
  predicate KeysUndisputed(d: Disk) {
    && (forall a, b :: a in d.records && b in d.records && SameKey(d.records[a], d.records[b]) ==> a == b)
    && (forall a :: a in d.records && Keyed(d.records[a]) && d.records[a].keyHash.value in d.keys
                    && d.keys[d.records[a].keyHash.value].jobId in d.records ==>
          d.keys[d.records[a].keyHash.value] == KeyEntry(a, d.records[a].requestHash.value))
  }

  /** The markers once every index has been built. */
  function MarkersAfter(found: Disk, done: set<Id>): set<Id> {
    (set id | id in found.markers && (id in done && id in found.records ==> IsLive(found.records[id].state)))
    + (set id | id in done && id in found.records && IsLive(found.records[id].state))
  }

  /** Entries are as found unless a record that was gone through has their key. */
  ghost predicate KeysSoFar(found: Disk, d: Disk, done: set<Id>) {
    && d.markers == MarkersAfter(found, done)
    && forall key :: (key in d.keys) != (key in found.keys) || (key in d.keys && d.keys[key] != found.keys[key]) ==>
         exists a :: a in done && a in found.records && Keyed(found.records[a]) && found.records[a].keyHash == Some(key)
  }

  /** Building the indexes goes through: they are there already, or no record is refused, no key is
      disputed and the sentinel that marks them as built is written. */
  predicate CanMigrate(found: Disk, refused: set<Id>, sentinel: bool) {
    found.migrated || (refused !! found.records.Keys && KeysUndisputed(found) && sentinel)
  }

  /** The indexing of the records in `done` has succeeded. */
  ghost predicate IndexedAll(found: Disk, d: Disk, done: set<Id>, refused: set<Id>) {
    && RecordsOK(d) && d.records == found.records && IndexedSoFar(found, d, done) && KeysSoFar(found, d, done)
    && forall id :: id in done ==> id !in refused
  }

  lemma IndexedOneMore(found: Disk, d: Disk, done: set<Id>, refused: set<Id>, id: Id)
    requires IndexedAll(found, d, done, refused) && id in d.records && id !in done
    ensures KeyConflict(d, d.records[id]) ==> !KeysUndisputed(found)
    ensures !KeyConflict(d, d.records[id]) && id !in refused ==>
              IndexedAll(found, DoAll(d, MigrationSteps(d.records[id])), done + {id}, refused)
  {
    hide Kept, KeyConflict, IndexedSoFar, MigrationSteps, DoAll, RecordsOK, KeysUndisputed, KeysSoFar;
    ConflictIsDispute(found, d, done, id);
    if !KeyConflict(d, d.records[id]) && id !in refused {
      MigratesOne(found, d, done, id);
      MigratesOneKey(found, d, done, id);
      SameRecords(found, DoAll(d, MigrationSteps(d.records[id])), done + {id});
    }
  }

  /** Builds the indexes of every record, in any reading order. */
  method IndexAll(found: Disk, refused: set<Id>) returns (r: Option<Disk>)
    requires Found(found)
    ensures r.Some? ==> IndexedAll(found, r.value, found.records.Keys, refused)
    ensures r.None? ==> !KeysUndisputed(found) || found.records.Keys * refused != {}
  {
    hide *;
    var ids := found.records.Keys;
    var d, rest := found, ids;
    ghost var done: set<Id> := {};
    NothingIndexedYet(found, refused);
    while rest != {}
      invariant IndexedAll(found, d, done, refused) && ids == done + rest && done !! rest
      decreases |rest|
    {
      var id :| id in rest;
      var next := IndexOne(found, d, done, refused, id);
      if next.None? { return None; }
      d, rest, done := next.value, rest - {id}, done + {id};
    }
    return Some(d);
  }

  /** Builds the indexes of one record. */
  method IndexOne(found: Disk, d: Disk, ghost done: set<Id>, refused: set<Id>, id: Id) returns (r: Option<Disk>)
    requires IndexedAll(found, d, done, refused) && id in found.records && id !in done
    ensures r.Some? ==> IndexedAll(found, r.value, done + {id}, refused)
    ensures r.None? ==> !KeysUndisputed(found) || found.records.Keys * refused != {}
  {
    hide *;
    SameRecordsIndexed(found, d, done, refused);
    IndexedOneMore(found, d, done, refused, id);
    if id in refused {
      assert id in found.records.Keys * refused;
      return None;
    }
    if KeyConflict(d, d.records[id]) { return None; }
    return Some(DoAll(d, MigrationSteps(d.records[id])));
  }

  lemma NothingIndexedYet(found: Disk, refused: set<Id>)
    requires Found(found)
    ensures IndexedAll(found, found, {}, refused)
  {
    NothingIndexed(found);
  }

  lemma SameRecordsIndexed(found: Disk, d: Disk, done: set<Id>, refused: set<Id>)
    requires IndexedAll(found, d, done, refused)
    ensures d.records == found.records
  {
  }

  /** Builds the indexes of a store that has none. It fails exactly if records dispute a key, or an
      index or the sentinel cannot be written. */
  method MigrateIndexes(found: Disk, refused: set<Id>, sentinel: bool) returns (r: Option<Disk>)
    requires Found(found)
    ensures r.Some? ==> Kept(found, r.value) && r.value.records == found.records && r.value.migrated && DiskOK(r.value)
    ensures r.Some? ==> r.value.markers == MarkersAfter(found, if found.migrated then {} else found.records.Keys)
    ensures r.Some? <==> CanMigrate(found, refused, sentinel)
  {
    hide Kept, DiskOK, IndexedSoFar, RecordsOK, KeysUndisputed, MarkersAfter;
    NothingIndexed(found);
    SameRecords(found, found, {});
    if found.migrated { return Some(found); }
    r := IndexAll(found, refused);
    if r.Some? {
      assert IndexedAll(found, r.value, found.records.Keys, refused);
      assert refused !! found.records.Keys;
      SameRecords(found, r.value, found.records.Keys);
      MigrationIsComplete(found, r.value, found.records.Keys);
      CompleteIsUndisputed(found, r.value);
      if !sentinel { return None; }
      r := Some(r.value.(migrated := true));
    }
  }

  lemma {:induction false} MigrationFrame(d: Disk, job: Job)
    ensures var next := DoAll(d, MigrationSteps(job));
            && next.markers == (if IsLive(job.state) then d.markers + {job.id} else d.markers - {job.id})
            && forall key :: job.keyHash != Some(key) || !Keyed(job) ==>
                 (key in next.keys <==> key in d.keys) && (key in d.keys ==> next.keys[key] == d.keys[key])
  {
    var d1 := Do(d, IndexHistory(job));
    var d2 := Do(d1, IndexKey(job));
    var steps := MigrationSteps(job);
    assert steps[1..] == [IndexKey(job), Mark(job)] && steps[1..][1..] == [Mark(job)] && steps[1..][1..][1..] == [];
    assert DoAll(d2, [Mark(job)]) == Do(d2, Mark(job));
  }

  lemma MigratesOneKey(found: Disk, d: Disk, done: set<Id>, id: Id)
    requires KeysSoFar(found, d, done) && RecordsOK(d) && d.records == found.records && id in d.records && id !in done
    ensures KeysSoFar(found, DoAll(d, MigrationSteps(d.records[id])), done + {id})
  {
    hide DoAll, MigrationSteps;
    var next := DoAll(d, MigrationSteps(d.records[id]));
    MigrationFrame(d, d.records[id]);
    assert next.markers == MarkersAfter(found, done + {id});
    forall key | (key in next.keys) != (key in found.keys) || (key in next.keys && next.keys[key] != found.keys[key])
      ensures exists a :: a in done + {id} && a in found.records && Keyed(found.records[a]) && found.records[a].keyHash == Some(key)
    {
      if d.records[id].keyHash == Some(key) && Keyed(d.records[id]) {
        assert id in done + {id};
      } else {
        var a :| a in done && a in found.records && Keyed(found.records[a]) && found.records[a].keyHash == Some(key);
        assert a in done + {id};
      }
    }
  }

  /** A conflict met on the way is a dispute in what was found. */
  lemma ConflictIsDispute(found: Disk, d: Disk, done: set<Id>, id: Id)
    requires IndexedSoFar(found, d, done) && KeysSoFar(found, d, done) && RecordsOK(d) && id in d.records && id !in done
    ensures KeyConflict(d, d.records[id]) ==> !KeysUndisputed(found)
  {
    hide Kept;
    var job := d.records[id];
    if KeyConflict(d, job) {
      var key := job.keyHash.value;
      if key in found.keys && d.keys[key] == found.keys[key] {
        assert found.keys[key].jobId in found.records;
      } else {
        var a :| a in done && a in found.records && Keyed(found.records[a]) && found.records[a].keyHash == Some(key);
        assert SameKey(found.records[a], found.records[id]);
      }
    }
  }

  /** Complete indexes over the records found leave nothing to dispute. */
  lemma CompleteIsUndisputed(found: Disk, d: Disk)
    requires Kept(found, d) && DiskOK(d.(migrated := true)) && d.records == found.records
    ensures KeysUndisputed(found)
  {
    hide RecordsDevelop, RecordsOK;
    var m := d.(migrated := true);
    forall a | a in found.records && Keyed(found.records[a])
      ensures Remembers(d, found.records[a].keyHash.value, a, found.records[a].requestHash.value)
    {
      assert Indexed(m, a);
    }
  }

  lemma NothingIndexed(found: Disk)
    requires Found(found)
    ensures KeysSoFar(found, found, {}) && found.markers == MarkersAfter(found, {})
    ensures RecordsOK(found) && IndexedSoFar(found, found, {}) && (found.migrated ==> DiskOK(found))
  {
    SameRecordsDevelop(found, found);
  }

  lemma SameRecords(found: Disk, d: Disk, done: set<Id>)
    requires IndexedSoFar(found, d, done)
    ensures d.records == found.records && Kept(found, d)
  {
  }

  lemma MigratesOne(found: Disk, d: Disk, done: set<Id>, id: Id)
    requires RecordsOK(d) && IndexedSoFar(found, d, done) && id in d.records && !KeyConflict(d, d.records[id])
    ensures var next := DoAll(d, MigrationSteps(d.records[id]));
            RecordsOK(next) && IndexedSoFar(found, next, done + {id})
  {
    hide Kept, Indexed, DoAll;
    var steps := MigrationSteps(d.records[id]);
    assert steps[..3] == steps;
    MigrationKeeps(d, id, 3);
    RebuiltIsIndexed(d, DoAll(d, steps), id);
    KeptComposes(found, d, DoAll(d, steps));
  }

  lemma RebuiltIsIndexed(d: Disk, d': Disk, id: Id)
    requires id in d.records && Rebuilt(d, d', id, 3)
    ensures RecordsOK(d') && d'.records == d.records && d'.migrated == d.migrated && Indexed(d', id)
    ensures forall i :: i in d.records && Indexed(d, i) ==> Indexed(d', i)
  {
  }

  lemma MigrationIsComplete(found: Disk, d: Disk, done: set<Id>)
    requires RecordsOK(d) && IndexedSoFar(found, d, done) && done == found.records.Keys
    ensures Kept(found, d.(migrated := true)) && DiskOK(d.(migrated := true)) && d.records == found.records
  {
    hide Indexed, RecordsOK, RecordsDevelop, KeysKept;
    KeptMigrated(found, d);
    MigratedIsOK(d);
  }

  lemma KeptMigrated(found: Disk, d: Disk)
    requires Kept(found, d) && d.records == found.records
    ensures Kept(found, d.(migrated := true))
  {
    SameRecordsDevelop(found, d.(migrated := true));
  }

  lemma MigratedIsOK(d: Disk)
    requires RecordsOK(d) && forall id :: id in d.records ==> Indexed(d, id)
    ensures DiskOK(d.(migrated := true))
  {
    forall id | id in d.records ensures Indexed(d.(migrated := true), id) {
      assert Indexed(d, id);
    }
  }

  /** What opening makes of one record. */
  function AfterOpening(job: Job): Job {
    if IsLive(job.state) then Interrupted(job) else job
  }

  /** The records whose markers are in `done` are as opening leaves them, the others as found. */
  predicate RecoveredSoFar(found: Disk, d: Disk, done: set<Id>) {
    && Kept(found, d) && DiskOK(d) && d.migrated && d.records.Keys == found.records.Keys
    && forall id :: id in found.records ==> d.records[id] == if id in done then AfterOpening(found.records[id]) else found.records[id]
  }

  /** The one write that a marker's recovery cannot do without succeeds. */
  predicate CanRecover(found: Disk, id: Id, fate: Fate) {
    if id in found.records && IsLive(found.records[id].state) then fate.written else fate.marker
  }

  /** Goes through the active markers in any order: a marked record that was queued or running is failed
      as interrupted, and nothing else about any record changes. */
  method RecoverMarkers(found: Disk, fates: map<Id, Fate>) returns (r: Option<Disk>)
    requires DiskOK(found) && found.migrated && found.markers <= fates.Keys
    ensures r.Some? ==> RecoveredSoFar(found, r.value, found.markers)
    ensures r.Some? ==> r.value.records.Keys == found.records.Keys && forall id :: id in found.records ==>
              r.value.records[id] == if id in found.markers && IsLive(found.records[id].state)
                                     then found.records[id].(state := Failed, phase := "interrupted")
                                     else found.records[id]
    ensures r.Some? <==> forall id :: id in found.markers ==> CanRecover(found, id, fates[id])
  {
    hide RecoveredSoFar, RecoveredMarker, DiskOK, CanRecover;
    var d := found;
    var rest := found.markers;
    ghost var done := {};
    NothingRecovered(found);
    while rest != {}
      invariant RecoveredSoFar(found, d, done) && found.markers == done + rest && done !! rest
      invariant forall id :: id in done ==> CanRecover(found, id, fates[id])
      decreases |rest|
    {
      var id :| id in rest;
      rest := rest - {id};
      var next := RecoveredMarker(d, id, fates[id]);
      MarkerRecovers(found, d, done, id, fates[id]);
      if next.None? { return None; }
      d := next.value;
      done := done + {id};
    }
    RecoveredMeans(found, d);
    return Some(d);
  }

  lemma RecoveredMeans(found: Disk, d: Disk)
    requires RecoveredSoFar(found, d, found.markers)
    ensures d.records.Keys == found.records.Keys && forall id :: id in found.records ==>
              d.records[id] == if id in found.markers && IsLive(found.records[id].state)
                               then found.records[id].(state := Failed, phase := "interrupted")
                               else found.records[id]
  {
    hide Kept, DiskOK;
  }

  lemma NothingRecovered(found: Disk)
    requires DiskOK(found) && found.migrated
    ensures RecoveredSoFar(found, found, {})
  {
    SameRecordsDevelop(found, found);
  }

  lemma MarkerRecovers(found: Disk, d: Disk, done: set<Id>, id: Id, fate: Fate)
    requires RecoveredSoFar(found, d, done) && id !in done
    ensures RecoveredMarker(d, id, fate).Some? <==> CanRecover(found, id, fate)
    ensures RecoveredMarker(d, id, fate).Some? ==> RecoveredSoFar(found, RecoveredMarker(d, id, fate).value, done + {id})
  {
    hide Kept, DiskOK, Persisted;
    var next := RecoveredMarker(d, id, fate);
    if next.Some? {
      if id !in d.records {
        DroppedMarkerKeeps(d, id);
      } else if IsLive(d.records[id].state) {
        OKIsRecordsOK(d);
        PersistedKeeps(d, Interrupted(d.records[id]), fate);
      } else {
        OKIsRecordsOK(d);
        ClearedMarkerKeeps(d, id);
      }
      KeptComposes(found, d, next.value);
      if id in d.records { KeptStaysMigrated(d, next.value); }
    }
  }

  lemma OKIsRecordsOK(d: Disk)
    requires DiskOK(d)
    ensures RecordsOK(d)
  {
  }

  lemma KeptStaysMigrated(d: Disk, d': Disk)
    requires Kept(d, d') && d.migrated
    ensures d'.migrated
  {
  }

  lemma DroppedMarkerKeeps(d: Disk, id: Id)
    requires DiskOK(d) && id !in d.records
    ensures Kept(d, d.(markers := d.markers - {id})) && DiskOK(d.(markers := d.markers - {id}))
  {
    SameRecordsDevelop(d, d.(markers := d.markers - {id}));
    forall i | i in d.records ensures Indexed(d.(markers := d.markers - {id}), i) {
      assert Indexed(d, i);
    }
  }

  lemma ClearedMarkerKeeps(d: Disk, id: Id)
    requires DiskOK(d) && id in d.records
    ensures Kept(d, Do(d, Mark(d.records[id]))) && DiskOK(Do(d, Mark(d.records[id])))
  {
    IndexStepKeeps(d, Mark(d.records[id]));
  }

  /** Opens a store. It opens exactly if no key is disputed and the writes it cannot do without succeed.
      Then no record is queued or running: each that was is failed as interrupted and otherwise as it was
      found, every other is as it was found, and all the indexes are there. */
  method OpenStore(found: Disk, refused: set<Id>, sentinel: bool, fates: map<Id, Fate>) returns (r: Option<Disk>)
    requires Found(found) && found.markers + found.records.Keys <= fates.Keys
    ensures r.Some? ==>
              && Kept(found, r.value) && r.value.migrated && DiskOK(r.value)
              && r.value.records.Keys == found.records.Keys
              && forall id :: id in found.records ==>
                   r.value.records[id] == if IsLive(found.records[id].state)
                                          then found.records[id].(state := Failed, phase := "interrupted")
                                          else found.records[id]
    ensures r.Some? <==>
              && CanMigrate(found, refused, sentinel)
              && forall id :: id in OpeningMarkers(found) ==> CanRecover(found, id, fates[id])
  {
    hide Kept, Indexed, Found, CanMigrate, CanRecover;
    var migrated := MigrateIndexes(found, refused, sentinel);
    if migrated.None? { return None; }
    assert OpeningMarkers(found) <= fates.Keys;
    SameRecordsSameRecovery(found, migrated.value, fates);
    r := RecoverMarkers(migrated.value, fates);
    if r.Some? {
      KeptComposes(found, migrated.value, r.value);
      EveryLiveIsMarked(migrated.value);
    }
  }

  /** The markers opening goes through. */
  function OpeningMarkers(found: Disk): (r: set<Id>)
    ensures r <= found.markers + found.records.Keys
  {
    MarkersAfter(found, if found.migrated then {} else found.records.Keys)
  }

  lemma SameRecordsSameRecovery(found: Disk, d: Disk, fates: map<Id, Fate>)
    requires d.records == found.records && d.markers <= fates.Keys
    ensures forall id :: id in d.markers ==> (CanRecover(d, id, fates[id]) <==> CanRecover(found, id, fates[id]))
  {
  }

  lemma EveryLiveIsMarked(d: Disk)
    requires DiskOK(d)
    ensures forall id :: id in d.records && IsLive(d.records[id].state) ==> id in d.markers
  {
    forall id | id in d.records && IsLive(d.records[id].state) ensures id in d.markers {
      assert Indexed(d, id);
    }
  }
}
