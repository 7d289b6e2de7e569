/** Following cursors from page to page while jobs are being created. */
module HistoryWalk {
  import opened Common
  import opened Text
  import opened HistoryKeys
  import opened HistoryPaging
  import JobStore

  // ---------------------------------------------------------------- pages of keys

  function BelowCursor(keys: set<string>, cursor: Option<string>): set<string> {
    set k | k in keys && Below(k, cursor)
  }

  lemma PageFacts(keys: set<string>, limit: nat)
    requires limit > 0
    ensures var (items, next) := PageOf(keys, limit);
            && Descending(items) && (forall k :: k in items ==> k in keys) && |items| <= limit
            && (next.Some? ==> exists k :: k in keys && k !in items)
            && (next.None? ==> forall k :: k in keys ==> k in items)
            && (next.Some? ==>
                  && |items| == limit && items[limit - 1] == next.value
                  && (forall k :: k in keys && k !in items ==> Less(k, next.value))
                  && (forall k :: k in items ==> k == next.value || Less(next.value, k)))
  {
    hide TopDown, Less;
    TopDownIsTop(keys, limit + 1);
    var top := TopDown(keys, limit + 1);
    if |top| > limit {
      assert top[limit] in keys && top[limit] !in top[..limit] by { LastIsApart(top, limit); }
      forall k | k in keys && k !in top[..limit] ensures Less(k, top[limit - 1]) {
        if k in top { assert k == top[limit]; }
      }
    } else {
      AllOfFew(keys, limit + 1);
    }
  }

  lemma LastIsApart(keys: seq<string>, n: nat)
    requires Descending(keys) && n < |keys|
    ensures keys[n] !in keys[..n]
  {
    hide Less;
    forall i | 0 <= i < n ensures keys[i] != keys[n] {
      LessIsIrreflexive(keys[n]);
    }
  }

  lemma {:induction false} AllOfFew(keys: set<string>, n: nat)
    requires |keys| < n
    ensures forall k :: k in keys ==> k in TopDown(keys, n)
  {
    if keys != {} {
      AllOfFew(keys - {Greatest(keys)}, n - 1);
    }
  }

  /** The keys listed when each page is taken from its own, later, set of keys. */
  ghost function Follow(views: seq<set<string>>, limit: nat, cursor: Option<string>): seq<string>
    requires limit > 0
    decreases |views|
  {
    if views == [] then []
    else
      var (items, next) := PageOf(BelowCursor(views[0], cursor), limit);
      if next.None? then items else items + Follow(views[1..], limit, next)
  }

  /** The cursors come to an end within these pages. */
  ghost predicate Ends(views: seq<set<string>>, limit: nat, cursor: Option<string>)
    requires limit > 0
    decreases |views|
  {
    views != [] &&
    var next := PageOf(BelowCursor(views[0], cursor), limit).1;
    next.None? || Ends(views[1..], limit, next)
  }

  lemma {:induction false} FollowFacts(views: seq<set<string>>, limit: nat, cursor: Option<string>, present: set<string>, all: set<string>)
    requires limit > 0 && Ends(views, limit, cursor)
    requires forall v :: v in views ==> present <= v <= all
    ensures var keys := Follow(views, limit, cursor);
            && Descending(keys)
            && (forall k :: k in keys ==> k in all && Below(k, cursor))
            && (forall k :: k in present && Below(k, cursor) ==> k in keys)
    decreases |views|
  {
    var keys := BelowCursor(views[0], cursor);
    var (items, next) := PageOf(keys, limit);
    PageFacts(keys, limit);
    assert views[0] in views;
    if next.Some? {
      FollowFacts(views[1..], limit, next, present, all);
      var rest := Follow(views[1..], limit, next);
      forall k | k in rest ensures k in all && Below(k, cursor) && forall x :: x in items ==> Less(k, x) {
        RestIsBelow(items, next.value, k, cursor);
      }
      DescendingJoined(items, rest);
      forall k | k in present && Below(k, cursor) ensures k in items + rest {
        assert k in keys;
      }
    }
  }

  lemma DescendingJoined(a: seq<string>, b: seq<string>)
    requires Descending(a) && Descending(b) && forall x, y :: x in a && y in b ==> Less(y, x)
    ensures Descending(a + b)
  {
    hide Less;
  }

  lemma RestIsBelow(items: seq<string>, last: string, k: string, cursor: Option<string>)
    requires last in items && (forall x :: x in items ==> Below(x, cursor)) && Less(k, last)
    requires forall x :: x in items ==> x == last || Less(last, x)
    ensures Below(k, cursor) && forall x :: x in items ==> Less(k, x)
  {
    forall x | x in items ensures Less(k, x) {
      if x != last { LessIsTransitive(k, last, x); }
    }
    if cursor.Some? { LessIsTransitive(k, last, cursor.value); }
  }

  // ---------------------------------------------------------------- pages of jobs

  /** What one page reads: the index directory, in any order, and the recorded jobs. */
  datatype Reading = Reading(names: seq<string>, records: map<string, nat>)

  /** The index knows every recorded job by its own key, and no recorded job by another. */
  predicate Faithful(r: Reading) {
    && Distinct(r.names)
    && (forall id :: id in r.records ==>
          ValidId(id) && Bytes(id) && r.records[id] < WORD && HistoryKey(r.records[id], id) in r.names)
    && (forall name :: name in r.names && IsRecorded(r.records, name) ==> Matches(r.records, name))
  }

  predicate AllFaithful(readings: seq<Reading>) {
    forall i :: 0 <= i < |readings| ==> Faithful(readings[i])
  }

  predicate Growing(readings: seq<Reading>) {
    forall i, j :: 0 <= i <= j < |readings| ==>
      forall id :: id in readings[i].records ==> id in readings[j].records && readings[j].records[id] == readings[i].records[id]
  }

  /** Every job listed by following the cursors. */
  ghost function Walk(readings: seq<Reading>, limit: nat, cursor: Option<string>): seq<string>
    requires limit > 0 && AllFaithful(readings)
    decreases |readings|
  {
    if readings == [] then []
    else
      match Listed(readings[0].names, readings[0].records, limit, cursor)
      case Page(items, next) => if next.None? then items else items + Walk(readings[1..], limit, next)
      case _ => []
  }

  ghost predicate WalkEnds(readings: seq<Reading>, limit: nat, cursor: Option<string>)
    requires limit > 0 && AllFaithful(readings)
    decreases |readings|
  {
    readings != [] &&
    match Listed(readings[0].names, readings[0].records, limit, cursor)
    case Page(_, next) => next.None? || WalkEnds(readings[1..], limit, next)
    case _ => true
  }

  function Keys(r: Reading): set<string> {
    Eligible(r.names, r.records, None)
  }

  function KeysOf(readings: seq<Reading>): (views: seq<set<string>>)
    ensures |views| == |readings| && forall i :: 0 <= i < |views| ==> views[i] == Keys(readings[i])
  {
    if readings == [] then [] else [Keys(readings[0])] + KeysOf(readings[1..])
  }

  function KeyOf(r: Reading, id: string): string
    requires id in r.records && Bytes(id)
  {
    HistoryKey(r.records[id], id)
  }

  /** The cursor's job is recorded, and `below` is its key. */
  predicate IsCursor(r: Reading, cursor: Option<string>, below: Option<string>) {
    if cursor.None? then below.None?
    else cursor.value in r.records && Bytes(cursor.value) && below == Some(KeyOf(r, cursor.value))
  }

  lemma RecordedKey(r: Reading, id: string)
    requires Faithful(r) && id in r.records
    ensures KeyOf(r, id) in Keys(r) && IdOf(KeyOf(r, id)) == id
  {
    JobIdInvertsHistoryKey(r.records[id], id);
  }

  lemma EligibleBelow(r: Reading, below: Option<string>)
    ensures Eligible(r.names, r.records, below) == BelowCursor(Keys(r), below)
  {
    hide IsRecorded;
  }

  lemma FaithfulKeysMatch(r: Reading, key: string)
    requires Faithful(r) && key in Keys(r)
    ensures Matches(r.records, key) && IsCursor(r, Some(IdOf(key)), Some(key))
  {
  }

  /** A page of a faithful index is the page of its keys. */
  lemma PageIsFaithful(r: Reading, limit: nat, cursor: Option<string>, below: Option<string>)
    requires limit > 0 && Faithful(r) && IsCursor(r, cursor, below)
    ensures var (items, next) := PageOf(BelowCursor(Keys(r), below), limit);
            && Listed(r.names, r.records, limit, cursor)
                 == Page(IdsOf(items), if next.Some? then Some(IdOf(next.value)) else None)
            && (next.Some? ==> IsCursor(r, Some(IdOf(next.value)), next))
  {
    hide IdOf, Matches, IsRecorded, HistoryKey, Faithful, Keys, TopDown, Less;
    EligibleBelow(r, below);
    var keys := BelowCursor(Keys(r), below);
    TopDownIsTop(keys, limit + 1);
    PageFacts(keys, limit);
    forall k | k in TopDown(keys, limit + 1) ensures Matches(r.records, k) {
      FaithfulKeysMatch(r, k);
    }
    CursorIsListed(r, limit, cursor, below);
    var (items, next) := PageOf(keys, limit);
    if next.Some? {
      assert items[limit - 1] in items;
      FaithfulKeysMatch(r, next.value);
    }
  }

  lemma CursorIsListed(r: Reading, limit: nat, cursor: Option<string>, below: Option<string>)
    requires limit > 0 && Faithful(r) && IsCursor(r, cursor, below)
    ensures Listed(r.names, r.records, limit, cursor) == ListedFrom(Eligible(r.names, r.records, below), r.records, limit)
  {
    hide ListedFrom, Eligible, HistoryKey, Bytes;
  }

  /** Following the jobs' cursors is following their keys. */
  lemma {:induction false} WalkFollowsKeys(readings: seq<Reading>, limit: nat, cursor: Option<string>, below: Option<string>)
    requires limit > 0 && Growing(readings) && AllFaithful(readings)
    requires forall i :: 0 <= i < |readings| ==> IsCursor(readings[i], cursor, below)
    ensures Walk(readings, limit, cursor) == IdsOf(Follow(KeysOf(readings), limit, below))
    ensures WalkEnds(readings, limit, cursor) <==> Ends(KeysOf(readings), limit, below)
    decreases |readings|
  {
    hide IdOf, Matches, IsRecorded, HistoryKey, Faithful, PageOf, Listed, Growing, IsCursor, Keys;
    if readings != [] {
      PageIsFaithful(readings[0], limit, cursor, below);
      var (items, next) := PageOf(BelowCursor(Keys(readings[0]), below), limit);
      assert KeysOf(readings)[1..] == KeysOf(readings[1..]);
      if next.Some? {
        NextCursor(readings, IdOf(next.value), next.value);
        GrowingTail(readings);
        WalkFollowsKeys(readings[1..], limit, Some(IdOf(next.value)), next);
        IdsOfJoined(items, Follow(KeysOf(readings[1..]), limit, next));
      }
    }
  }

  /** The job a cursor names is still there when the next page is read. */
  lemma NextCursor(readings: seq<Reading>, id: string, key: string)
    requires readings != [] && Growing(readings) && AllFaithful(readings) && IsCursor(readings[0], Some(id), Some(key))
    ensures forall i :: 0 <= i < |readings[1..]| ==> IsCursor(readings[1..][i], Some(id), Some(key))
  {
    hide HistoryKey, Faithful;
    forall i | 0 <= i < |readings[1..]| ensures IsCursor(readings[1..][i], Some(id), Some(key)) {
      assert readings[1..][i] == readings[i + 1];
    }
  }

  lemma GrowingTail(readings: seq<Reading>)
    requires readings != [] && Growing(readings)
    ensures Growing(readings[1..])
  {
    forall i, j | 0 <= i <= j < |readings[1..]|
      ensures forall id :: id in readings[1..][i].records ==>
                id in readings[1..][j].records && readings[1..][j].records[id] == readings[1..][i].records[id]
    {
      assert readings[1..][i] == readings[i + 1] && readings[1..][j] == readings[j + 1];
    }
  }

  lemma KeysGrow(readings: seq<Reading>, i: nat, j: nat)
    requires i <= j < |readings| && Growing(readings) && Faithful(readings[i]) && Faithful(readings[j])
    ensures Keys(readings[i]) <= Keys(readings[j])
  {
    forall key | key in Keys(readings[i]) ensures key in Keys(readings[j]) {
      assert Matches(readings[i].records, key);
      RecordedKey(readings[j], IdOf(key));
    }
  }

  /** `a` comes before `b` in the listing: created later, or in the same second with a greater id. */
  predicate Newer(records: map<string, nat>, a: string, b: string)
    requires a in records && b in records
  {
    records[b] < records[a] || (records[b] == records[a] && Less(b, a))
  }

  /** What the keys of a listing say about the jobs they stand for. */
  lemma KeysAreJobs(last: Reading, keys: seq<string>)
    requires Faithful(last) && Descending(keys) && forall k :: k in keys ==> k in Keys(last)
    ensures var ids := IdsOf(keys);
            && (forall i :: 0 <= i < |ids| ==> ids[i] in last.records)
            && (forall i, j :: 0 <= i < j < |ids| ==> Newer(last.records, ids[i], ids[j]) && ids[i] != ids[j])
  {
    hide IdOf, Matches, IsRecorded, HistoryKey, Faithful, Keys, Less, IdsOf;
    var ids := IdsOf(keys);
    forall i | 0 <= i < |ids| ensures ids[i] in last.records && ids[i] == IdOf(keys[i]) {
      IdsAt(keys, i);
      FaithfulKeysMatch(last, keys[i]);
    }
    forall i, j | 0 <= i < j < |ids| ensures Newer(last.records, ids[i], ids[j]) && ids[i] != ids[j] {
      KeyOfNewer(last, keys[i], keys[j]);
    }
  }

  lemma KeyOfNewer(last: Reading, a: string, b: string)
    requires Faithful(last) && a in Keys(last) && b in Keys(last) && Less(b, a)
    ensures IdOf(a) in last.records && IdOf(b) in last.records
    ensures Newer(last.records, IdOf(a), IdOf(b)) && IdOf(a) != IdOf(b)
  {
    hide IdOf, JobIdFromHistoryKey, HistoryKey, Keys, Less;
    FaithfulKeysMatch(last, a);
    FaithfulKeysMatch(last, b);
    KeyOrderIsHistoryOrder(last.records[IdOf(b)], IdOf(b), last.records[IdOf(a)], IdOf(a));
    LessIsIrreflexive(a);
  }

  /** The job is on a page after this cursor, if there is room: it is recorded, and older than the cursor's. */
  predicate IsOlder(records: map<string, nat>, cursor: Option<string>, id: string) {
    id in records && (cursor.Some? && cursor.value in records ==> Newer(records, cursor.value, id))
  }

  lemma OlderIsBelow(r: Reading, cursor: Option<string>, below: Option<string>, id: string)
    requires Faithful(r) && IsCursor(r, cursor, below) && id in r.records
    ensures IsOlder(r.records, cursor, id) <==> KeyOf(r, id) in BelowCursor(Keys(r), below)
  {
    hide Keys, HistoryKey, Less, IdOf;
    RecordedKey(r, id);
    if cursor.Some? {
      KeyOrderIsHistoryOrder(r.records[id], id, r.records[cursor.value], cursor.value);
    }
  }

  /** One page of a faithful index: at most `limit` recorded jobs older than the cursor's, newest first, and no
      older one left out that is newer than any of them; the cursor to go on with is the last of them, exactly
      if older ones are left. An unknown cursor gives an empty page, an invalid one an error. */
  lemma PageMeans(r: Reading, limit: nat, cursor: Option<string>)
    requires limit > 0 && Faithful(r)
    ensures var page := Listed(r.names, r.records, limit, cursor);
            && !page.Mismatch? && (page.InvalidId? <==> cursor.Some? && !ValidId(cursor.value))
            && (cursor.Some? && ValidId(cursor.value) && cursor.value !in r.records ==> page == Page([], None))
    ensures cursor.None? || cursor.value in r.records ==>
              var page := Listed(r.names, r.records, limit, cursor);
              && page.Page? && |page.items| <= limit
              && (forall i :: 0 <= i < |page.items| ==> IsOlder(r.records, cursor, page.items[i]))
              && (forall i, j :: 0 <= i < j < |page.items| ==> Newer(r.records, page.items[i], page.items[j]))
              && (page.next.Some? ==> |page.items| == limit && page.next == Some(page.items[limit - 1]))
              && (page.next.Some? <==> exists id :: IsOlder(r.records, cursor, id) && id !in page.items)
              && (forall id :: IsOlder(r.records, cursor, id) && id !in page.items && page.next.Some? ==>
                    Newer(r.records, page.items[limit - 1], id))
  {
    hide Keys, HistoryKey, Less, Listed, IdOf, IdsOf, PageOf, Matches;
    if cursor.None? || cursor.value in r.records {
      var below := if cursor.None? then None else Some(KeyOf(r, cursor.value));
      PageIsFaithful(r, limit, cursor, below);
      var keys := BelowCursor(Keys(r), below);
      var (items, next) := PageOf(keys, limit);
      PageFacts(keys, limit);
      KeysAreJobs(r, items);
      ItemsAreJobs(r, items, cursor, below);
      forall id | IsOlder(r.records, cursor, id) && id !in IdsOf(items)
        ensures next.Some? && Newer(r.records, IdOf(next.value), id)
      {
        OlderIsBelow(r, cursor, below, id);
        RecordedKey(r, id);
        if KeyOf(r, id) in items { ItemIsListed(items, KeyOf(r, id)); }
        KeyOfNewer(r, next.value, KeyOf(r, id));
      }
      if next.Some? {
        var k :| k in keys && k !in items;
        FaithfulKeysMatch(r, k);
        OlderIsBelow(r, cursor, below, IdOf(k));
        if IdOf(k) in IdsOf(items) { ListedIsItem(r, items, k); }
        IdsAt(items, limit - 1);
      }
    } else {
      BadCursor(r, limit, cursor);
    }
  }

  lemma BadCursor(r: Reading, limit: nat, cursor: Option<string>)
    requires limit > 0 && Faithful(r) && cursor.Some? && cursor.value !in r.records
    ensures Listed(r.names, r.records, limit, cursor) == if ValidId(cursor.value) then Page([], None) else InvalidId
  {
  }

  lemma ItemIsListed(items: seq<string>, key: string)
    requires key in items
    ensures IdOf(key) in IdsOf(items)
  {
    hide IdOf;
    var i :| 0 <= i < |items| && items[i] == key;
    IdsAt(items, i);
  }

  lemma ListedIsItem(r: Reading, items: seq<string>, key: string)
    requires Faithful(r) && (forall k :: k in items ==> k in Keys(r)) && key in Keys(r) && IdOf(key) in IdsOf(items)
    ensures key in items
  {
    hide IdOf, Keys, HistoryKey;
    var i :| 0 <= i < |items| && IdsOf(items)[i] == IdOf(key);
    IdsAt(items, i);
    FaithfulKeysMatch(r, key);
    FaithfulKeysMatch(r, items[i]);
  }

  lemma ItemsAreJobs(r: Reading, items: seq<string>, cursor: Option<string>, below: Option<string>)
    requires Faithful(r) && IsCursor(r, cursor, below) && forall k :: k in items ==> k in BelowCursor(Keys(r), below)
    ensures forall i :: 0 <= i < |items| ==> IsOlder(r.records, cursor, IdsOf(items)[i])
  {
    hide IdOf, Keys, HistoryKey, IdsOf, Less;
    forall i | 0 <= i < |items| ensures IsOlder(r.records, cursor, IdsOf(items)[i]) {
      IdsAt(items, i);
      assert items[i] in items && items[i] in BelowCursor(Keys(r), below);
      FaithfulKeysMatch(r, items[i]);
      OlderIsBelow(r, cursor, below, IdOf(items[i]));
    }
  }

  /** Whatever the index: a page fails exactly if one of the newest keys it has to look at is not the own key of
      its job. */
  lemma MismatchIff(r: Reading, limit: nat, cursor: Option<string>)
    requires limit > 0 && (forall id :: id in r.records ==> ValidId(id) && Bytes(id)) && (cursor.None? || cursor.value in r.records)
    ensures Listed(r.names, r.records, limit, cursor).Mismatch? <==>
            var below := if cursor.None? then None else Some(KeyOf(r, cursor.value));
            exists k :: k in TopDown(BelowCursor(Keys(r), below), limit + 1) && !Matches(r.records, k)
  {
    hide Keys, HistoryKey, Less, IdOf, IdsOf, PageOf, Matches, TopDown;
    var below := if cursor.None? then None else Some(KeyOf(r, cursor.value));
    EligibleBelow(r, below);
  }

  lemma PresentJobsAreListed(first: Reading, keys: seq<string>)
    requires Faithful(first) && forall k :: k in Keys(first) ==> k in keys
    ensures forall id :: id in first.records ==> id in IdsOf(keys)
  {
    hide IdOf, Matches, IsRecorded, HistoryKey, Keys, IdsOf;
    forall id | id in first.records ensures id in IdsOf(keys) {
      RecordedKey(first, id);
      var i :| 0 <= i < |keys| && keys[i] == KeyOf(first, id);
      IdsAt(keys, i);
      assert IdsOf(keys)[i] == id;
    }
  }

  /** Following the cursors to the end, while jobs keep being created, lists every job that was
      there from the start exactly once, newest first, and nothing that is not a recorded job. */
  lemma WalkListsEveryJobOnce(readings: seq<Reading>, limit: nat)
    requires limit > 0 && Growing(readings) && AllFaithful(readings) && WalkEnds(readings, limit, None)
    ensures var ids, last := Walk(readings, limit, None), readings[|readings| - 1].records;
            && (forall id :: id in readings[0].records ==> id in ids)
            && (forall i :: 0 <= i < |ids| ==> ids[i] in last)
            && (forall i, j :: 0 <= i < j < |ids| ==> Newer(last, ids[i], ids[j]) && ids[i] != ids[j])
  {
    hide IdOf, Matches, IsRecorded, HistoryKey, Faithful, Keys, Less, IdsOf, Follow, Growing, Listed, PageOf;
    var n := |readings|;
    var first, last := readings[0], readings[n - 1];
    WalkFollowsKeys(readings, limit, None, None);
    var views := KeysOf(readings);
    forall v | v in views ensures Keys(first) <= v <= Keys(last) {
      var i :| 0 <= i < n && views[i] == v;
      KeysGrow(readings, 0, i);
      KeysGrow(readings, i, n - 1);
    }
    FollowFacts(views, limit, None, Keys(first), Keys(last));
    var keys := Follow(views, limit, None);
    PresentJobsAreListed(first, keys);
    KeysAreJobs(last, keys);
  }

  // ---------------------------------------------------------------- the store's own index

  /** The index files of a store: one per history entry, beside files of other names. */
  ghost predicate Names(d: JobStore.Disk, names: seq<string>) {
    && Distinct(names)
    && (forall h :: h in d.history && ValidId(h.1) ==> Bytes(h.1) && HistoryKey(h.0, h.1) in names)
    && (forall name :: name in names && JobIdFromHistoryKey(name).Some? ==>
          exists time :: (time, IdOf(name)) in d.history && Bytes(IdOf(name)) && name == HistoryKey(time, IdOf(name)))
  }

  function Created(d: JobStore.Disk): map<string, nat> {
    map id | id in d.records :: d.records[id].createdAt
  }

  /** The index the store keeps through every run is a faithful one. */
  lemma StoreIndexIsFaithful(d: JobStore.Disk, names: seq<string>)
    requires JobStore.DiskOK(d) && Names(d, names)
    requires forall id :: id in d.records ==> ValidId(id) && d.records[id].createdAt < WORD
    ensures Faithful(Reading(names, Created(d)))
  {
    forall id | id in d.records ensures Bytes(id) && HistoryKey(d.records[id].createdAt, id) in names {
      assert JobStore.Indexed(d, id);
      assert (d.records[id].createdAt, id) in d.history;
    }
    forall name | name in names && IsRecorded(Created(d), name) ensures Matches(Created(d), name) {
      var time :| (time, IdOf(name)) in d.history && Bytes(IdOf(name)) && name == HistoryKey(time, IdOf(name));
    }
  }
}
