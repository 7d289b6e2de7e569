/** Listing jobs newest first, one page at a time: a heap of the greatest index keys below the
    cursor, whatever order the index directory is read in. */
module HistoryPaging {
  import opened Common
  import opened Text
  import opened HistoryKeys

  // ---------------------------------------------------------------- greatest keys

  predicate IsGreatest(k: string, s: set<string>) {
    k in s && forall x :: x in s ==> x == k || Less(x, k)
  }

  predicate IsLeast(k: string, s: set<string>) {
    k in s && forall x :: x in s ==> x == k || Less(k, x)
  }

  lemma {:induction false} HasGreatest(s: set<string>)
    requires s != {}
    ensures exists k :: IsGreatest(k, s)
    decreases |s|
  {
    var x :| x in s;
    if s == {x} {
      assert IsGreatest(x, s);
    } else {
      HasGreatest(s - {x});
      var k :| IsGreatest(k, s - {x});
      LessIsTotal(x, k);
      if Less(x, k) {
        assert IsGreatest(k, s);
      } else {
        forall y | y in s ensures y == x || Less(y, x) {
          if y != x && y != k { LessIsTransitive(y, k, x); }
        }
        assert IsGreatest(x, s);
      }
    }
  }

  lemma {:induction false} HasLeast(s: set<string>)
    requires s != {}
    ensures exists k :: IsLeast(k, s)
    decreases |s|
  {
    var x :| x in s;
    if s == {x} {
      assert IsLeast(x, s);
    } else {
      HasLeast(s - {x});
      var k :| IsLeast(k, s - {x});
      LessIsTotal(x, k);
      if Less(k, x) {
        assert IsLeast(k, s);
      } else {
        forall y | y in s ensures y == x || Less(x, y) {
          if y != x && y != k { LessIsTransitive(x, k, y); }
        }
        assert IsLeast(x, s);
      }
    }
  }

  lemma GreatestIsUnique(a: string, b: string, s: set<string>)
    requires IsGreatest(a, s) && IsGreatest(b, s)
    ensures a == b
  {
    if a != b {
      LessIsTransitive(a, b, a);
      LessIsIrreflexive(a);
    }
  }

  ghost function Greatest(s: set<string>): (k: string)
    requires s != {}
    ensures IsGreatest(k, s)
  {
    HasGreatest(s);
    var k :| IsGreatest(k, s); k
  }

  /** The `n` greatest keys, greatest first. */
  ghost function TopDown(s: set<string>, n: nat): (keys: seq<string>)
    ensures |keys| == if |s| < n then |s| else n
  {
    if n == 0 || s == {} then []
    else [Greatest(s)] + TopDown(s - {Greatest(s)}, n - 1)
  }

  predicate Descending(keys: seq<string>) {
    forall i, j :: 0 <= i < j < |keys| ==> Less(keys[j], keys[i])
  }

  lemma {:induction false} TopDownIsTop(s: set<string>, n: nat)
    ensures var keys := TopDown(s, n);
            && Descending(keys) && (forall k :: k in keys ==> k in s)
            && forall k, i :: k in s && k !in keys && 0 <= i < |keys| ==> Less(k, keys[i])
  {
    hide Less, Greatest;
    if n > 0 && s != {} {
      TopDownIsTop(s - {Greatest(s)}, n - 1);
    }
  }

  // ---------------------------------------------------------------- the heap

  /** `chosen` holds the `n` greatest keys of `s`. */
  predicate IsTop(chosen: set<string>, s: set<string>, n: nat) {
    && chosen <= s
    && |chosen| == (if |s| < n then |s| else n)
    && forall a, b :: a in chosen && b in s && b !in chosen ==> Less(b, a)
  }

  lemma TopOfFew(chosen: set<string>, s: set<string>, n: nat)
    requires IsTop(chosen, s, n) && |chosen| < n
    ensures chosen == s
  {
    assert s == chosen + (s - chosen);
  }

  /** The heap's step on one more key. */
  lemma HeapStep(chosen: set<string>, s: set<string>, n: nat, key: string)
    requires n > 0 && IsTop(chosen, s, n) && key !in s
    ensures |chosen| < n ==> IsTop(chosen + {key}, s + {key}, n)
    ensures forall least :: |chosen| == n && IsLeast(least, chosen) && Less(least, key) ==>
              IsTop(chosen - {least} + {key}, s + {key}, n)
    ensures forall least :: |chosen| == n && IsLeast(least, chosen) && !Less(least, key) ==> IsTop(chosen, s + {key}, n)
  {
    if |chosen| < n { TopOfFew(chosen, s, n); }
    forall least | |chosen| == n && IsLeast(least, chosen) && Less(least, key)
      ensures IsTop(chosen - {least} + {key}, s + {key}, n)
    {
      ReplaceLeast(chosen, s, n, key, least);
    }
    forall least | |chosen| == n && IsLeast(least, chosen) && !Less(least, key)
      ensures IsTop(chosen, s + {key}, n)
    {
      LessIsTotal(least, key);
      forall a | a in chosen ensures Less(key, a) {
        if a != least { LessIsTransitive(key, least, a); }
      }
    }
  }

  lemma ReplaceLeast(chosen: set<string>, s: set<string>, n: nat, key: string, least: string)
    requires n > 0 && IsTop(chosen, s, n) && key !in s && |chosen| == n && IsLeast(least, chosen) && Less(least, key)
    ensures IsTop(chosen - {least} + {key}, s + {key}, n)
  {
    var next := chosen - {least} + {key};
    assert |s + {key}| == |s| + 1;
    assert |next| == n;
    forall a, b | a in next && b in s + {key} && b !in next ensures Less(b, a) {
      if b != least {
        assert Less(b, least);
        if a == key { LessIsTransitive(b, least, key); }
      }
    }
  }

  /** Sorted downwards, the heap is the list of the greatest keys. */
  lemma {:induction false} SortedTop(keys: seq<string>, chosen: set<string>, s: set<string>, n: nat)
    requires IsTop(chosen, s, n) && Descending(keys) && (forall k :: k in keys <==> k in chosen)
    ensures keys == TopDown(s, n)
    decreases n
  {
    hide Less, Greatest;
    assert |keys| > 0 ==> keys[0] in chosen;
    assert |keys| == 0 ==> chosen == {};
    if n > 0 && s != {} {
      FirstIsGreatest(keys, chosen, s, n);
      var g := keys[0];
      RestIsTop(keys, chosen, s, n);
      SortedTop(keys[1..], chosen - {g}, s - {g}, n - 1);
    }
  }

  lemma FirstIsGreatest(keys: seq<string>, chosen: set<string>, s: set<string>, n: nat)
    requires IsTop(chosen, s, n) && Descending(keys) && (forall k :: k in keys <==> k in chosen) && keys != []
    ensures keys[0] in chosen && s != {} && keys[0] == Greatest(s)
  {
    hide Less;
    assert keys[0] in chosen;
    forall x | x in s ensures x == keys[0] || Less(x, keys[0]) {
      if x in chosen { var i :| 0 <= i < |keys| && keys[i] == x; }
    }
    GreatestIsUnique(keys[0], Greatest(s), s);
  }

  lemma RestIsTop(keys: seq<string>, chosen: set<string>, s: set<string>, n: nat)
    requires IsTop(chosen, s, n) && Descending(keys) && (forall k :: k in keys <==> k in chosen) && keys != [] && n > 0
    ensures keys[0] in chosen && IsTop(chosen - {keys[0]}, s - {keys[0]}, n - 1) && Descending(keys[1..])
    ensures forall k :: k in keys[1..] <==> k in chosen - {keys[0]}
  {
    hide Less;
    var g := keys[0];
    assert g in keys;
    LessIsIrreflexive(g);
    forall k ensures k in keys[1..] <==> k in chosen - {g} {
      if k in chosen - {g} {
        var i :| 0 <= i < |keys| && keys[i] == k;
        assert keys[1..][i - 1] == k;
      }
    }
  }

  /** The keys of the heap, greatest first. */
  method SortDown(chosen: set<string>) returns (keys: seq<string>)
    ensures Descending(keys) && forall k :: k in keys <==> k in chosen
  {
    keys := [];
    var rest := chosen;
    while rest != {}
      invariant rest <= chosen && Descending(keys)
      invariant forall k :: k in keys <==> k in chosen && k !in rest
      invariant forall k, i :: k in rest && 0 <= i < |keys| ==> Less(k, keys[i])
      decreases |rest|
    {
      HasGreatest(rest);
      var next :| next in rest && forall x :: x in rest ==> x == next || Less(x, next);
      keys := keys + [next];
      rest := rest - {next};
    }
  }

  // ---------------------------------------------------------------- one page

  datatype Listing =
    | Page(items: seq<string>, next: Option<string>)
    | InvalidId
    | Mismatch

  /** The record of a key's job is there. */
  predicate IsRecorded(records: map<string, nat>, key: string) {
    var id := JobIdFromHistoryKey(key);
    id.Some? && id.value in records
  }

  predicate Below(key: string, cursor: Option<string>) {
    cursor.Some? ==> Less(key, cursor.value)
  }

  function Eligible(names: seq<string>, records: map<string, nat>, cursor: Option<string>): set<string> {
    set key | key in names && IsRecorded(records, key) && Below(key, cursor)
  }

  predicate Matches(records: map<string, nat>, key: string) {
    && IsRecorded(records, key)
    && var id := JobIdFromHistoryKey(key).value;
       Bytes(id) && HistoryKey(records[id], id) == key
  }

  function IdOf(key: string): string {
    var id := JobIdFromHistoryKey(key);
    if id.Some? then id.value else ""
  }

  function IdsOf(keys: seq<string>): (ids: seq<string>)
    ensures |ids| == |keys|
  {
    if keys == [] then [] else [IdOf(keys[0])] + IdsOf(keys[1..])
  }

  lemma {:induction false} IdsAt(keys: seq<string>, i: nat)
    requires i < |keys|
    ensures IdsOf(keys)[i] == IdOf(keys[i])
  {
    hide IdOf;
    if i > 0 { IdsAt(keys[1..], i - 1); }
  }

  lemma {:induction false} IdsOfJoined(a: seq<string>, b: seq<string>)
    ensures IdsOf(a + b) == IdsOf(a) + IdsOf(b)
  {
    hide IdOf;
    if a == [] {
      assert a + b == b;
    } else {
      IdsOfJoined(a[1..], b);
      assert (a + b)[1..] == a[1..] + b;
    }
  }

  /** The first `limit` of the greatest keys, with the last of them as the cursor if more follow. */
  ghost function PageOf(keys: set<string>, limit: nat): (seq<string>, Option<string>)
    requires limit > 0
  {
    var top := TopDown(keys, limit + 1);
    if |top| > limit then (top[..limit], Some(top[limit - 1])) else (top, None)
  }

  /** What one page holds, given the keys that may be on it; a key that is not its job's own is an
      error. */
  ghost function ListedFrom(keys: set<string>, records: map<string, nat>, limit: nat): Listing
    requires limit > 0
  {
    if exists k :: k in TopDown(keys, limit + 1) && !Matches(records, k) then Mismatch
    else
      var (items, next) := PageOf(keys, limit);
      Page(IdsOf(items), if next.Some? then Some(IdOf(next.value)) else None)
  }

  /** The newest jobs below the cursor's job; an unknown cursor gives an empty page. */
  ghost function Listed(names: seq<string>, records: map<string, nat>, limit: nat, cursor: Option<string>): Listing
    requires limit > 0 && forall id :: id in records ==> ValidId(id) && Bytes(id)
  {
    if cursor.Some? && !ValidId(cursor.value) then InvalidId
    else if cursor.Some? && cursor.value !in records then Page([], None)
    else
      var below := if cursor.Some? then Some(HistoryKey(records[cursor.value], cursor.value)) else None;
      ListedFrom(Eligible(names, records, below), records, limit)
  }

  /** One page, from one reading of the index directory in any order. `records` gives the creation
      second of every job whose record exists. */
  method ListPage(names: seq<string>, records: map<string, nat>, limit: nat, cursor: Option<string>) returns (r: Listing)
    requires limit > 0 && Distinct(names)
    requires forall id :: id in records ==> ValidId(id) && Bytes(id)
    ensures r == Listed(names, records, limit, cursor)
  {
    var below := None;
    if cursor.Some? {
      if !ValidId(cursor.value) { return InvalidId; }
      if cursor.value !in records { return Page([], None); }
      below := Some(HistoryKey(records[cursor.value], cursor.value));
    }
    var selected := SelectTop(names, records, limit + 1, below);
    var keys := SortDown(selected);
    SortedTop(keys, selected, Eligible(names, records, below), limit + 1);
    r := ReadPage(keys, records, limit, Eligible(names, records, below));
  }

  /** Reads the jobs of the selected keys, and cuts the page off at its limit. */
  method ReadPage(keys: seq<string>, records: map<string, nat>, limit: nat, ghost all: set<string>) returns (r: Listing)
    requires limit > 0 && keys == TopDown(all, limit + 1)
    ensures r == ListedFrom(all, records, limit)
  {
    hide IdOf, Matches;
    for i := 0 to |keys|
      invariant forall j :: 0 <= j < i ==> Matches(records, keys[j])
    {
      if !Matches(records, keys[i]) {
        assert keys[i] in TopDown(all, limit + 1);
        return Mismatch;
      }
    }
    var ids := IdsOf(keys);
    if |ids| > limit {
      IdsOfJoined(keys[..limit], keys[limit..]);
      assert keys == keys[..limit] + keys[limit..];
      IdsAt(keys, limit - 1);
      return Page(ids[..limit], Some(ids[limit - 1]));
    }
    return Page(ids, None);
  }

  lemma EligibleStep(names: seq<string>, i: nat, records: map<string, nat>, cursor: Option<string>)
    requires i < |names| && Distinct(names)
    ensures names[i] !in Eligible(names[..i], records, cursor)
    ensures Eligible(names[..i + 1], records, cursor) == Eligible(names[..i], records, cursor)
              + if IsRecorded(records, names[i]) && Below(names[i], cursor) then {names[i]} else {}
  {
    assert names[..i + 1] == names[..i] + [names[i]];
  }

  /** The heap loop over one directory reading. */
  method SelectTop(names: seq<string>, records: map<string, nat>, capacity: nat, cursor: Option<string>)
    returns (selected: set<string>)
    requires capacity > 0 && Distinct(names)
    ensures IsTop(selected, Eligible(names, records, cursor), capacity)
  {
    selected := {};
    for i := 0 to |names|
      invariant IsTop(selected, Eligible(names[..i], records, cursor), capacity)
    {
      EligibleStep(names, i, records, cursor);
      if IsRecorded(records, names[i]) && Below(names[i], cursor) {
        selected := Push(selected, capacity, names[i], Eligible(names[..i], records, cursor));
      }
    }
    assert names[..|names|] == names;
  }

  /** A new key is pushed while there is room, and afterwards replaces the least key if greater. */
  method Push(heap: set<string>, capacity: nat, key: string, ghost seen: set<string>) returns (heap': set<string>)
    requires capacity > 0 && IsTop(heap, seen, capacity) && key !in seen
    ensures IsTop(heap', seen + {key}, capacity)
  {
    HeapStep(heap, seen, capacity, key);
    if |heap| < capacity {
      return heap + {key};
    }
    HasLeast(heap);
    var smallest :| smallest in heap && forall x :: x in heap ==> x == smallest || Less(smallest, x);
    assert IsLeast(smallest, heap);
    return if Less(smallest, key) then heap - {smallest} + {key} else heap;
  }
}
