/** Startup recovery over the whole temporary area. */
module StagingArea {
  import opened StagingRules
  import opened Text

  /** The area and the counters recovery keeps. */
  datatype Area = Area(entries: map<string, Entry>, skipped: map<string, RecoveryAction>, recovered: nat)

  /** The conditions of one recovery: the clock, the entries this process cannot rename or
      remove, and the name, fresh for each entry, that preserving it would draw. */
  datatype Conditions = Conditions(now: nat, faulty: set<string>, target: map<string, string>)

  predicate FreshTargets(entries: map<string, Entry>, c: Conditions) {
    && (forall n :: n in entries ==> n in c.target)
    && (forall n :: n in c.target ==> c.target[n] !in entries && FormOf(c.target[n]) == AbandonedForm)
    && (forall n, m :: n in c.target && m in c.target && n != m ==> c.target[n] != c.target[m])
  }

  function Decide(entries: map<string, Entry>, name: string, c: Conditions): RecoveryAction
    requires name in entries
  {
    Recover(FormOf(name), entries[name], c.now)
  }

  function RecoverOne(a: Area, name: string, c: Conditions): Area
    requires name in c.target
  {
    if name !in a.entries || Decide(a.entries, name, c) == Keep then a
    else
      var action := Decide(a.entries, name, c);
      if name in c.faulty then a.(skipped := a.skipped[name := action])
      else if action == PreserveForResume then
        a.(entries := (a.entries - {name})[c.target[name] := a.entries[name]])
      else a.(entries := a.entries - {name}, recovered := a.recovered + 1)
  }

  function RecoverAll(a: Area, order: seq<string>, c: Conditions): Area
    requires forall n :: n in order ==> n in c.target
  {
    if order == [] then a else RecoverOne(RecoverAll(a, order[..|order| - 1], c), order[|order| - 1], c)
  }

  class TemporaryArea {
    var entries: map<string, Entry>
    /** What recovery could not do, by entry name. */
    var skipped: map<string, RecoveryAction>

    constructor (found: map<string, Entry>)
      ensures entries == found && skipped == map[]
    {
      entries, skipped := found, map[];
    }

    /** Recovers every entry on its own account, in the order the directory is read in. */
    method RecoverIncomplete(order: seq<string>, c: Conditions) returns (recovered: nat)
      requires FreshTargets(entries, c) && Distinct(order) && forall n :: n in order <==> n in entries
      modifies this
      ensures Area(entries, skipped, recovered) == RecoverAll(Area(old(entries), map[], 0), order, c)
    {
      hide Recover, FormOf, Distinct;
      recovered, skipped := 0, map[];
      for i := 0 to |order|
        invariant Area(entries, skipped, recovered) == RecoverAll(Area(old(entries), map[], 0), order[..i], c)
      {
        var name := order[i];
        assert order[..i + 1][..i] == order[..i];
        if name in entries {
          var action := Recover(FormOf(name), entries[name], c.now);
          if action != Keep {
            if name in c.faulty {
              skipped := skipped[name := action];
            } else if action == PreserveForResume {
              entries := (entries - {name})[c.target[name] := entries[name]];
            } else {
              entries := entries - {name};
              recovered := recovered + 1;
            }
          }
        }
      }
      assert order[..|order|] == order;
    }
  }

  /** What became of the entry `n` of `found`. */
  predicate Handled(found: map<string, Entry>, a: Area, n: string, c: Conditions)
    requires n in found && n in c.target
  {
    var action := Decide(found, n, c);
    && (n in a.entries <==> n in c.faulty || action == Keep)
    && (n in a.entries ==> a.entries[n] == found[n])
    && (c.target[n] in a.entries <==> n !in c.faulty && action == PreserveForResume)
    && (c.target[n] in a.entries ==> a.entries[c.target[n]] == found[n])
    && (n in a.skipped <==> n in c.faulty && action != Keep)
    && (n in a.skipped ==> a.skipped[n] == action)
  }

  /** An entry recovery has not reached yet. */
  predicate Untouched(found: map<string, Entry>, a: Area, n: string, c: Conditions)
    requires n in found && n in c.target
  {
    n in a.entries && a.entries[n] == found[n] && c.target[n] !in a.entries && n !in a.skipped
  }

  /** The names recovery deletes. */
  ghost function Discarded(found: map<string, Entry>, order: seq<string>, c: Conditions): set<string>
    requires forall n :: n in order ==> n in found
  {
    set n | n in order && IsDiscarded(found, n, c)
  }

  lemma HandlesItsEntry(found: map<string, Entry>, a: Area, n: string, c: Conditions)
    requires FreshTargets(found, c) && n in found && Untouched(found, a, n, c)
    ensures Handled(found, RecoverOne(a, n, c), n, c)
  {
    hide FormOf, Recover;
  }

  lemma SparesOthers(found: map<string, Entry>, a: Area, n: string, other: string, c: Conditions)
    requires FreshTargets(found, c) && n in found && other in found && n != other
    ensures Untouched(found, a, other, c) ==> Untouched(found, RecoverOne(a, n, c), other, c)
    ensures Handled(found, a, other, c) ==> Handled(found, RecoverOne(a, n, c), other, c)
  {
    hide FormOf, Recover, Decide;
    OtherEntriesStay(found, a, n, other, c);
    OtherEntriesStay(found, a, n, c.target[other], c);
  }

  /** Recovering one entry changes nothing but that entry and its own target. */
  lemma OtherEntriesStay(found: map<string, Entry>, a: Area, n: string, m: string, c: Conditions)
    requires FreshTargets(found, c) && n in found && m != n && m != c.target[n]
    ensures var a' := RecoverOne(a, n, c);
            && (m in a'.entries <==> m in a.entries) && (m in a.entries ==> a'.entries[m] == a.entries[m])
            && (m in a'.skipped <==> m in a.skipped) && (m in a.skipped ==> a'.skipped[m] == a.skipped[m])
  {
    hide FormOf, Recover;
  }

  lemma {:induction false} RecoversInAnyOrder(found: map<string, Entry>, order: seq<string>, c: Conditions)
    requires FreshTargets(found, c) && Distinct(order) && forall n :: n in order ==> n in found
    ensures var a := RecoverAll(Area(found, map[], 0), order, c);
            forall n :: n in found ==> if n in order then Handled(found, a, n, c) else Untouched(found, a, n, c)
  {
    if order != [] {
      var k := |order| - 1;
      var last := order[k];
      assert order == order[..k] + [last];
      RecoversInAnyOrder(found, order[..k], c);
      var a := RecoverAll(Area(found, map[], 0), order[..k], c);
      HandlesItsEntry(found, a, last, c);
      forall n | n in found && n != last
        ensures if n in order then Handled(found, RecoverOne(a, last, c), n, c) else Untouched(found, RecoverOne(a, last, c), n, c)
      {
        SparesOthers(found, a, last, n, c);
      }
    }
  }

  predicate IsDiscarded(found: map<string, Entry>, n: string, c: Conditions)
    requires n in found
  {
    n !in c.faulty && Decide(found, n, c) == Discard
  }

  lemma CountsItsEntry(found: map<string, Entry>, a: Area, n: string, c: Conditions)
    requires FreshTargets(found, c) && n in found && Untouched(found, a, n, c)
    ensures RecoverOne(a, n, c).recovered == a.recovered + if IsDiscarded(found, n, c) then 1 else 0
  {
  }

  lemma DiscardedSplits(found: map<string, Entry>, order: seq<string>, last: string, c: Conditions)
    requires (forall n :: n in order ==> n in found) && last in found && last !in order
    ensures |Discarded(found, order + [last], c)| == |Discarded(found, order, c)| + if IsDiscarded(found, last, c) then 1 else 0
  {
    var before := Discarded(found, order, c);
    if IsDiscarded(found, last, c) {
      assert Discarded(found, order + [last], c) == before + {last};
    } else {
      assert Discarded(found, order + [last], c) == before;
    }
  }

  /** The count recovery returns is the number of directories it deleted. */
  lemma {:induction false} CountsDiscards(found: map<string, Entry>, order: seq<string>, c: Conditions)
    requires FreshTargets(found, c) && Distinct(order) && forall n :: n in order ==> n in found
    ensures RecoverAll(Area(found, map[], 0), order, c).recovered == |Discarded(found, order, c)|
  {
    if order != [] {
      var k := |order| - 1;
      var last := order[k];
      assert order == order[..k] + [last];
      CountsDiscards(found, order[..k], c);
      RecoversInAnyOrder(found, order[..k], c);
      CountsItsEntry(found, RecoverAll(Area(found, map[], 0), order[..k], c), last, c);
      DiscardedSplits(found, order[..k], last, c);
    }
  }

  /** Recovery of the whole area depends on no reading order: each directory is deleted exactly
      when its lease is readable and expired and nothing could adopt it, a faulty one stays and is
      reported, and every adoptable one is there afterwards, still listed adoptable. */
  lemma RecoveryIsExact(found: map<string, Entry>, order: seq<string>, c: Conditions, n: string, later: nat)
    requires FreshTargets(found, c) && Distinct(order) && (forall m :: m in order <==> m in found)
    requires n in found && n !in c.faulty && c.now <= later
    ensures var a := RecoverAll(Area(found, map[], 0), order, c);
            && (n !in a.entries && c.target[n] !in a.entries <==>
                  found[n].isDirectory && found[n].lease.Expires? && found[n].lease.at <= c.now && !Adoptable(FormOf(n), found[n].meta))
            && (ListedAdoptable(FormOf(n), found[n], c.now) ==>
                  exists m :: m in a.entries && a.entries[m] == found[n] && ListedAdoptable(FormOf(m), a.entries[m], later))
  {
    RecoversInAnyOrder(found, order, c);
    var a := RecoverAll(Area(found, map[], 0), order, c);
    assert Handled(found, a, n, c);
    if ListedAdoptable(FormOf(n), found[n], c.now) {
      var m := if FormOf(n) == AbandonedForm then n else c.target[n];
      assert m in a.entries && a.entries[m] == found[n] && ListedAdoptable(FormOf(m), a.entries[m], later);
    }
  }

  /** After a recovery without faults, every directory it read is either owned, unreadable and
      kept for inspection, or resumable: nothing stale is left. */
  lemma NothingStaleAfterRecovery(form: NameForm, entry: Entry, now: nat)
    requires entry.isDirectory && Left(form, entry, now).Some?
    ensures var (form', entry') := Left(form, entry, now).value;
            Classify(form', entry', now, false) in {Active, UnreadableLease, Resumable}
  {
  }
}
