/** Acquisition selections: validation, normalization, and the identity list staging and job
    records are compared by. */
module Selection {
  import opened Common
  import opened Text
  import opened Paths

  const EXCLUDE_PREFIX := '!'

  predicate IsSafePattern(pattern: string) {
    && pattern != ""
    && pattern[0] != EXCLUDE_PREFIX
    && pattern[0] != '/'
    && '\\' !in pattern
    && (forall c :: c in pattern ==> !IsControl(c))
    && var body := if pattern[|pattern| - 1] == '/' then pattern[..|pattern| - 1] else pattern;
    && body != ""
    && !HasPrefix(Split(body)[0], ".modelkeep-")
    && forall part :: part in Split(body) ==> part !in {"", ".", "..", ".cache"}
  }

  /** Inserts into an ascending list, keeping one copy of each element. */
  function Insert(sorted: seq<string>, p: string): seq<string> {
    if sorted == [] then [p]
    else if p == sorted[0] then sorted
    else if Less(p, sorted[0]) then [p] + sorted
    else [sorted[0]] + Insert(sorted[1..], p)
  }

  lemma {:induction false} InsertKeepsAscending(sorted: seq<string>, p: string)
    requires Ascending(sorted)
    ensures Ascending(Insert(sorted, p))
    ensures forall x :: x in Insert(sorted, p) <==> x in sorted || x == p
  {
    if sorted != [] && p != sorted[0] {
      var first, rest := sorted[0], sorted[1..];
      assert forall x :: x in sorted <==> x == first || x in rest;
      if Less(p, first) {
        forall i | 0 <= i < |sorted| ensures Less(p, sorted[i]) {
          if i > 0 { LessIsTransitive(p, first, sorted[i]); }
        }
      } else {
        LessIsTotal(p, first);
        InsertKeepsAscending(rest, p);
        var inserted := Insert(rest, p);
        assert forall x :: x in inserted ==> Less(first, x);
        assert forall j :: 0 <= j < |inserted| ==> inserted[j] in inserted;
      }
    }
  }

  predicate AllSafe(patterns: seq<string>) {
    forall i :: 0 <= i < |patterns| ==> IsSafePattern(patterns[i])
  }

  /** A validated, normalized pattern list. */
  predicate Normalized(patterns: seq<string>) {
    Ascending(patterns) && AllSafe(patterns)
  }

  /** Rejects the list if any pattern is unsafe, and otherwise returns its patterns once each in
      ascending order. */
  method NormalizePatterns(patterns: seq<string>) returns (r: Option<seq<string>>)
    ensures r.Some? <==> AllSafe(patterns)
    ensures r.Some? ==> Normalized(r.value) && forall p :: p in r.value <==> p in patterns
  {
    var normalized: seq<string> := [];
    for i := 0 to |patterns|
      invariant AllSafe(patterns[..i]) && Ascending(normalized)
      invariant forall p :: p in normalized <==> p in patterns[..i]
    {
      if !IsSafePattern(patterns[i]) {
        return None;
      }
      InsertKeepsAscending(normalized, patterns[i]);
      normalized := Insert(normalized, patterns[i]);
    }
    assert patterns[..|patterns|] == patterns;
    forall i | 0 <= i < |normalized| ensures IsSafePattern(normalized[i]) {
      assert normalized[i] in normalized;
    }
    return Some(normalized);
  }

  datatype FileSelection = FileSelection(included: seq<string>, excluded: seq<string>) {
    predicate Valid() {
      Normalized(included) && Normalized(excluded)
    }

    predicate IsUnrestricted() {
      included == [] && excluded == []
    }
  }

  function MarkAll(patterns: seq<string>): (r: seq<string>)
    ensures |r| == |patterns| && forall i :: 0 <= i < |r| ==> r[i] == [EXCLUDE_PREFIX] + patterns[i]
  {
    seq(|patterns|, i requires 0 <= i < |patterns| => [EXCLUDE_PREFIX] + patterns[i])
  }

  /** The include list followed by the marked exclude list. */
  function IdentityOf(selection: FileSelection): seq<string> {
    if selection.excluded == [] then selection.included else selection.included + MarkAll(selection.excluded)
  }

  predicate Marked(p: string) {
    p != "" && p[0] == EXCLUDE_PREFIX
  }

  /** The mark tells excludes from includes, so the identity list splits back. */
  lemma IdentitySplits(a: FileSelection)
    requires a.Valid()
    ensures IdentityOf(a) == a.included + MarkAll(a.excluded)
    ensures forall i :: 0 <= i < |IdentityOf(a)| ==> (Marked(IdentityOf(a)[i]) <==> i >= |a.included|)
  {
    assert a.included + [] == a.included;
    forall i | 0 <= i < |a.included| ensures !Marked(a.included[i]) {
      assert IsSafePattern(a.included[i]);
    }
  }

  lemma IdentityIsInjective(a: FileSelection, b: FileSelection)
    requires a.Valid() && b.Valid() && IdentityOf(a) == IdentityOf(b)
    ensures a == b
  {
    IdentitySplits(a);
    IdentitySplits(b);
    var id := IdentityOf(a);
    var k := if |a.included| < |b.included| then |a.included| else |b.included|;
    assert k < |id| ==> (Marked(id[k]) <==> k >= |a.included|) && (Marked(id[k]) <==> k >= |b.included|);
    assert a.included == id[..|a.included|] == b.included;
    assert MarkAll(a.excluded) == id[|a.included|..] == MarkAll(b.excluded);
    forall i | 0 <= i < |a.excluded| ensures a.excluded[i] == b.excluded[i] {
      assert MarkAll(a.excluded)[i][1..] == a.excluded[i];
      assert MarkAll(b.excluded)[i][1..] == b.excluded[i];
    }
  }

  /** Two validated selections have equal identity lists exactly when they include and exclude the
      same patterns. */
  lemma IdentityIsTheTwoSets(a: FileSelection, b: FileSelection)
    requires a.Valid() && b.Valid()
    ensures IdentityOf(a) == IdentityOf(b) <==>
            (forall p :: p in a.included <==> p in b.included) && (forall p :: p in a.excluded <==> p in b.excluded)
  {
    if IdentityOf(a) == IdentityOf(b) {
      IdentityIsInjective(a, b);
    } else if (forall p :: p in a.included <==> p in b.included) && (forall p :: p in a.excluded <==> p in b.excluded) {
      AscendingIsCanonical(a.included, b.included);
      AscendingIsCanonical(a.excluded, b.excluded);
    }
  }
}
