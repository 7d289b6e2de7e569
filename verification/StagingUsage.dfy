/** Measuring a staging directory: a walk with an explicit stack, a bound on the entries it looks at
    and sums that saturate at 64 bits. */
module StagingUsage {
  import opened FileTree
  import opened Cleanup

  const ENTRY_LIMIT: nat := 1_000_000
  const MAX_SIZE: nat := 0xFFFF_FFFF_FFFF_FFFF

  /** What the operating system refuses: reading a directory, reading one of its entries, and
      reading an entry's metadata. */
  datatype Faults = Faults(unreadable: set<Place>, unlisted: set<Place>, unmeasured: set<Place>)

  datatype Usage = Usage(sizeBytes: nat, fileCount: nat, complete: bool)

  // ---------------------------------------------------------------- the recursive sum

  predicate IsMeasured(t: Tree, p: Place) {
    p in t && !t[p].Directory?
  }

  /** The length a regular file or link itself reports; nothing is followed. */
  function Length(t: Tree, lengths: map<Place, nat>, p: Place): nat {
    if IsMeasured(t, p) && p in lengths then lengths[p] else 0
  }

  ghost function Total(t: Tree, lengths: map<Place, nat>, places: set<Place>): nat {
    if places == {} then 0
    else
      var p :| p in places;
      Length(t, lengths, p) + Total(t, lengths, places - {p})
  }

  function Measured(t: Tree, places: set<Place>): set<Place> {
    set p | p in places && IsMeasured(t, p)
  }

  lemma TotalPicks(t: Tree, lengths: map<Place, nat>, places: set<Place>) returns (p: Place)
    requires places != {}
    ensures p in places && Total(t, lengths, places) == Length(t, lengths, p) + Total(t, lengths, places - {p})
  {
    hide Length;
    p :| p in places && Total(t, lengths, places) == Length(t, lengths, p) + Total(t, lengths, places - {p});
  }

  /** The sum does not depend on the order it is taken in. */
  lemma {:induction false} TotalOfMore(t: Tree, lengths: map<Place, nat>, places: set<Place>, p: Place)
    requires p !in places
    ensures Total(t, lengths, places + {p}) == Total(t, lengths, places) + Length(t, lengths, p)
    decreases |places|
  {
    hide Length, Total;
    var q := TotalPicks(t, lengths, places + {p});
    if q == p {
      assert places + {p} - {p} == places;
    } else {
      assert places + {p} - {q} == places - {q} + {p} && places == places - {q} + {q};
      TotalOfMore(t, lengths, places - {q}, p);
      TotalOfMore(t, lengths, places - {q}, q);
    }
  }

  lemma {:induction false} TotalGrows(t: Tree, lengths: map<Place, nat>, a: set<Place>, b: set<Place>)
    requires a <= b
    ensures Total(t, lengths, a) <= Total(t, lengths, b) && |Measured(t, a)| <= |Measured(t, b)|
    decreases |b - a|
  {
    hide Length, Total, Measured;
    if b - a == {} {
      assert a == b;
    } else {
      var p :| p in b - a;
      TotalOfMore(t, lengths, a, p);
      MeasuredOfMore(t, a, p);
      TotalGrows(t, lengths, a + {p}, b);
    }
  }

  lemma MeasuredOfMore(t: Tree, places: set<Place>, p: Place)
    requires p !in places
    ensures |Measured(t, places + {p})| == |Measured(t, places)| + if IsMeasured(t, p) then 1 else 0
  {
    assert Measured(t, places + {p}) == Measured(t, places) + if IsMeasured(t, p) then {p} else {};
  }

  function Cap(n: nat): nat {
    if n <= MAX_SIZE then n else MAX_SIZE
  }

  // ---------------------------------------------------------------- the walk

  /** What is measured: a directory of a tree, the lengths reported in it, and what is refused. */
  datatype Site = Site(tree: Tree, lengths: map<Place, nat>, path: Place, faults: Faults)

  datatype Walk = Walk(size: nat, count: nat, complete: bool, examined: nat, pending: seq<Place>)

  /** The entries measured so far, and those the stack, or the directory being read, still leads to. */
  datatype Cover = Cover(seen: set<Place>, open: set<Place>)

  predicate IsFault(site: Site, p: Place) {
    || p in site.faults.unlisted || p in site.faults.unmeasured
    || (p in site.tree && site.tree[p].Directory? && p in site.faults.unreadable)
  }

  /** Something in the directory cannot be read. */
  predicate Faulty(site: Site) {
    !IsDir(site.tree, site.path) || site.path in site.faults.unreadable || exists p :: p in Subtree(site.tree, site.path) && IsFault(site, p)
  }

  /** One of a directory's entries, with what is below it. */
  function Chunk(t: Tree, dir: Place, name: string): set<Place> {
    set p | p in t && Of(dir, name, p)
  }

  predicate OnStack(t: Tree, pending: seq<Place>, p: Place) {
    exists i :: 0 <= i < |pending| && p in Subtree(t, pending[i])
  }

  /** The sums are those of the entries seen, once each. */
  ghost predicate SumsOK(site: Site, w: Walk, c: Cover) {
    && c.seen <= Subtree(site.tree, site.path)
    && w.size == Cap(Total(site.tree, site.lengths, c.seen)) && w.count == |Measured(site.tree, c.seen)|
    && (w.complete ==> w.examined == |c.seen| <= ENTRY_LIMIT)
    && (!w.complete ==> Faulty(site) || |Subtree(site.tree, site.path)| > ENTRY_LIMIT)
  }

  /** The stack's directories and `extra` are disjoint parts of what is open. */
  predicate StackOK(site: Site, w: Walk, c: Cover, extra: set<Place>) {
    && c.open <= Subtree(site.tree, site.path) && c.seen !! c.open && extra <= c.open
    && (forall i :: 0 <= i < |w.pending| ==>
          && Subtree(site.tree, w.pending[i]) <= c.open && Subtree(site.tree, w.pending[i]) !! extra
          && IsDir(site.tree, w.pending[i]) && (w.pending[i] == site.path || w.pending[i] in Subtree(site.tree, site.path)))
    && (forall i, j :: 0 <= i < j < |w.pending| ==> Subtree(site.tree, w.pending[i]) !! Subtree(site.tree, w.pending[j]))
  }

  /** While nothing has been missed, everything is seen or still open, and everything seen could be
      read, save directories still on the stack. */
  predicate NothingMissed(site: Site, w: Walk, c: Cover, extra: set<Place>) {
    && c.seen + c.open == Subtree(site.tree, site.path)
    && (forall p :: p in c.open ==> p in extra || OnStack(site.tree, w.pending, p))
    && (forall p :: p in c.seen && IsFault(site, p) ==> p in w.pending && p !in site.faults.unlisted && p !in site.faults.unmeasured)
    && (site.path in site.faults.unreadable ==> site.path in w.pending)
  }

  ghost predicate WalkOK(site: Site, w: Walk, c: Cover, extra: set<Place>) {
    SumsOK(site, w, c) && StackOK(site, w, c, extra) && (w.complete ==> NothingMissed(site, w, c, extra))
  }

  lemma ChunkOfEntry(t: Tree, dir: Place, name: string)
    requires WellFormed(t) && dir + [name] in t
    ensures dir + [name] in Chunk(t, dir, name) && Subtree(t, dir + [name]) == Chunk(t, dir, name) - {dir + [name]}
    ensures !t[dir + [name]].Directory? ==> Chunk(t, dir, name) == {dir + [name]}
  {
    hide WellFormed;
    var p := dir + [name];
    assert Of(dir, name, p);
    forall q | q in t ensures q in Chunk(t, dir, name) <==> q == p || q in Subtree(t, p) { UnderChild(dir, name, q); }
    if !t[p].Directory? {
      forall q | q in t ensures !Under(p, q) {
        if Under(p, q) { Ancestor(t, q, |p|); }
      }
    }
  }

  /** An entry that cannot be read is dropped with everything below it. */
  lemma MissedEntry(site: Site, w: Walk, c: Cover, extra: set<Place>, chunk: set<Place>, w': Walk)
    requires WalkOK(site, w, c, extra) && chunk <= extra
    requires w' == w.(complete := false, examined := w'.examined) && (Faulty(site) || |Subtree(site.tree, site.path)| > ENTRY_LIMIT)
    ensures WalkOK(site, w', c.(open := c.open - chunk), extra - chunk)
  {
    hide Total, Measured, Subtree, Faulty;
  }

  lemma SeenFits(site: Site, c: Cover, p: Place)
    requires c.seen <= Subtree(site.tree, site.path) && p in Subtree(site.tree, site.path) && p !in c.seen
    ensures |c.seen| + 1 <= |Subtree(site.tree, site.path)|
  {
    hide Subtree;
    var all := Subtree(site.tree, site.path);
    assert c.seen + {p} <= all;
    assert all == c.seen + {p} + (all - (c.seen + {p}));
    assert |c.seen + {p}| == |c.seen| + 1;
  }

  /** A file's length is added; a directory is put on the stack. */
  lemma SeenEntry(site: Site, w: Walk, c: Cover, extra: set<Place>, dir: Place, name: string)
    requires WellFormed(site.tree) && WalkOK(site, w, c, extra) && dir + [name] in site.tree && Chunk(site.tree, dir, name) <= extra
    requires dir + [name] !in site.faults.unlisted && dir + [name] !in site.faults.unmeasured && w.examined < ENTRY_LIMIT
    ensures WalkOK(site, Examined(site, w, dir + [name]), Cover(c.seen + {dir + [name]}, c.open - {dir + [name]}),
                   extra - Chunk(site.tree, dir, name))
  {
    hide WellFormed, Total, Measured, Faulty, WalkOK, Subtree, Chunk;
    ChunkOfEntry(site.tree, dir, name);
    SeenSums(site, w, c, extra, dir + [name]);
    SeenStack(site, w, c, extra, Chunk(site.tree, dir, name), dir + [name]);
    if w.complete { SeenAll(site, w, c, extra, Chunk(site.tree, dir, name), dir + [name]); }
    WalkParts(site, Examined(site, w, dir + [name]), Cover(c.seen + {dir + [name]}, c.open - {dir + [name]}),
              extra - Chunk(site.tree, dir, name));
  }

  lemma WalkParts(site: Site, w: Walk, c: Cover, extra: set<Place>)
    ensures WalkOK(site, w, c, extra) <==>
              SumsOK(site, w, c) && StackOK(site, w, c, extra) && (w.complete ==> NothingMissed(site, w, c, extra))
  {
  }

  /** The walk after one more entry. */
  function Examined(site: Site, w: Walk, p: Place): Walk
    requires p in site.tree
  {
    var w1 := w.(examined := w.examined + 1);
    if site.tree[p].Directory? then w1.(pending := w.pending + [p])
    else w1.(size := Cap(w.size + Length(site.tree, site.lengths, p)), count := w.count + 1)
  }

  lemma SeenSums(site: Site, w: Walk, c: Cover, extra: set<Place>, p: Place)
    requires WalkOK(site, w, c, extra) && p in site.tree && p in extra && w.examined < ENTRY_LIMIT
    ensures SumsOK(site, Examined(site, w, p), Cover(c.seen + {p}, c.open - {p}))
  {
    hide Total, Measured, Faulty, Subtree;
    TotalOfMore(site.tree, site.lengths, c.seen, p);
    MeasuredOfMore(site.tree, c.seen, p);
    assert |c.seen + {p}| == |c.seen| + 1;
  }

  lemma SeenStack(site: Site, w: Walk, c: Cover, extra: set<Place>, chunk: set<Place>, p: Place)
    requires WalkOK(site, w, c, extra) && p in site.tree && chunk <= extra && p in chunk
    requires Subtree(site.tree, p) == chunk - {p} && (!site.tree[p].Directory? ==> chunk == {p})
    ensures StackOK(site, Examined(site, w, p), Cover(c.seen + {p}, c.open - {p}), extra - chunk)
  {
    hide SumsOK, Subtree, NothingMissed, Length;
  }

  lemma SeenAll(site: Site, w: Walk, c: Cover, extra: set<Place>, chunk: set<Place>, p: Place)
    requires WalkOK(site, w, c, extra) && w.complete && p in site.tree && chunk <= extra && p in chunk
    requires Subtree(site.tree, p) == chunk - {p} && (!site.tree[p].Directory? ==> chunk == {p})
    requires p !in site.faults.unlisted && p !in site.faults.unmeasured
    ensures NothingMissed(site, Examined(site, w, p), Cover(c.seen + {p}, c.open - {p}), extra - chunk)
  {
    hide SumsOK, Subtree, Length;
    var w', c' := Examined(site, w, p), Cover(c.seen + {p}, c.open - {p});
    forall q | q in c'.open && q !in extra - chunk ensures OnStack(site.tree, w'.pending, q) {
      if q in chunk {
        assert w'.pending[|w.pending|] == p;
      } else {
        var i :| 0 <= i < |w.pending| && q in Subtree(site.tree, w.pending[i]);
        assert w'.pending[i] == w.pending[i];
      }
    }
  }

  // ---------------------------------------------------------------- the loops

  function Work(w: Walk, c: Cover): nat {
    |w.pending| + |c.open|
  }

  lemma Shrinks(a: set<Place>, b: set<Place>)
    ensures |a - b| <= |a|
    ensures forall p :: p in a ==> |a - {p}| == |a| - 1
  {
    assert a == (a - b) + (a * b);
  }

  /** One directory entry. `stopped` means the bound was reached. */
  method ReadEntry(site: Site, w: Walk, ghost c: Cover, ghost extra: set<Place>, dir: Place, name: string)
    returns (w': Walk, ghost c': Cover, stopped: bool)
    requires WellFormed(site.tree) && WalkOK(site, w, c, extra)
    requires dir + [name] in site.tree && Chunk(site.tree, dir, name) <= extra
    ensures !stopped ==> WalkOK(site, w', c', extra - Chunk(site.tree, dir, name)) && Work(w', c') <= Work(w, c)
    ensures stopped ==> !w'.complete && SumsOK(site, w', c')
  {
    hide WellFormed, WalkOK, Total, Measured, Subtree, Chunk, Faulty, IsFault, StackOK, NothingMissed, SumsOK;
    var p := dir + [name];
    ChunkOfEntry(site.tree, dir, name);
    EntryIsBelow(site, w, c, extra, p);
    c' := c.(open := c.open - Chunk(site.tree, dir, name));
    Shrinks(c.open, Chunk(site.tree, dir, name));
    stopped := false;
    if p in site.faults.unlisted {
      w' := w.(complete := false);
      FaultShows(site, p);
      MissedEntry(site, w, c, extra, Chunk(site.tree, dir, name), w');
    } else if w.examined + 1 > ENTRY_LIMIT {
      w' := w.(examined := w.examined + 1, complete := false);
      c', stopped := c, true;
      LimitShows(site, w, c, extra, p);
    } else if p in site.faults.unmeasured {
      w' := w.(examined := w.examined + 1, complete := false);
      FaultShows(site, p);
      MissedEntry(site, w, c, extra, Chunk(site.tree, dir, name), w');
    } else {
      SeenEntry(site, w, c, extra, dir, name);
      w', c' := Examined(site, w, p), Cover(c.seen + {p}, c.open - {p});
    }
  }

  lemma EntryIsBelow(site: Site, w: Walk, c: Cover, extra: set<Place>, p: Place)
    requires WalkOK(site, w, c, extra) && p in extra
    ensures p in Subtree(site.tree, site.path) && p !in c.seen && p in c.open
  {
    hide SumsOK, NothingMissed, Subtree;
  }

  lemma FaultShows(site: Site, p: Place)
    requires p in Subtree(site.tree, site.path) && (p in site.faults.unlisted || p in site.faults.unmeasured)
    ensures Faulty(site)
  {
    hide Subtree;
    assert IsFault(site, p);
  }

  lemma LimitShows(site: Site, w: Walk, c: Cover, extra: set<Place>, p: Place)
    requires WalkOK(site, w, c, extra) && p in extra && w.examined >= ENTRY_LIMIT
    ensures SumsOK(site, w.(examined := w.examined + 1, complete := false), c)
  {
    hide Total, Measured, Subtree, Faulty, StackOK, NothingMissed;
    EntryIsBelow(site, w, c, extra, p);
    SeenFits(site, c, p);
  }

  /** Every entry of a directory, in any order. */
  method ReadDirectory(site: Site, w0: Walk, ghost c0: Cover, dir: Place) returns (w: Walk, ghost c: Cover, stopped: bool)
    requires WellFormed(site.tree) && WalkOK(site, w0, c0, Subtree(site.tree, dir))
    ensures !stopped ==> WalkOK(site, w, c, {}) && Work(w, c) <= Work(w0, c0)
    ensures stopped ==> !w.complete && SumsOK(site, w, c)
  {
    hide WellFormed, WalkOK, SumsOK, Subtree, Chunk, Work;
    w, c, stopped := w0, c0, false;
    var rest := Names(site.tree, dir);
    ghost var extra := Subtree(site.tree, dir);
    AllChunks(site.tree, dir);
    while rest != {}
      invariant WalkOK(site, w, c, extra) && rest <= Names(site.tree, dir) && Work(w, c) <= Work(w0, c0)
      invariant ChunksLeft(site.tree, dir, rest, extra)
      decreases |rest|
    {
      var name :| name in rest;
      rest := rest - {name};
      NamesAre(site.tree, dir, name);
      NextChunk(site.tree, dir, rest + {name}, extra, name);
      w, c, stopped := ReadEntry(site, w, c, extra, dir, name);
      if stopped { return; }
      extra := extra - Chunk(site.tree, dir, name);
    }
    NoChunks(site.tree, dir, extra);
  }

  /** `extra` is what is at or below the names in `rest`. */
  predicate ChunksLeft(t: Tree, dir: Place, rest: set<string>, extra: set<Place>) {
    && (forall name :: name in rest ==> Chunk(t, dir, name) <= extra)
    && (forall p :: p in extra ==> p in t && Under(dir, p) && p[|dir|] in rest)
  }

  lemma AllChunks(t: Tree, dir: Place)
    requires WellFormed(t)
    ensures ChunksLeft(t, dir, Names(t, dir), Subtree(t, dir))
  {
    hide WellFormed, Names;
    forall p | p in Subtree(t, dir) ensures p[|dir|] in Names(t, dir) {
      ChildOf(t, dir, p);
    }
  }

  lemma NextChunk(t: Tree, dir: Place, rest: set<string>, extra: set<Place>, name: string)
    requires ChunksLeft(t, dir, rest, extra) && name in rest
    ensures Chunk(t, dir, name) <= extra && ChunksLeft(t, dir, rest - {name}, extra - Chunk(t, dir, name))
    ensures rest - {name} + {name} == rest
  {
    forall p | p in extra - Chunk(t, dir, name) ensures p[|dir|] in rest - {name} {
      assert p[|dir|] == name ==> p in Chunk(t, dir, name);
    }
  }

  lemma NoChunks(t: Tree, dir: Place, extra: set<Place>)
    requires ChunksLeft(t, dir, {}, extra)
    ensures extra == {}
  {
  }

  /** Measures a directory without leaving it. The figures are exact, up to saturation, when the walk
      reports itself complete; it does exactly when everything could be read and the bound was not
      reached, and otherwise the figures are lower bounds. */
  method MeasureUsage(site: Site) returns (usage: Usage)
    requires WellFormed(site.tree)
    ensures var all := Subtree(site.tree, site.path);
            && (usage.complete <==> !Faulty(site) && |all| <= ENTRY_LIMIT)
            && (usage.complete ==> usage.sizeBytes == Cap(Total(site.tree, site.lengths, all)))
            && (usage.complete ==> usage.fileCount == |Measured(site.tree, all)|)
            && usage.sizeBytes <= Cap(Total(site.tree, site.lengths, all))
            && usage.fileCount <= |Measured(site.tree, all)|
  {
    hide WellFormed, WalkOK, SumsOK, Subtree, Total, Measured, IsDir, IsFault;
    if !IsDir(site.tree, site.path) { return Usage(0, 0, false); }
    var w := Walk(0, 0, true, 0, [site.path]);
    ghost var c := Cover({}, Subtree(site.tree, site.path));
    StartsOK(site);
    while w.pending != []
      invariant WalkOK(site, w, c, {})
      decreases Work(w, c)
    {
      var dir := w.pending[|w.pending| - 1];
      var popped := w.(pending := w.pending[..|w.pending| - 1]);
      if dir in site.faults.unreadable {
        PopUnreadable(site, w, c);
        Shrinks(c.open, Subtree(site.tree, dir));
        w, c := popped.(complete := false), c.(open := c.open - Subtree(site.tree, dir));
      } else {
        PopReadable(site, w, c);
        var stopped;
        w, c, stopped := ReadDirectory(site, popped, c, dir);
        if stopped {
          Bounds(site, w, c);
          return Usage(w.size, w.count, false);
        }
      }
    }
    WalkParts(site, w, c, {});
    Bounds(site, w, c);
    if w.complete { EndsComplete(site, w, c); }
    return Usage(w.size, w.count, w.complete);
  }

  lemma StartsOK(site: Site)
    requires IsDir(site.tree, site.path)
    ensures WalkOK(site, Walk(0, 0, true, 0, [site.path]), Cover({}, Subtree(site.tree, site.path)), {})
  {
    hide Subtree, Faulty;
    var w := Walk(0, 0, true, 0, [site.path]);
    assert w.pending[0] == site.path;
  }

  lemma PopUnreadable(site: Site, w: Walk, c: Cover)
    requires WalkOK(site, w, c, {}) && w.pending != [] && w.pending[|w.pending| - 1] in site.faults.unreadable
    ensures var dir := w.pending[|w.pending| - 1];
            WalkOK(site, w.(pending := w.pending[..|w.pending| - 1], complete := false),
                   c.(open := c.open - Subtree(site.tree, dir)), {})
  {
    hide Total, Measured, Subtree, NothingMissed;
    var dir := w.pending[|w.pending| - 1];
    if dir != site.path { InSubtree(site.tree, site.path, dir); assert IsFault(site, dir); }
  }

  lemma InSubtree(t: Tree, path: Place, p: Place)
    requires p in Subtree(t, path)
    ensures p in t && p != []
  {
  }

  lemma PopReadable(site: Site, w: Walk, c: Cover)
    requires WalkOK(site, w, c, {}) && w.pending != [] && w.pending[|w.pending| - 1] !in site.faults.unreadable
    ensures var dir := w.pending[|w.pending| - 1];
            WalkOK(site, w.(pending := w.pending[..|w.pending| - 1]), c, Subtree(site.tree, dir))
  {
    hide Total, Measured, Subtree, Faulty, StackOK, NothingMissed, IsFault;
    PopStack(site, w, c);
    if w.complete { PopMissesNothing(site, w, c); }
  }

  lemma PopStack(site: Site, w: Walk, c: Cover)
    requires StackOK(site, w, c, {}) && w.pending != []
    ensures StackOK(site, w.(pending := w.pending[..|w.pending| - 1]), c, Subtree(site.tree, w.pending[|w.pending| - 1]))
  {
    hide Subtree, IsDir;
  }

  lemma PopMissesNothing(site: Site, w: Walk, c: Cover)
    requires NothingMissed(site, w, c, {}) && w.pending != [] && w.pending[|w.pending| - 1] !in site.faults.unreadable
    ensures NothingMissed(site, w.(pending := w.pending[..|w.pending| - 1]), c, Subtree(site.tree, w.pending[|w.pending| - 1]))
  {
    hide Subtree;
    var dir := w.pending[|w.pending| - 1];
    var w' := w.(pending := w.pending[..|w.pending| - 1]);
    forall p | p in c.open && p !in Subtree(site.tree, dir) ensures OnStack(site.tree, w'.pending, p) {
      var i :| 0 <= i < |w.pending| && p in Subtree(site.tree, w.pending[i]);
      assert w'.pending[i] == w.pending[i];
    }
  }

  lemma Bounds(site: Site, w: Walk, c: Cover)
    requires SumsOK(site, w, c)
    ensures w.size <= Cap(Total(site.tree, site.lengths, Subtree(site.tree, site.path)))
    ensures w.count <= |Measured(site.tree, Subtree(site.tree, site.path))|
    ensures !w.complete ==> Faulty(site) || |Subtree(site.tree, site.path)| > ENTRY_LIMIT
  {
    hide Total, Measured, Subtree, Faulty;
    TotalGrows(site.tree, site.lengths, c.seen, Subtree(site.tree, site.path));
  }

  lemma EndsComplete(site: Site, w: Walk, c: Cover)
    requires WalkOK(site, w, c, {}) && w.pending == [] && w.complete
    ensures c.seen == Subtree(site.tree, site.path)
    ensures w.size == Cap(Total(site.tree, site.lengths, Subtree(site.tree, site.path)))
    ensures w.count == |Measured(site.tree, Subtree(site.tree, site.path))|
    ensures IsDir(site.tree, site.path) ==> !Faulty(site)
    ensures |Subtree(site.tree, site.path)| <= ENTRY_LIMIT
  {
    hide Total, Measured, Subtree, IsFault;
    assert forall p :: p in c.open ==> OnStack(site.tree, w.pending, p);
    assert c.open == {};
  }
}
