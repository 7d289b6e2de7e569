/** The file system as the archive sees it: regular files, directories and symbolic links. */
module FileTree {
  import opened Common
  import opened Manifests
  import opened Paths
  import opened Text

  /** The directory entries leading from the root to a node. */
  type Place = seq<string>

  /** A file's bytes, with what the archive's two parsers make of them: the manifest they hold as
      JSON, if any, and their text with surrounding space trimmed, if they are UTF-8. A link holds
      the place it points to, a relative target already resolved against its own directory. */
  datatype Node =
    | File(bytes: Bytes, manifest: Option<Manifest>, line: Option<string>)
    | Directory
    | Link(target: Place)

  type Tree = map<Place, Node>

  function Plain(content: Bytes): Node {
    File(content, None, None)
  }

  /** The file a source becomes. */
  function NodeOf(file: Source): Node {
    File(file.content, file.parsed, None)
  }

  predicate Under(dir: Place, p: Place) {
    |dir| < |p| && p[..|dir|] == dir
  }

  predicate Within(root: Place, p: Place) {
    p == root || Under(root, p)
  }

  predicate IsDir(t: Tree, p: Place) {
    p == [] || (p in t && t[p].Directory?)
  }

  function Parent(p: Place): Place
    requires p != []
  {
    p[..|p| - 1]
  }

  predicate IsName(name: string) {
    name != "" && name != "." && name != ".." && '/' !in name
  }

  /** Every node sits in a directory and has a proper name. */
  predicate WellFormed(t: Tree) {
    forall p :: p in t ==> p != [] && IsDir(t, Parent(p)) && AllNames(p)
  }

  predicate AllNames(p: Place) {
    forall i :: 0 <= i < |p| ==> IsName(p[i])
  }

  function Names(t: Tree, dir: Place): set<string> {
    set p | p in t && |p| == |dir| + 1 && Under(dir, p) :: p[|dir|]
  }

  lemma NamesAre(t: Tree, dir: Place, name: string)
    ensures name in Names(t, dir) <==> dir + [name] in t
  {
    if dir + [name] in t {
      assert Under(dir, dir + [name]) && (dir + [name])[|dir|] == name;
    }
    if name in Names(t, dir) {
      var p :| p in t && |p| == |dir| + 1 && Under(dir, p) && p[|dir|] == name;
      assert p == dir + [name];
    }
  }

  /** Every place between a directory and a node below it is a directory holding that node. */
  lemma {:induction false} Ancestor(t: Tree, p: Place, n: nat)
    requires WellFormed(t) && p in t && n < |p|
    ensures IsDir(t, p[..n])
    decreases |p| - n
  {
    if n < |p| - 1 {
      Ancestor(t, p, n + 1);
      assert Parent(p[..n + 1]) == p[..n];
    }
  }

  lemma RemovalIsWellFormed(t: Tree, p: Place)
    requires WellFormed(t) && p in t && Names(t, p) == {}
    ensures WellFormed(t - {p})
  {
    hide Names, AllNames;
    var t' := t - {p};
    forall q | q in t' ensures q != [] && IsDir(t', Parent(q)) && AllNames(q) {
      assert q in t;
      var last := q[|q| - 1];
      assert q == Parent(q) + [last];
      NamesAre(t, p, last);
    }
  }

  // ---------------------------------------------------------------- links

  /** How many links one lookup may follow. */
  const MAX_LINKS := 40

  /** Looks up `rest` from the real place `at`, following links. */
  function Walk(t: Tree, at: Place, rest: seq<string>, links: nat): Option<Place>
    decreases links, |rest|
  {
    if rest == [] then Some(at)
    else
      var next := at + [rest[0]];
      if !IsDir(t, at) || next !in t then None
      else if t[next].Link? then
        if links == 0 then None else Walk(t, [], t[next].target + rest[1..], links - 1)
      else Walk(t, next, rest[1..], links)
  }

  /** The real place a path leads to. */
  function Canonical(t: Tree, p: Place): Option<Place> {
    Walk(t, [], p, MAX_LINKS)
  }

  /** The node a path leads to. */
  function Stat(t: Tree, p: Place): Option<Node> {
    var q := Canonical(t, p);
    if q.None? then None
    else if q.value == [] then Some(Directory)
    else if q.value in t then Some(t[q.value])
    else None
  }

  /** The node a path leads to, its last component not followed. */
  function Lstat(t: Tree, p: Place): Option<Node> {
    if p == [] then Some(Directory)
    else
      var dir := Canonical(t, Parent(p));
      if dir.Some? && IsDir(t, dir.value) && dir.value + [p[|p| - 1]] in t then Some(t[dir.value + [p[|p| - 1]]])
      else None
  }

  /** The lookup fails because a directory on the way does not hold the next name; it may fail for other
      reasons too, such as a file where a directory is needed. */
  predicate Absent(t: Tree, at: Place, rest: seq<string>, links: nat)
    decreases links, |rest|
  {
    rest != [] && IsDir(t, at) &&
    var next := at + [rest[0]];
    if next !in t then true
    else if t[next].Link? then links > 0 && Absent(t, [], t[next].target + rest[1..], links - 1)
    else Absent(t, next, rest[1..], links)
  }

  /** The node itself is missing, a link in its place not followed. */
  predicate IsMissing(t: Tree, p: Place) {
    p != [] &&
    var dir := Canonical(t, Parent(p));
    || Absent(t, [], Parent(p), MAX_LINKS)
    || (dir.Some? && IsDir(t, dir.value) && dir.value + [p[|p| - 1]] !in t)
  }

  /** Where opening a file at `p` for writing takes place: links are followed to the end, and the last
      name may be free. */
  function Landing(t: Tree, p: Place, links: nat): Option<Place>
    decreases links
  {
    if p == [] || !IsName(p[|p| - 1]) then None
    else
      var dir := Canonical(t, Parent(p));
      if dir.None? || !IsDir(t, dir.value) then None
      else
        var q := dir.value + [p[|p| - 1]];
        if q in t && t[q].Link? then
          if links == 0 then None else Landing(t, t[q].target, links - 1)
        else Some(q)
  }

  /** A write lands at a proper place in a real directory, and never on a link. */
  lemma {:induction false} LandingIsReal(t: Tree, p: Place, links: nat)
    requires WellFormed(t) && Landing(t, p, links).Some?
    ensures var q := Landing(t, p, links).value;
            q != [] && IsDir(t, Parent(q)) && AllNames(q) && (q in t ==> !t[q].Link?)
    decreases links
  {
    var dir := Canonical(t, Parent(p)).value;
    var q := dir + [p[|p| - 1]];
    assert Parent(q) == dir;
    if q in t && t[q].Link? {
      LandingIsReal(t, t[q].target, links - 1);
    }
  }

  lemma LandsHere(t: Tree, dir: Place, name: string)
    requires WellFormed(t) && dir in t && t[dir].Directory? && IsName(name)
    requires dir + [name] in t ==> !t[dir + [name]].Link?
    ensures Landing(t, dir + [name], MAX_LINKS) == Some(dir + [name])
  {
    DirectIsCanonical(t, dir);
    assert Parent(dir + [name]) == dir;
  }

  /** The last step of a lookup. */
  lemma {:induction false} WalkLast(t: Tree, at: Place, rest: seq<string>, last: string, links: nat)
    ensures var dir, q := Walk(t, at, rest, links), Walk(t, at, rest + [last], links);
            && (q.Some? ==> dir.Some? && IsDir(t, dir.value) && dir.value + [last] in t)
            && (dir.Some? && IsDir(t, dir.value) && dir.value + [last] in t && !t[dir.value + [last]].Link? ==>
                  q == Some(dir.value + [last]))
    decreases links, |rest|
  {
    if rest == [] {
      assert rest + [last] == [last] && [last][1..] == [];
    } else {
      assert (rest + [last])[0] == rest[0] && (rest + [last])[1..] == rest[1..] + [last];
      var next := at + [rest[0]];
      if IsDir(t, at) && next in t {
        if !t[next].Link? {
          WalkLast(t, next, rest[1..], last, links);
        } else if links > 0 {
          WalkLast(t, [], t[next].target + rest[1..], last, links - 1);
          assert t[next].target + rest[1..] + [last] == t[next].target + (rest[1..] + [last]);
        }
      }
    }
  }

  /** What resolves exists, and a path that does not end in a link ends where its directory does. */
  lemma StatAndLstat(t: Tree, p: Place)
    requires p != []
    ensures Canonical(t, p).Some? ==> Lstat(t, p).Some?
    ensures Lstat(t, p).Some? && !Lstat(t, p).value.Link? ==>
              Canonical(t, Parent(p)).Some? && Canonical(t, p) == Some(Canonical(t, Parent(p)).value + [p[|p| - 1]])
              && Stat(t, p) == Lstat(t, p)
  {
    assert p == Parent(p) + [p[|p| - 1]];
    WalkLast(t, [], Parent(p), p[|p| - 1], MAX_LINKS);
  }

  lemma NextIsReal(t: Tree, at: Place, rest: seq<string>)
    requires WellFormed(t) && rest != [] && at + rest in t && !t[at + rest].Link?
    ensures IsDir(t, at) && at + [rest[0]] in t && !t[at + [rest[0]]].Link?
    ensures at + [rest[0]] + rest[1..] == at + rest
  {
    hide WellFormed;
    var p := at + rest;
    Ancestor(t, p, |at|);
    assert p[..|at|] == at;
    assert p[..|at| + 1] == at + [rest[0]];
    if |rest| > 1 { Ancestor(t, p, |at| + 1); } else { assert p == at + [rest[0]]; }
  }

  /** A node none of whose ancestors is a link is where its path says. */
  lemma {:induction false} WalkDirect(t: Tree, at: Place, rest: seq<string>, links: nat)
    requires WellFormed(t) && (at + rest == [] || (at + rest in t && !t[at + rest].Link?))
    ensures Walk(t, at, rest, links) == Some(at + rest)
    decreases |rest|
  {
    hide WellFormed;
    if rest == [] {
      assert at + rest == at;
    } else {
      NextIsReal(t, at, rest);
      WalkDirect(t, at + [rest[0]], rest[1..], links);
    }
  }

  lemma RootIsCanonical(t: Tree)
    ensures Canonical(t, []) == Some([])
  {
  }

  lemma DirectIsCanonical(t: Tree, p: Place)
    requires WellFormed(t) && p in t && !t[p].Link?
    ensures Canonical(t, p) == Some(p) && Stat(t, p) == Some(t[p])
  {
    assert [] + p == p;
    WalkDirect(t, [], p, MAX_LINKS);
  }

  // ---------------------------------------------------------------- texts of places

  /** The spelling of the entries leading from a root to a node below it. */
  function Spelling(rel: Place): string
    requires rel != []
  {
    JoinWith('/', rel)
  }

  /** A node's spelling is in normal form and leads back to it. */
  lemma SpellingIsNormal(rel: Place)
    requires rel != [] && AllNames(rel)
    ensures Split(Spelling(rel)) == rel && Normal(Spelling(rel)) && Key(Spelling(rel)) == rel
  {
    forall part | part in rel ensures '/' !in part {
      assert exists i :: 0 <= i < |rel| && rel[i] == part;
    }
    SplitInvertsJoin('/', rel);
    NormalKey(Spelling(rel));
  }

  // ---------------------------------------------------------------- whole subtrees

  /** The tree once the node at `from`, with everything below it, has been renamed to `to`. */
  function Moved(t: Tree, from: Place, to: Place): Tree {
    var kept := map p | p in t && !Within(from, p) :: t[p];
    var moved := map p | p in (set q | q in t && Within(from, q) :: to + q[|from|..]) && from + p[|to|..] in t :: t[from + p[|to|..]];
    kept + moved
  }

  predicate Apart(a: Place, b: Place) {
    !Within(a, b) && !Within(b, a)
  }

  lemma MovedIs(t: Tree, from: Place, to: Place, p: Place)
    requires Apart(from, to)
    ensures Within(to, p) && from + p[|to|..] in t ==> p in Moved(t, from, to) && Moved(t, from, to)[p] == t[from + p[|to|..]]
    ensures Within(to, p) && from + p[|to|..] !in t && p !in t ==> p !in Moved(t, from, to)
    ensures !Within(to, p) && !Within(from, p) ==>
              (p in Moved(t, from, to) <==> p in t) && (p in t ==> Moved(t, from, to)[p] == t[p])
    ensures Within(from, p) ==> p !in Moved(t, from, to)
  {
    var places := set q | q in t && Within(from, q) :: to + q[|from|..];
    if p in places {
      var q :| q in t && Within(from, q) && to + q[|from|..] == p;
      assert p[|to|..] == q[|from|..] && from + p[|to|..] == q;
      assert p[..|to|] == to;
      if |p| == |to| { assert p == to; }
      assert Within(to, p);
      ApartBelow(from, to, p);
    }
    if Within(to, p) && from + p[|to|..] in t {
      var q := from + p[|to|..];
      if p == to { assert q == from; }
      assert Within(from, q) && q[|from|..] == p[|to|..] && to + p[|to|..] == p;
    }
  }

  lemma Nested(a: Place, b: Place, p: Place)
    ensures Within(a, p) && Within(b, p) ==> Within(a, b) || Within(b, a)
  {
    if Within(a, p) && Within(b, p) {
      assert a == p[..|a|] && b == p[..|b|];
      if |a| <= |b| { assert b[..|a|] == a; } else { assert a[..|b|] == b; }
    }
  }

  lemma ApartBelow(a: Place, b: Place, p: Place)
    requires Apart(a, b)
    ensures !(Within(a, p) && Within(b, p))
  {
    Nested(a, b, p);
  }

  lemma MovedIsWellFormed(t: Tree, from: Place, to: Place)
    requires WellFormed(t) && Apart(from, to) && to != [] && IsDir(t, Parent(to)) && AllNames(to)
    requires forall p :: p in t ==> !Within(to, p)
    requires from != []
    ensures WellFormed(Moved(t, from, to))
  {
    var t' := Moved(t, from, to);
    forall p | p in t' ensures p != [] && IsDir(t', Parent(p)) && AllNames(p) {
      MovedIs(t, from, to, p);
      if Within(to, p) {
        MovedNodeIsWellFormed(t, from, to, p);
      } else {
        assert !Within(from, p) && p in t;
        MovedIs(t, from, to, Parent(p));
        ParentApart(from, p);
        ParentApart(to, p);
      }
    }
  }

  lemma ParentApart(a: Place, p: Place)
    requires p != []
    ensures Within(a, Parent(p)) ==> Within(a, p)
  {
    if Within(a, Parent(p)) {
      assert Parent(p)[..|a|] == p[..|a|];
    }
  }

  lemma MovedNodeIsWellFormed(t: Tree, from: Place, to: Place, p: Place)
    requires WellFormed(t) && Apart(from, to) && to != [] && IsDir(t, Parent(to)) && AllNames(to)
    requires from != [] && Within(to, p) && from + p[|to|..] in t
    requires forall q :: q in t ==> !Within(to, q)
    ensures IsDir(Moved(t, from, to), Parent(p)) && AllNames(p)
  {
    var q := from + p[|to|..];
    forall i | 0 <= i < |p| ensures IsName(p[i]) {
      if i < |to| { assert p[i] == to[i]; } else { assert p[i] == q[|from| + (i - |to|)]; }
    }
    if p == to {
      MovedIs(t, from, to, Parent(to));
      if Parent(to) != [] {
        ApartParent(from, to);
      }
    } else {
      assert Parent(q) == from + Parent(p)[|to|..];
      assert Within(to, Parent(p)) by { assert Parent(p)[..|to|] == p[..|to|]; }
      MovedIs(t, from, to, Parent(p));
    }
  }

  lemma ApartParent(from: Place, to: Place)
    requires Apart(from, to) && to != []
    ensures !Within(from, Parent(to)) && !Within(to, Parent(to))
  {
    ParentApart(from, to);
  }

  function WithoutTree(t: Tree, p: Place): Tree {
    map q | q in t && !Within(p, q) :: t[q]
  }

  lemma WithoutTreeIsWellFormed(t: Tree, p: Place)
    requires WellFormed(t)
    ensures WellFormed(WithoutTree(t, p))
  {
    forall q | q in WithoutTree(t, p) ensures IsDir(WithoutTree(t, p), Parent(q)) {
      ParentApart(p, q);
    }
  }

  // ---------------------------------------------------------------- effects

  /** The file system an operation changes, one effect at a time. `outcomes` says of every effect to
      come whether it takes place or fails; after the process stops none does. `used` counts them. */
  class FileSystem {
    var tree: Tree
    const outcomes: nat -> bool
    var used: nat

    constructor (tree: Tree, outcomes: nat -> bool)
      ensures this.tree == tree && this.outcomes == outcomes && used == 0
    {
      this.tree, this.outcomes, used := tree, outcomes, 0;
    }

    /** Every effect from this one on has taken place. */
    predicate AllWent(from: nat)
      reads this`used
    {
      forall i :: from <= i < used ==> outcomes(i)
    }

    method Attempt() returns (ok: bool)
      modifies this`used
      ensures used == old(used) + 1 && (ok <==> outcomes(old(used)))
    {
      ok := outcomes(used);
      used := used + 1;
    }

    /** Creates or replaces one node. */
    method Put(p: Place, node: Node) returns (ok: bool)
      requires WellFormed(tree) && p != [] && IsDir(tree, Parent(p)) && AllNames(p)
      requires node.Directory? ==> p !in tree
      requires p in tree ==> !tree[p].Directory?
      modifies this
      ensures used == old(used) + 1 && (ok <==> outcomes(old(used)))
      ensures WellFormed(tree)
      ensures tree == if ok then old(tree)[p := node] else old(tree)
    {
      ok := Attempt();
      if !ok { return; }
      tree := tree[p := node];
    }

    /** Removes one file, link or empty directory. */
    method Remove(p: Place) returns (ok: bool)
      requires WellFormed(tree) && p in tree && Names(tree, p) == {}
      modifies this
      ensures used == old(used) + 1 && (ok <==> outcomes(old(used)))
      ensures WellFormed(tree)
      ensures tree == if ok then old(tree) - {p} else old(tree)
    {
      ok := Attempt();
      if !ok { return; }
      RemovalIsWellFormed(tree, p);
      tree := tree - {p};
    }

    /** Renames a node with everything below it to a name that is free. */
    method Rename(from: Place, to: Place) returns (ok: bool)
      requires WellFormed(tree) && from != [] && to != [] && Apart(from, to)
      requires IsDir(tree, Parent(to)) && AllNames(to) && forall p :: p in tree ==> !Within(to, p)
      modifies this
      ensures used == old(used) + 1 && (ok <==> outcomes(old(used)))
      ensures WellFormed(tree)
      ensures tree == if ok then Moved(old(tree), from, to) else old(tree)
    {
      ok := Attempt();
      if !ok { return; }
      MovedIsWellFormed(tree, from, to);
      tree := Moved(tree, from, to);
    }

    /** Makes a directory's entries durable. */
    method Sync() returns (ok: bool)
      modifies this`used
      ensures used == old(used) + 1 && (ok <==> outcomes(old(used)))
    {
      ok := Attempt();
    }

    /** Removes a directory with everything below it. */
    method RemoveAll(p: Place) returns (ok: bool)
      requires WellFormed(tree)
      modifies this
      ensures used == old(used) + 1 && (ok <==> outcomes(old(used)))
      ensures WellFormed(tree)
      ensures tree == if ok then WithoutTree(old(tree), p) else old(tree)
    {
      ok := Attempt();
      if !ok { return; }
      WithoutTreeIsWellFormed(tree, p);
      tree := WithoutTree(tree, p);
    }
  }
}
