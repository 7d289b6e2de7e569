/** Clearing a staging directory of everything a revision will not list. */
module Cleanup {
  import opened FileTree
  import opened Paths

  function Rel(root: Place, p: Place): Place
    requires |root| <= |p|
  {
    p[|root|..]
  }

  predicate IsListedFile(t: Tree, root: Place, listed: set<string>, p: Place) {
    Under(root, p) && p in t && t[p].File? && Spelling(Rel(root, p)) in listed
  }

  /** What is to remain: regular files under a listed spelling, and the directories leading to them. */
  ghost predicate Remains(t: Tree, root: Place, listed: set<string>, p: Place) {
    || IsListedFile(t, root, listed, p)
    || (p in t && t[p].Directory? && exists q :: Under(p, q) && IsListedFile(t, root, listed, q))
  }

  ghost predicate Survives(t: Tree, root: Place, listed: set<string>, p: Place)
    requires Under(root, p)
  {
    IsProtected(p[|root|]) || Remains(t, root, listed, p)
  }

  // ---------------------------------------------------------------- recursion

  function Subtree(t: Tree, dir: Place): set<Place> {
    set p | p in t && Under(dir, p)
  }

  lemma UnderChild(dir: Place, name: string, p: Place)
    ensures Under(dir + [name], p) ==> Under(dir, p) && p[|dir|] == name
    ensures Under(dir, p) && p[|dir|] == name ==> p == dir + [name] || Under(dir + [name], p)
  {
    if Under(dir + [name], p) {
      assert p[..|dir|] == p[..|dir| + 1][..|dir|];
    }
    if Under(dir, p) && p[|dir|] == name {
      assert p[..|dir| + 1] == dir + [name];
      if |p| == |dir| + 1 { assert p == p[..|dir| + 1]; }
    }
  }

  lemma UnderTrans(a: Place, b: Place, c: Place)
    requires Under(a, b) && Under(b, c)
    ensures Under(a, c)
  {
    assert c[..|a|] == c[..|b|][..|a|];
  }

  /** A smaller tree's child directory has less below it. */
  lemma ChildIsSmaller(t0: Tree, t: Tree, dir: Place, name: string)
    requires t.Keys <= t0.Keys && dir + [name] in t
    ensures |Subtree(t, dir + [name])| < |Subtree(t0, dir)|
  {
    var p := dir + [name];
    assert Under(dir, p);
    assert Subtree(t, p) < Subtree(t0, dir) by {
      forall q | q in Subtree(t, p) ensures q in Subtree(t0, dir) { UnderChild(dir, name, q); }
      assert p in Subtree(t0, dir) && p !in Subtree(t, p);
    }
    SubsetIsSmaller(Subtree(t, p), Subtree(t0, dir));
  }

  lemma SubsetIsSmaller<T>(a: set<T>, b: set<T>)
    requires a < b
    ensures |a| < |b|
  {
    assert b == a + (b - a);
    assert b - a != {};
  }

  /** Nothing outside `dir` has changed, and nothing has appeared. */
  predicate OnlyShrunk(t0: Tree, t: Tree, dir: Place) {
    && (forall p :: p in t ==> p in t0 && t[p] == t0[p])
    && (forall p :: p in t0 && !Under(dir, p) ==> p in t)
  }

  /** The children named in `done` are cleared, the others untouched. */
  ghost predicate Cleared(t0: Tree, t: Tree, root: Place, dir: Place, listed: set<string>, done: set<string>) {
    forall p :: p in t0 && Under(dir, p) ==>
      (p in t <==> p[|dir|] !in done || (Under(root, p) && Survives(t0, root, listed, p)))
  }

  /** The child `name` of `dir` and what is below it. */
  predicate Of(dir: Place, name: string, p: Place) {
    Under(dir, p) && p[|dir|] == name
  }

  /** The child `name` is exactly as it is to be left. */
  ghost predicate ChildDone(t0: Tree, t: Tree, root: Place, dir: Place, listed: set<string>, name: string) {
    forall p :: p in t0 && Of(dir, name, p) ==> (p in t <==> Under(root, p) && Survives(t0, root, listed, p))
  }

  ghost predicate SameElsewhere(t: Tree, t': Tree, dir: Place, name: string) {
    forall p :: !Of(dir, name, p) ==> (p in t' <==> p in t)
  }

  ghost predicate SameChild(t0: Tree, t: Tree, dir: Place, name: string) {
    forall p :: Of(dir, name, p) ==> (p in t <==> p in t0) && (p in t0 ==> t[p] == t0[p])
  }

  lemma Untouched(t0: Tree, t: Tree, root: Place, dir: Place, listed: set<string>, done: set<string>, name: string)
    requires OnlyShrunk(t0, t, dir) && Cleared(t0, t, root, dir, listed, done) && name !in done
    ensures SameChild(t0, t, dir, name)
  {
    hide Survives;
  }

  lemma ClearedStep(t0: Tree, t: Tree, t': Tree, root: Place, dir: Place, listed: set<string>, done: set<string>, name: string)
    requires Cleared(t0, t, root, dir, listed, done) && name !in done
    requires SameElsewhere(t, t', dir, name) && ChildDone(t0, t', root, dir, listed, name)
    ensures Cleared(t0, t', root, dir, listed, done + {name})
  {
    hide Survives;
  }

  /** What is to remain below a node depends on that node's subtree alone. */
  lemma RemainsIsLocal(t0: Tree, t: Tree, root: Place, dir: Place, listed: set<string>, name: string, p: Place)
    requires SameChild(t0, t, dir, name) && Of(dir, name, p) && Under(root, p)
    ensures Survives(t, root, listed, p) <==> Survives(t0, root, listed, p)
  {
    forall q | Under(p, q) ensures IsListedFile(t, root, listed, q) <==> IsListedFile(t0, root, listed, q) {
      UnderTrans(dir, p, q);
    }
  }

  lemma LeafDone(t0: Tree, t': Tree, root: Place, dir: Place, listed: set<string>, name: string)
    requires WellFormed(t0) && Within(root, dir) && dir + [name] in t0 && !t0[dir + [name]].Directory?
    requires Under(root, dir + [name]) && !IsProtected((dir + [name])[|root|])
    requires dir + [name] in t' <==> IsListedFile(t0, root, listed, dir + [name])
    ensures ChildDone(t0, t', root, dir, listed, name)
  {
    hide WellFormed, IsListedFile;
    forall p | p in t0 && Of(dir, name, p) ensures p == dir + [name] {
      UnderChild(dir, name, p);
      assert p[..|dir| + 1] == dir + [name];
      if p != dir + [name] { Ancestor(t0, p, |dir| + 1); }
    }
  }

  /** A directory is left empty exactly when nothing below it is to remain. */
  lemma EmptyIff(t: Tree, t': Tree, root: Place, p: Place, listed: set<string>)
    requires WellFormed(t) && p in t && t[p].Directory? && OnlyShrunk(t, t', p) && WellFormed(t')
    requires Under(root, p) && !IsProtected(p[|root|])
    requires forall q :: q in t && Under(p, q) ==> (q in t' <==> Under(root, q) && Survives(t, root, listed, q))
    ensures Names(t', p) == {} <==> !Survives(t, root, listed, p)
  {
    hide WellFormed;
    if name :| name in Names(t', p) {
      var q := p + [name];
      NamesAre(t', p, name);
      assert Under(p, q) && q[|root|] == p[|root|];
      assert Remains(t, root, listed, q);
      if !IsListedFile(t, root, listed, q) {
        var f :| Under(q, f) && IsListedFile(t, root, listed, f);
        UnderTrans(p, q, f);
      }
    }
    if f :| Under(p, f) && IsListedFile(t, root, listed, f) {
      UnderTrans(root, p, f);
      ChildOf(t', p, f);
    }
  }

  lemma DirectoryDone(t0: Tree, t: Tree, t1: Tree, t': Tree, root: Place, dir: Place, listed: set<string>, name: string)
    requires WellFormed(t) && WellFormed(t1) && Within(root, dir) && SameChild(t0, t, dir, name)
    requires dir + [name] in t && t[dir + [name]].Directory? && OnlyShrunk(t, t1, dir + [name])
    requires Under(root, dir + [name]) && !IsProtected((dir + [name])[|root|])
    requires forall q :: q in t && Under(dir + [name], q) ==> (q in t1 <==> Under(root, q) && Survives(t, root, listed, q))
    requires t' == if Names(t1, dir + [name]) == {} then t1 - {dir + [name]} else t1
    ensures ChildDone(t0, t', root, dir, listed, name)
  {
    hide WellFormed, Remains;
    var p := dir + [name];
    EmptyIff(t, t1, root, p, listed);
    forall q | q in t0 && Of(dir, name, q) ensures q in t' <==> Under(root, q) && Survives(t0, root, listed, q) {
      UnderChild(dir, name, q);
      if q != p { UnderTrans(root, p, q); }
      RemainsIsLocal(t0, t, root, dir, listed, name, q);
    }
  }

  lemma ShrunkElsewhere(t: Tree, t': Tree, dir: Place, name: string)
    requires forall p :: p in t' ==> p in t
    requires forall p :: p in t && !Within(dir + [name], p) ==> p in t'
    ensures SameElsewhere(t, t', dir, name)
  {
    forall p | !Of(dir, name, p) ensures p in t' <==> p in t {
      UnderChild(dir, name, p);
      assert Under(dir, dir + [name]);
    }
  }

  lemma ShrunkTrans(t0: Tree, t: Tree, t': Tree, dir: Place, name: string)
    requires OnlyShrunk(t0, t, dir)
    requires forall p :: p in t' ==> p in t && t'[p] == t[p]
    requires forall p :: p in t && !Within(dir + [name], p) ==> p in t'
    ensures OnlyShrunk(t0, t', dir)
  {
    forall p | p in t0 && !Under(dir, p) ensures p in t' {
      UnderChild(dir, name, p);
      assert Under(dir, dir + [name]);
    }
  }

  lemma ChildOf(t: Tree, dir: Place, p: Place)
    requires WellFormed(t) && p in t && Under(dir, p)
    ensures p[|dir|] in Names(t, dir)
  {
    hide WellFormed;
    var child := dir + [p[|dir|]];
    assert p[..|dir| + 1] == child;
    if |p| == |dir| + 1 { assert p == child; } else { Ancestor(t, p, |dir| + 1); }
    NamesAre(t, dir, p[|dir|]);
  }

  /** Removes everything below `dir` that is not to be listed, in whatever order directories are
      read. It fails exactly if some removal does, and then stops half-way, but never touches anything
      outside. */
  method RemoveUnlisted(fs: FileSystem, root: Place, dir: Place, listed: set<string>) returns (ok: bool)
    requires WellFormed(fs.tree) && IsDir(fs.tree, dir)
    requires Within(root, dir) && (Under(root, dir) ==> !IsProtected(dir[|root|]))
    modifies fs
    ensures fs.used >= old(fs.used) && (ok <==> fs.AllWent(old(fs.used)))
    ensures WellFormed(fs.tree) && OnlyShrunk(old(fs.tree), fs.tree, dir)
    ensures ok ==> forall p :: p in old(fs.tree) && Under(dir, p) ==>
              (p in fs.tree <==> Under(root, p) && Survives(old(fs.tree), root, listed, p))
    decreases |Subtree(fs.tree, dir)|, 1
  {
    hide WellFormed, Survives, OnlyShrunk;
    ghost var t0 := fs.tree;
    var rest := Names(fs.tree, dir);
    ghost var done := {};
    NothingShrunk(t0, dir);
    while rest != {}
      invariant fs.used >= old(fs.used) && fs.AllWent(old(fs.used))
      invariant WellFormed(fs.tree) && OnlyShrunk(t0, fs.tree, dir)
      invariant Names(t0, dir) == done + rest && done !! rest
      invariant Cleared(t0, fs.tree, root, dir, listed, done)
      decreases |rest|
    {
      var name :| name in rest;
      rest := rest - {name};
      NamesAre(t0, dir, name);
      ok := ClearOne(fs, root, dir, name, listed, t0, done);
      if !ok { return; }
      done := done + {name};
    }
    forall p | p in t0 && Under(dir, p) ensures p[|dir|] in done {
      ChildOf(t0, dir, p);
    }
    return true;
  }

  lemma NothingShrunk(t: Tree, dir: Place)
    ensures OnlyShrunk(t, t, dir)
  {
  }

  /** One directory entry. */
  method ClearOne(fs: FileSystem, root: Place, dir: Place, name: string, listed: set<string>, ghost t0: Tree, ghost done: set<string>)
    returns (ok: bool)
    requires WellFormed(t0) && WellFormed(fs.tree) && OnlyShrunk(t0, fs.tree, dir)
    requires IsDir(t0, dir) && Within(root, dir) && (Under(root, dir) ==> !IsProtected(dir[|root|]))
    requires name !in done && dir + [name] in t0
    requires Cleared(t0, fs.tree, root, dir, listed, done)
    modifies fs
    ensures fs.used >= old(fs.used) && (ok <==> fs.AllWent(old(fs.used)))
    ensures WellFormed(fs.tree) && OnlyShrunk(t0, fs.tree, dir)
    ensures ok ==> Cleared(t0, fs.tree, root, dir, listed, done + {name})
    decreases |Subtree(t0, dir)|, 0
  {
    hide WellFormed, Remains, Names, Cleared, Subtree;
    var p := dir + [name];
    ghost var t := fs.tree;
    assert Under(root, p) && (dir != root ==> p[|root|] == dir[|root|]);
    Untouched(t0, t, root, dir, listed, done, name);
    assert Of(dir, name, p);
    if dir == root && IsProtected(name) {
      ClearedStep(t0, t, t, root, dir, listed, done, name);
      return true;
    }
    if fs.tree[p].Directory? {
      ChildIsSmaller(t0, t, dir, name);
      ok := RemoveUnlisted(fs, root, p, listed);
      ghost var t1 := fs.tree;
      if ok && Names(fs.tree, p) == {} {
        ok := fs.Remove(p);
      }
      if ok { DirectoryDone(t0, t, t1, fs.tree, root, dir, listed, name); }
    } else {
      ok := true;
      if !fs.tree[p].File? || Spelling(Rel(root, p)) !in listed {
        LeafIsEmpty(t, p);
        ok := fs.Remove(p);
      }
      if ok { LeafDone(t0, fs.tree, root, dir, listed, name); }
    }
    ShrunkElsewhere(t, fs.tree, dir, name);
    ShrunkTrans(t0, t, fs.tree, dir, name);
    if ok { ClearedStep(t0, t, fs.tree, root, dir, listed, done, name); }
  }

  lemma LeafIsEmpty(t: Tree, p: Place)
    requires WellFormed(t) && p in t && !t[p].Directory?
    ensures Names(t, p) == {}
  {
    forall name ensures name !in Names(t, p) {
      NamesAre(t, p, name);
      assert Parent(p + [name]) == p;
    }
  }
}
