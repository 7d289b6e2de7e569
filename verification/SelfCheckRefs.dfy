/** Which refs a clean self-check vouches for. It reads the regular files of `refs/` whose names do not
    begin with a dot; resolving a ref follows links and takes any name. */
module SelfCheckRefs {
  import opened Common
  import opened FileTree
  import opened Paths
  import opened Readers
  import opened SelfCheck

  /** What a look at a directory entry tells, without following a link. */
  datatype RefKind = Checked | Hidden | Linked

  function KindOf(node: Node, name: string): RefKind
    requires name != ""
  {
    if node.Link? then Linked else if name[0] == '.' then Hidden else Checked
  }

  /** A ref that resolves is a regular file or a link of the refs directory. */
  lemma ResolvingRefIsThere(t: Tree, repo: Place, reference: string) returns (dir: Place)
    requires ResolveRef(t, repo, reference).Ok?
    ensures DirectoryAt(t, repo + ["refs"]) == Some(dir)
    ensures dir + [reference] in t && (t[dir + [reference]].Link? || t[dir + [reference]].File?)
  {
    hide IsCommit, IsComponent;
    assert repo + ["refs"] + [reference] == repo + ["refs", reference];
    WalkLast(t, [], repo + ["refs"], reference, MAX_LINKS);
    dir := Canonical(t, repo + ["refs"]).value;
  }

  /** A link among the refs draws no finding, whatever the revisions hold, and resolves to the text
      of the file it leads to. */
  lemma LinkedRefsAreUnchecked(t: Tree, repo: Place, dir: Place, name: string, servable: set<string>)
    requires DirectoryAt(t, repo + ["refs"]) == Some(dir) && dir + [name] in t && t[dir + [name]].Link? && IsComponent(name)
    requires var node := Stat(t, repo + ["refs", name]);
             node.Some? && node.value.File? && node.value.line.Some? && IsCommit(node.value.line.value)
    ensures RefClean(t, dir, name, servable)
    ensures ResolveRef(t, repo, name) == Ok(Stat(t, repo + ["refs", name]).value.line.value)
  {
    hide Canonical, Stat, IsCommit, IsComponent, Names, DirectoryAt;
  }

  // ---------------------------------------------------------------- which kinds can be trusted

  /** In a repository without findings this ref resolves to a commit no reader can be served. */
  predicate LeadsAstray(t: Tree, repo: Place, repoType: RepositoryType, dir: Place, reference: string, kind: RefKind) {
    && WellFormed(t) && RepositoryClean(t, repo, repoType)
    && reference != "" && DirectoryAt(t, repo + ["refs"]) == Some(dir)
    && dir + [reference] in t && KindOf(t[dir + [reference]], reference) == kind
    && var r := ResolveRef(t, repo, reference);
       r.Ok? && !Servable(t, repo + ["revisions", r.value], repoType)
  }

  lemma CheckedNeverAstray(t: Tree, repo: Place, repoType: RepositoryType, dir: Place, reference: string)
    ensures !LeadsAstray(t, repo, repoType, dir, reference, Checked)
  {
    if LeadsAstray(t, repo, repoType, dir, reference, Checked) {
      hide Canonical, Stat, IsCommit, IsComponent, Servable, Names, RepositoryClean, DirectoryAt, WellFormed;
      var there := ResolvingRefIsThere(t, repo, reference);
      NamesAre(t, dir, reference);
      CleanRefsResolve(t, repo, repoType, dir, reference);
    }
  }

  /** A repository at `m` without revisions, with one ref entry. */
  function OneRef(name: string, node: Node): Tree {
    map[["m"] := Directory, ["m", "refs"] := Directory, ["m", "refs", name] := node, ["c"] := File([], None, Some("a"))]
  }

  lemma OneRefIsWellFormed(name: string, node: Node)
    requires IsName(name)
    ensures WellFormed(OneRef(name, node))
  {
    assert Parent(["m"]) == [] && Parent(["c"]) == [];
    assert Parent(["m", "refs"]) == ["m"] && Parent(["m", "refs", name]) == ["m", "refs"];
  }

  lemma OneRefHolds(name: string, node: Node)
    requires IsName(name)
    ensures var t := OneRef(name, node);
            && DirectoryAt(t, ["m", "refs"]) == Some(["m", "refs"])
            && Canonical(t, ["m", "revisions"]) == None && Canonical(t, ["m", "revisions", "a", MANIFEST_NAME]) == None
  {
    var t := OneRef(name, node);
    OneRefIsWellFormed(name, node);
    DirectIsCanonical(t, ["m", "refs"]);
    DirectIsCanonical(t, ["m"]);
    assert ["m"] + ["revisions"] == ["m", "revisions"];
    assert ["m", "revisions"] !in t;
    WalkLast(t, [], ["m"], "revisions", MAX_LINKS);
    assert ["m", "revisions"] + ["a"] == ["m", "revisions", "a"];
    WalkLast(t, [], ["m", "revisions"], "a", MAX_LINKS);
    assert ["m", "revisions", "a"] + [MANIFEST_NAME] == ["m", "revisions", "a", MANIFEST_NAME];
    WalkLast(t, [], ["m", "revisions", "a"], MANIFEST_NAME, MAX_LINKS);
  }

  lemma OneRefIsClean(name: string, node: Node, repoType: RepositoryType)
    requires IsName(name) && (node.Link? || (node.File? && name[0] == '.'))
    ensures RepositoryClean(OneRef(name, node), ["m"], repoType)
    ensures !Servable(OneRef(name, node), ["m", "revisions", "a"], repoType)
  {
    hide Canonical, WellFormed, IsCommit, IsComponent;
    var t := OneRef(name, node);
    OneRefHolds(name, node);
    assert ["m"] + ["revisions"] == ["m", "revisions"] && ["m"] + ["refs"] == ["m", "refs"];
    assert ["m", "revisions", "a"] + [MANIFEST_NAME] == ["m", "revisions", "a", MANIFEST_NAME];
    forall other | other in Names(t, ["m", "refs"]) ensures RefClean(t, ["m", "refs"], other, {}) {
      NamesAre(t, ["m", "refs"], other);
      assert ["m", "refs"] + [other] == ["m", "refs", other];
    }
  }

  lemma HiddenLeadsAstray(repoType: RepositoryType)
    ensures LeadsAstray(OneRef(".x", File([], None, Some("a"))), ["m"], repoType, ["m", "refs"], ".x", Hidden)
  {
    hide Canonical, WellFormed, RepositoryClean, Servable, Names;
    var node := File([], None, Some("a"));
    var t := OneRef(".x", node);
    OneRefIsWellFormed(".x", node);
    OneRefHolds(".x", node);
    OneRefIsClean(".x", node, repoType);
    DirectIsCanonical(t, ["m", "refs", ".x"]);
    assert ["m"] + ["refs"] == ["m", "refs"] && ["m"] + ["refs", ".x"] == ["m", "refs", ".x"];
    assert ["m", "refs"] + [".x"] == ["m", "refs", ".x"] && ["m"] + ["revisions", "a"] == ["m", "revisions", "a"];
  }

  lemma LinkResolves()
    ensures var t := OneRef("x", Link(["c"]));
            Stat(t, ["m", "refs", "x"]) == Some(t[["c"]]) && IsCommit("a") && IsComponent("x")
  {
    var t := OneRef("x", Link(["c"]));
    OneRefIsWellFormed("x", Link(["c"]));
    hide WellFormed;
    assert ["m", "refs"] + ["x"] == ["m", "refs", "x"];
    WalkToLink(t, ["m", "refs"], ["x"], ["c"], []);
    assert ["c"] + [] == ["c"] && [] + ["c"] == ["c"];
    WalkDirect(t, [], ["c"], MAX_LINKS - 1);
  }

  lemma LinkedLeadsAstray(repoType: RepositoryType)
    ensures LeadsAstray(OneRef("x", Link(["c"])), ["m"], repoType, ["m", "refs"], "x", Linked)
  {
    var t := OneRef("x", Link(["c"]));
    OneRefIsWellFormed("x", Link(["c"]));
    OneRefHolds("x", Link(["c"]));
    OneRefIsClean("x", Link(["c"]), repoType);
    LinkResolves();
    hide WellFormed, RepositoryClean, Servable, Names, Stat, Canonical, IsCommit, IsComponent;
    assert ["m", "refs"] + ["x"] == ["m", "refs", "x"];
    assert ["m"] + ["refs"] == ["m", "refs"] && ["m"] + ["refs", "x"] == ["m", "refs", "x"];
    assert ["m"] + ["revisions", "a"] == ["m", "revisions", "a"];
  }

  /** A clean self-check vouches for every ref of a kind exactly when that kind is a regular file
      whose name does not begin with a dot. */
  lemma TrustedExactlyWhenChecked(kind: RefKind)
    ensures (forall t, repo, repoType, dir, reference :: !LeadsAstray(t, repo, repoType, dir, reference, kind)) <==> kind.Checked?
  {
    match kind
    case Checked =>
      forall t, repo, repoType, dir, reference ensures !LeadsAstray(t, repo, repoType, dir, reference, kind) {
        CheckedNeverAstray(t, repo, repoType, dir, reference);
      }
    case Hidden => HiddenLeadsAstray(Model);
    case Linked => LinkedLeadsAstray(Model);
  }

  // ---------------------------------------------------------------- one ref that resolves

  predicate IsCheckedRef(t: Tree, repo: Place, reference: string) {
    var dir := DirectoryAt(t, repo + ["refs"]);
    dir.Some? && IsRef(t, dir.value, reference)
  }

  /** The revisions directory holds a link under this commit; the self-check passes over it. */
  predicate IsLinkedRevision(t: Tree, repo: Place, commit: string) {
    var node := Lstat(t, repo + ["revisions", commit]);
    node.Some? && node.value.Link?
  }

  /** A revision that can be served is one the self-check found so, or is reached through a link. */
  lemma ServableIsFound(t: Tree, repo: Place, repoType: RepositoryType, commit: string)
    requires WellFormed(t) && IsCommit(commit) && !IsLinkedRevision(t, repo, commit)
    ensures commit in ServableCommits(t, repo + ["revisions"], repoType) <==> Servable(t, repo + ["revisions", commit], repoType)
  {
    hide IsCommit, WellFormed;
    var revisions, rev := repo + ["revisions"], repo + ["revisions", commit];
    assert revisions + [commit] == rev && Parent(rev) == revisions;
    WalkLast(t, [], revisions, commit, MAX_LINKS);
    WalkLast(t, [], rev, MANIFEST_NAME, MAX_LINKS);
    RootIsNoNode(t);
    var dir := Canonical(t, revisions);
    if dir.Some? { NamesAre(t, dir.value, commit); }
  }

  /** In a repository without findings, a ref that resolves leads to a revision that can be served
      exactly if it names one the self-check found servable, as every ref it checked does; only
      revisions that are links, which it passes over and no checked ref names, are apart. */
  lemma ResolvedIsServableIff(t: Tree, repo: Place, repoType: RepositoryType, reference: string)
    requires WellFormed(t) && RepositoryClean(t, repo, repoType) && ResolveRef(t, repo, reference).Ok?
    ensures var commit := ResolveRef(t, repo, reference).value;
            var found := commit in ServableCommits(t, repo + ["revisions"], repoType);
            && (!IsLinkedRevision(t, repo, commit) ==> (Servable(t, repo + ["revisions", commit], repoType) <==> found))
            && (IsCheckedRef(t, repo, reference) ==> found && !IsLinkedRevision(t, repo, commit))
  {
    hide RepositoryClean, ResolveRef, IsCheckedRef, Servable, WellFormed, IsCommit, ServableCommits, IsLinkedRevision;
    var commit := ResolveRef(t, repo, reference).value;
    if IsCheckedRef(t, repo, reference) {
      CheckedIsFound(t, repo, repoType, reference);
      FoundIsNotLinked(t, repo, repoType, commit);
    }
    CommitIsCommit(t, repo, reference);
    if !IsLinkedRevision(t, repo, commit) { ServableIsFound(t, repo, repoType, commit); }
  }

  lemma CheckedIsFound(t: Tree, repo: Place, repoType: RepositoryType, reference: string)
    requires RepositoryClean(t, repo, repoType) && IsCheckedRef(t, repo, reference)
    ensures var r := ResolveRef(t, repo, reference);
            r.Ok? && r.value in ServableCommits(t, repo + ["revisions"], repoType)
  {
    hide Canonical, Stat, IsCommit, IsComponent, Servable, Names, RevisionsClean, DirectoryAt;
    var dir := DirectoryAt(t, repo + ["refs"]).value;
    CleanRefsResolve(t, repo, repoType, dir, reference);
    EntryIsReal(t, repo + ["refs"], dir, reference);
    assert repo + ["refs"] + [reference] == repo + ["refs", reference];
    assert RefClean(t, dir, reference, ServableCommits(t, repo + ["revisions"], repoType));
  }

  lemma CommitIsCommit(t: Tree, repo: Place, reference: string)
    requires ResolveRef(t, repo, reference).Ok?
    ensures IsCommit(ResolveRef(t, repo, reference).value)
  {
  }

  lemma FoundIsNotLinked(t: Tree, repo: Place, repoType: RepositoryType, commit: string)
    requires commit in ServableCommits(t, repo + ["revisions"], repoType)
    ensures !IsLinkedRevision(t, repo, commit)
  {
    hide IsCommit, Servable, WellFormed;
    var rev := repo + ["revisions", commit];
    assert Parent(rev) == repo + ["revisions"] && rev[|rev| - 1] == commit;
  }
}
