/** What a revision directory holds once it has been published, and when that verifies. */
module PublishedTree {
  import opened Common
  import opened Manifests
  import opened Paths
  import opened FileTree
  import opened Cleanup
  import opened Readers

  predicate HasManifest(t: Tree, rev: Place, repoType: RepositoryType, entries: seq<Entry>) {
    var p := rev + [MANIFEST_NAME];
    IsDir(t, rev) && IsFile(t, p) && t[p].manifest == Some(Manifest(true, repoType, entries))
  }

  predicate NoLinks(t: Tree, rev: Place) {
    forall p :: p in t && Under(rev, p) ==> !t[p].Link?
  }

  predicate IsKeyOf(entries: seq<Entry>, rel: Place) {
    exists i :: 0 <= i < |entries| && Key(entries[i].path) == rel
  }

  predicate OnlyListed(t: Tree, rev: Place, entries: seq<Entry>) {
    forall p :: p in t && Under(rev, p) && t[p].File? && !IsInternalKey(Rel(rev, p)) ==> IsKeyOf(entries, Rel(rev, p))
  }

  /** The entry's path is in normal form and its file is there. */
  predicate InPlace(t: Tree, rev: Place, path: string) {
    Normal(path) && IsFile(t, rev + Key(path))
  }

  predicate EntryMatches(t: Tree, rev: Place, e: Entry) {
    ValidRelative(e.path) && (InPlace(t, rev, e.path) ==>
      |t[rev + Key(e.path)].bytes| == e.size && Sha256(t[rev + Key(e.path)].bytes) == e.digest)
  }

  /** A published revision: the manifest is in place, nothing but listed files and ModelKeep's own
      is there, and whatever file is under an entry's path is the one the entry records. */
  predicate Complete(t: Tree, rev: Place, repoType: RepositoryType, entries: seq<Entry>) {
    && HasManifest(t, rev, repoType, entries)
    && NoLinks(t, rev)
    && OnlyListed(t, rev, entries)
    && forall i :: 0 <= i < |entries| ==> EntryMatches(t, rev, entries[i])
  }

  predicate AllInPlace(t: Tree, rev: Place, entries: seq<Entry>) {
    forall i :: 0 <= i < |entries| ==> InPlace(t, rev, entries[i].path)
  }

  lemma ManifestReads(t: Tree, rev: Place, repoType: RepositoryType, entries: seq<Entry>)
    requires WellFormed(t) && HasManifest(t, rev, repoType, entries)
    ensures ReadManifest(t, rev, repoType) == Ok(Manifest(true, repoType, entries))
    ensures Canonical(t, rev) == Some(rev)
  {
    hide WellFormed, Canonical;
    DirectIsCanonical(t, rev + [MANIFEST_NAME]);
    if rev != [] { DirectIsCanonical(t, rev); } else { RootIsCanonical(t); }
  }

  lemma {:induction false} FirstEntry(entries: seq<Entry>, path: string)
    requires path in Listed(entries)
    ensures Find(entries, path) < |entries| && entries[Find(entries, path)].path == path
  {
  }

  /** An entry in place resolves to its own file. */
  lemma InPlaceVerifies(t: Tree, rev: Place, repoType: RepositoryType, entries: seq<Entry>, i: nat)
    requires WellFormed(t) && Complete(t, rev, repoType, entries) && i < |entries| && InPlace(t, rev, entries[i].path)
    ensures EntryVerifies(t, rev, repoType, entries[i])
  {
    hide WellFormed, Canonical, Stat, ValidRelative, Normal, NoLinks, OnlyListed, Key, Split, EndsInName;
    var path := entries[i].path;
    NormalKey(path);
    ManifestReads(t, rev, repoType, entries);
    DirectIsCanonical(t, rev + Key(path));
    assert Within(rev, rev + Key(path));
    assert entries[i].path in Listed(entries);
    FirstEntry(entries, path);
    var first := Find(entries, path);
    assert EntryMatches(t, rev, entries[first]) && EntryMatches(t, rev, entries[i]);
  }

  /** A published file that is in place is served from its own place, with the size and digest its entry
      records. */
  lemma InPlaceResolves(t: Tree, rev: Place, repoType: RepositoryType, entries: seq<Entry>, i: nat)
    requires WellFormed(t) && Complete(t, rev, repoType, entries) && i < |entries| && InPlace(t, rev, entries[i].path)
    ensures ResolveFile(t, rev, repoType, entries[i].path)
         == Ok(Resolved(rev + Key(entries[i].path), entries[i].size, entries[i].digest))
  {
    hide WellFormed, Canonical, Stat, ValidRelative, Normal, NoLinks, OnlyListed, Key, Split, EndsInName;
    var path := entries[i].path;
    InPlaceVerifies(t, rev, repoType, entries, i);
    ManifestReads(t, rev, repoType, entries);
    DirectIsCanonical(t, rev + Key(path));
    FirstEntry(entries, path);
    assert EntryMatches(t, rev, entries[Find(entries, path)]) && EntryMatches(t, rev, entries[i]);
  }

  lemma ContentIsInPlace(t: Tree, rev: Place, text: string)
    requires WellFormed(t) && IsContent(t, rev, rev, text)
    ensures InPlace(t, rev, text)
  {
    hide WellFormed;
    ContentSpelling(rev, text);
    SpellingOf(t, rev, rev + Split(text));
    NormalKey(text);
  }

  lemma InPlaceIsContent(t: Tree, rev: Place, text: string)
    requires InPlace(t, rev, text) && ValidRelative(text)
    ensures IsContent(t, rev, rev, text)
  {
    hide IsInternal;
    NormalKey(text);
    ContentSpelling(rev, text);
  }

  /** With every entry in place, the files found are the files listed. */
  lemma FilesAreListed(t: Tree, rev: Place, repoType: RepositoryType, entries: seq<Entry>)
    requires WellFormed(t) && Complete(t, rev, repoType, entries)
    requires AllInPlace(t, rev, entries)
    ensures AllCollectable(t, rev, rev)
    ensures forall text :: text in Listed(entries) <==> IsContent(t, rev, rev, text)
  {
    hide WellFormed, ValidRelative, IsInternal, IsInternalKey, Normal, Key, Split, InPlace, IsContent;
    forall p | p in t && Under(rev, p) && t[p].File? && !IsInternalKey(Rel(rev, p))
      ensures Spelling(Rel(rev, p)) in Listed(entries) && ValidRelative(Spelling(Rel(rev, p)))
    {
      SpellingOfListed(t, rev, repoType, entries, p);
    }
    assert NoLinks(t, rev);
    forall text | text in Listed(entries) ensures IsContent(t, rev, rev, text) {
      var i :| 0 <= i < |entries| && entries[i].path == text;
      assert EntryMatches(t, rev, entries[i]);
      InPlaceIsContent(t, rev, text);
    }
    forall text | IsContent(t, rev, rev, text) ensures text in Listed(entries) {
      ContentIsListed(t, rev, repoType, entries, text);
    }
  }

  lemma SpellingOfListed(t: Tree, rev: Place, repoType: RepositoryType, entries: seq<Entry>, p: Place)
    requires WellFormed(t) && Complete(t, rev, repoType, entries)
    requires AllInPlace(t, rev, entries)
    requires p in t && Under(rev, p) && t[p].File? && !IsInternalKey(Rel(rev, p))
    ensures Spelling(Rel(rev, p)) in Listed(entries) && ValidRelative(Spelling(Rel(rev, p)))
  {
    hide WellFormed, ValidRelative, IsInternal, IsInternalKey, Normal, Key, Split, NoLinks, HasManifest;
    SpellingOf(t, rev, p);
    assert IsKeyOf(entries, Rel(rev, p));
    var i :| 0 <= i < |entries| && Key(entries[i].path) == Rel(rev, p);
    assert InPlace(t, rev, entries[i].path) && EntryMatches(t, rev, entries[i]);
    NormalKey(Spelling(Rel(rev, p)));
    NormalIsUnambiguous(Spelling(Rel(rev, p)), entries[i].path);
  }

  lemma ContentIsListed(t: Tree, rev: Place, repoType: RepositoryType, entries: seq<Entry>, text: string)
    requires WellFormed(t) && Complete(t, rev, repoType, entries) && IsContent(t, rev, rev, text)
    requires AllInPlace(t, rev, entries)
    ensures text in Listed(entries)
  {
    hide WellFormed, ValidRelative, IsInternal, IsInternalKey, Normal, Key, Split, Complete, InPlace;
    ContentSpelling(rev, text);
    var p := rev + Split(text);
    SpellingOf(t, rev, p);
    SpellingOfListed(t, rev, repoType, entries, p);
  }

  /** A published revision verifies exactly when every listed path is in normal form and names a
      regular file that is there. */
  lemma VerifiesIffInPlace(t: Tree, rev: Place, repoType: RepositoryType, entries: seq<Entry>)
    requires WellFormed(t) && Complete(t, rev, repoType, entries)
    ensures Verified(t, rev, repoType) <==> AllInPlace(t, rev, entries)
  {
    hide WellFormed, IsContent, AllCollectable, EntryVerifies, InPlace, Canonical, ReadManifest, NoLinks, OnlyListed, EntryMatches;
    ManifestReads(t, rev, repoType, entries);
    if Verified(t, rev, repoType) {
      forall i | 0 <= i < |entries| ensures InPlace(t, rev, entries[i].path) {
        assert entries[i].path in Listed(entries);
        ContentIsInPlace(t, rev, entries[i].path);
      }
    }
    if AllInPlace(t, rev, entries) {
      FilesAreListed(t, rev, repoType, entries);
      forall i | 0 <= i < |entries| ensures EntryVerifies(t, rev, repoType, entries[i]) {
        InPlaceVerifies(t, rev, repoType, entries, i);
      }
    }
  }
}
