/** Publication with the manifest's real text: what readers take from a published manifest file is
    what parsing that file's text gives. */
module PublishedText {
  import opened Common
  import opened Paths
  import opened Json
  import opened ManifestText
  import M = Manifests
  import opened FileTree
  import R = Readers
  import Cleanup
  import PublishedTree
  import Publication

  type Bytes = M.Bytes

  /** Digests are written in hexadecimal, each in its own way. */
  ghost predicate IsRendering(hex: M.Digest -> string) {
    && (forall d :: IsHexText(hex(d)))
    && (forall d, e :: hex(d) == hex(e) ==> d == e)
  }

  function RecordsOf(entries: seq<M.Entry>, hex: M.Digest -> string): (r: seq<FileRecord>)
    ensures |r| == |entries|
    ensures forall i :: 0 <= i < |r| ==> r[i] == FileRecord(entries[i].path, entries[i].size, hex(entries[i].digest))
  {
    if entries == [] then []
    else [FileRecord(entries[0].path, entries[0].size, hex(entries[0].digest))] + RecordsOf(entries[1..], hex)
  }

  /** The manifest a reader works with says what was read from the text. */
  predicate Describes(r: ReadBack, m: M.Manifest, hex: M.Digest -> string) {
    r.complete == m.complete && r.repoType == m.repoType && r.files == RecordsOf(m.entries, hex)
  }

  /** A text describes one manifest only. */
  lemma {:induction false} DescribesOne(r: ReadBack, a: M.Manifest, b: M.Manifest, hex: M.Digest -> string)
    requires IsRendering(hex) && Describes(r, a, hex) && Describes(r, b, hex)
    ensures a == b
  {
    assert |a.entries| == |b.entries|;
    forall i | 0 <= i < |a.entries| ensures a.entries[i] == b.entries[i] {
      assert r.files[i] == RecordsOf(a.entries, hex)[i] == RecordsOf(b.entries, hex)[i];
    }
  }

  /** What a reader takes from a text. */
  function ReadText(text: string): Option<ReadBack> {
    var v := Parse(text);
    if v.None? then None else ManifestText.ReadManifest(v.value)
  }

  /** The text of the manifest that lists `entries`. */
  function DocumentOf(header: Header, entries: seq<M.Entry>, hex: M.Digest -> string): Document {
    Document(header, RecordsOf(entries, hex))
  }

  predicate PlainHeader(h: Header) {
    IsHexText(h.commit) && forall c :: c in h.repoId || c in h.requestedRevision ==> !IsControl(c)
  }

  predicate Listable(entries: seq<M.Entry>) {
    forall i :: 0 <= i < |entries| ==> ValidRelative(entries[i].path) && entries[i].size < SIZE_LIMIT
  }

  /** The written text reads back as a description of the manifest that was written. */
  lemma WrittenTextDescribes(header: Header, entries: seq<M.Entry>, hex: M.Digest -> string)
    requires IsRendering(hex) && PlainHeader(header) && Listable(entries)
    ensures var r := ReadText(Encode(DocumentValue(DocumentOf(header, entries, hex))) + "\n");
            r.Some? && Describes(r.value, M.Manifest(true, header.repoType, entries), hex)
  {
    hide Encode, DocumentValue, ManifestText.ReadManifest, Parse, ValidRelative, IsHexText;
    var doc := DocumentOf(header, entries, hex);
    ValidPathsComeBack(doc);
    ManifestRoundTrip(doc);
  }

  predicate FilesListable(files: seq<M.Source>) {
    forall i :: 0 <= i < |files| ==> |files[i].content| < SIZE_LIMIT
  }

  /** The revision's manifest file holds this text, it parses, and the manifest every reader gets is
      the one and only that parsing it describes. */
  ghost predicate ReadsAsText(t: Tree, rev: Place, repoType: RepositoryType, text: string, encode: string -> Bytes, hex: M.Digest -> string) {
    && rev + [MANIFEST_NAME] in t && t[rev + [MANIFEST_NAME]].File?
    && t[rev + [MANIFEST_NAME]].bytes == encode(text)
    && R.ReadManifest(t, rev, repoType).Ok? && ReadText(text).Some?
    && forall m :: R.ReadManifest(t, rev, repoType) == R.Ok(m) <==> Describes(ReadText(text).value, m, hex)
  }

  lemma PublishedReads(t: Tree, rev: Place, header: Header, files: seq<M.Source>, text: string, encode: string -> Bytes, hex: M.Digest -> string)
    requires IsRendering(hex) && PlainHeader(header) && FilesListable(files)
    requires text == Encode(DocumentValue(DocumentOf(header, M.Entries(files), hex))) + "\n"
    requires WellFormed(t) && PublishedTree.Complete(t, rev, header.repoType, M.Entries(files))
    requires Publication.Holds(t, rev, Publication.ManifestNode(header.repoType, files, encode(text)))
    ensures ReadsAsText(t, rev, header.repoType, text, encode, hex)
  {
    hide WellFormed, ValidRelative, Encode, DocumentValue, IsHexText, R.ReadManifest, ReadText, Describes, RecordsOf, M.Entries;
    var entries := M.Entries(files);
    PublishedListable(t, rev, header.repoType, files);
    WrittenTextDescribes(header, entries, hex);
    PublishedTree.ManifestReads(t, rev, header.repoType, entries);
    OnlyDescribed(header, entries, ReadText(text).value, hex);
  }

  /** Publishes files under the manifest text that lists them. */
  method Publish(fs: FileSystem, base: Place, staging: Place, published: Place, header: Header, files: seq<M.Source>,
                 lease: Bytes, hex: M.Digest -> string, encode: string -> Bytes) returns (ok: bool, text: string)
    requires WellFormed(fs.tree) && base in fs.tree && fs.tree[base].Directory? && Under(base, published) && AllNames(published)
    requires staging != [] && AllNames(staging) && IsDir(fs.tree, Parent(staging))
    requires FileTree.Apart(base, staging) && FileTree.Apart(staging, published)
    requires forall p :: p in fs.tree ==> !Within(staging, p)
    requires IsRendering(hex) && PlainHeader(header) && FilesListable(files)
    modifies fs
    ensures fs.used >= old(fs.used)
    ensures ok <==>
              && fs.AllWent(old(fs.used)) && files != [] && Publication.Passable(old(fs.tree), base, Cleanup.Rel(base, published))
              && published !in old(fs.tree) && Publication.Publishable(files)
    ensures WellFormed(fs.tree)
    ensures ok ==> published in fs.tree
    ensures published !in old(fs.tree) && published in fs.tree ==>
              && ReadsAsText(fs.tree, published, header.repoType, text, encode, hex)
              && R.ReadManifest(fs.tree, published, header.repoType) == R.Ok(M.Manifest(true, header.repoType, M.Entries(files)))
  {
    hide *;
    DocumentIsWritable(header, M.Entries(files), hex);
    text := WriteManifest(DocumentOf(header, M.Entries(files), hex));
    ok := Publication.PublishRevision(fs, base, staging, published, header.repoType, files, lease, encode(text));
    if published !in old(fs.tree) && published in fs.tree {
      PublishedReads(fs.tree, published, header, files, text, encode, hex);
      CompleteReads(fs.tree, published, header.repoType, M.Entries(files));
    }
  }

  lemma CompleteReads(t: Tree, rev: Place, repoType: RepositoryType, entries: seq<M.Entry>)
    requires WellFormed(t) && PublishedTree.Complete(t, rev, repoType, entries)
    ensures R.ReadManifest(t, rev, repoType) == R.Ok(M.Manifest(true, repoType, entries))
  {
    hide WellFormed;
    PublishedTree.ManifestReads(t, rev, repoType, entries);
  }

  lemma DocumentIsWritable(header: Header, entries: seq<M.Entry>, hex: M.Digest -> string)
    requires IsRendering(hex) && PlainHeader(header)
    ensures IsWritable(DocumentOf(header, entries, hex))
  {
    hide IsHexText;
  }

  /** A complete revision lists valid paths with sizes as given. */
  lemma PublishedListable(t: Tree, rev: Place, repoType: RepositoryType, files: seq<M.Source>)
    requires PublishedTree.Complete(t, rev, repoType, M.Entries(files)) && FilesListable(files)
    ensures Listable(M.Entries(files))
  {
    hide ValidRelative;
    var entries := M.Entries(files);
    forall i | 0 <= i < |entries| ensures ValidRelative(entries[i].path) && entries[i].size < SIZE_LIMIT {
      assert PublishedTree.EntryMatches(t, rev, entries[i]) && entries[i] == M.EntryOf(files[i]);
    }
  }

  lemma OnlyDescribed(header: Header, entries: seq<M.Entry>, r: ReadBack, hex: M.Digest -> string)
    requires IsRendering(hex) && Describes(r, M.Manifest(true, header.repoType, entries), hex)
    ensures forall m :: Describes(r, m, hex) <==> m == M.Manifest(true, header.repoType, entries)
  {
    forall m | Describes(r, m, hex) ensures m == M.Manifest(true, header.repoType, entries) {
      DescribesOne(r, m, M.Manifest(true, header.repoType, entries), hex);
    }
  }
}
