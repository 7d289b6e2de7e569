/** What a revision's manifest records. */
module Manifests {
  import opened Common
  import opened Paths

  type Bytes = seq<bv8>

  /** SHA-256 as an injective function: two contents have one digest only if they are equal. */
  datatype Digest = Sha256(of: Bytes)

  datatype Entry = Entry(path: string, size: nat, digest: Digest)

  datatype Manifest = Manifest(complete: bool, repoType: RepositoryType, entries: seq<Entry>)

  /** A file to archive: its path, its bytes, and the manifest they read as, if they do. */
  datatype Source = Source(path: string, content: Bytes, parsed: Option<Manifest>)

  function Listed(manifest: seq<Entry>): set<string> {
    set i | 0 <= i < |manifest| :: manifest[i].path
  }

  predicate DistinctSources(files: seq<Source>) {
    forall i, j :: 0 <= i < j < |files| ==> files[i].path != files[j].path
  }

  function EntryOf(file: Source): Entry {
    Entry(file.path, |file.content|, Sha256(file.content))
  }

  function Entries(files: seq<Source>): (r: seq<Entry>)
    ensures |r| == |files| && forall i :: 0 <= i < |files| ==> r[i] == EntryOf(files[i])
  {
    if files == [] then [] else [EntryOf(files[0])] + Entries(files[1..])
  }

  predicate DistinctEntries(entries: seq<Entry>) {
    forall i, j :: 0 <= i < j < |entries| ==> entries[i].path != entries[j].path
  }

  predicate NormalFiles(files: seq<Source>) {
    forall i :: 0 <= i < |files| ==> Normal(files[i].path)
  }

  /** The first manifest entry with this path, as `find` returns it. */
  function Find(manifest: seq<Entry>, path: string): (r: nat)
    ensures r <= |manifest|
    ensures r < |manifest| ==> manifest[r].path == path
    ensures r == |manifest| <==> path !in Listed(manifest)
    ensures forall i :: 0 <= i < r ==> manifest[i].path != path
  {
    if manifest == [] then 0
    else if manifest[0].path == path then 0
    else
      var r := Find(manifest[1..], path);
      assert path in Listed(manifest) ==> path in Listed(manifest[1..]) by {
        if path in Listed(manifest) {
          var i :| 0 <= i < |manifest| && manifest[i].path == path;
          assert manifest[1..][i - 1].path == path;
        }
      }
      1 + r
  }
}
