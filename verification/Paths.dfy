/** Archive-relative paths: their spelling in a manifest, the file they name on disk, and the
    validation every reader and writer applies. */
module Paths {
  import opened Text

  /** The components of a `/`-separated spelling, empty ones included. */
  function Split(path: string): (parts: seq<string>)
    ensures |parts| > 0
  {
    SplitOn('/', path)
  }

  /** Components that name nothing: the empty one and `.`. */
  predicate IsSilent(part: string) {
    part == "" || part == "."
  }

  function Spoken(parts: seq<string>): seq<string> {
    if parts == [] then []
    else if IsSilent(parts[0]) then Spoken(parts[1..])
    else [parts[0]] + Spoken(parts[1..])
  }

  /** The file a spelling names, as the list of directory entries leading to it. */
  function Key(path: string): seq<string> {
    Spoken(Split(path))
  }

  /** The last component names something, so that a regular file can be opened under this spelling. */
  predicate EndsInName(path: string) {
    var parts := Split(path);
    !IsSilent(parts[|parts| - 1])
  }

  /** A spelling in normal form: no empty and no `.` component. */
  predicate Normal(path: string) {
    forall part :: part in Split(path) ==> !IsSilent(part)
  }

  const LEASE_NAME := ".modelkeep-staging-lease"
  const MANIFEST_NAME := ".modelkeep-manifest.json"

  /** The names of ModelKeep's own files: the lease of a staging directory, and the manifest. */
  predicate IsProtected(name: string) {
    name == LEASE_NAME || name == MANIFEST_NAME
  }

  /** Paths ModelKeep keeps for itself and never lists, serves or verifies. */
  predicate IsInternal(path: string) {
    IsInternalKey(Split(path))
  }

  predicate IsInternalKey(parts: seq<string>)
    requires |parts| > 0
  {
    || HasPrefix(parts[0], ".modelkeep-")
    || ".cache" in parts
  }

  predicate IsControl(c: char) {
    c < ' ' || c == '\U{7F}'
  }

  predicate ValidRelative(path: string) {
    && path != ""
    && path[0] != '/'
    && !IsInternal(path)
    && (forall c :: c in path ==> !IsControl(c))
    && ".." !in Split(path)
  }

  /** Which paths validation accepts, read off the text: not empty, not absolute, without control characters,
      with nothing that says `..` or `.cache` between slashes, and not beginning like one of ModelKeep's own. */
  lemma ValidMeans(path: string)
    ensures ValidRelative(path) <==>
            && path != "" && path[0] != '/' && !HasPrefix(path, ".modelkeep-")
            && (forall c :: c in path ==> c >= ' ' && c != '\U{7F}')
            && (forall i :: !StandsAt('/', path, "..", i)) && (forall i :: !StandsAt('/', path, ".cache", i))
  {
    hide SplitOn, StandsAt;
    PartsStandInText('/', path, "..");
    PartsStandInText('/', path, ".cache");
    SplitFirst('/', path);
    FirstPartPrefix(path, ".modelkeep-");
  }

  lemma FirstPartPrefix(path: string, prefix: string)
    requires '/' !in prefix
    ensures HasPrefix(Split(path)[0], prefix) <==> HasPrefix(path, prefix)
  {
    hide SplitOn;
    SplitFirst('/', path);
    var first := Split(path)[0];
    NowhereIn('/', prefix);
    assert HasPrefix(path, prefix) ==> forall k :: 0 <= k < |prefix| ==> prefix[k] == path[k];
    if |Split(path)| > 1 && |prefix| <= |first| { assert path[..|first|][..|prefix|] == path[..|prefix|]; }
  }

  lemma {:induction false} SpokenOfSpoken(parts: seq<string>)
    requires forall part :: part in parts ==> !IsSilent(part)
    ensures Spoken(parts) == parts
  {
    if parts != [] {
      SpokenOfSpoken(parts[1..]);
      assert [parts[0]] + parts[1..] == parts;
    }
  }

  lemma {:induction false} SpokenHasLast(parts: seq<string>)
    requires parts != [] && !IsSilent(parts[|parts| - 1])
    ensures Spoken(parts) != []
  {
    if IsSilent(parts[0]) {
      SpokenHasLast(parts[1..]);
    }
  }

  lemma NormalKey(path: string)
    requires Normal(path)
    ensures Key(path) == Split(path) && EndsInName(path)
  {
    SpokenOfSpoken(Split(path));
  }

  /** Two normal spellings name one file only if they are one spelling. */
  lemma NormalIsUnambiguous(a: string, b: string)
    requires Normal(a) && Normal(b) && Key(a) == Key(b)
    ensures a == b
  {
    NormalKey(a);
    NormalKey(b);
    JoinInvertsSplit('/', a);
    JoinInvertsSplit('/', b);
  }

  lemma {:induction false} SpokenParts(parts: seq<string>)
    ensures forall part :: part in Spoken(parts) ==> part in parts && !IsSilent(part)
  {
    if parts != [] {
      SpokenParts(parts[1..]);
    }
  }

  /** A valid path leads through proper names only. */
  lemma KeyParts(path: string)
    requires ".." !in Split(path)
    ensures forall part :: part in Key(path) ==> part != "" && part != "." && part != ".." && '/' !in part
  {
    SpokenParts(Split(path));
    SplitIsFree('/', path);
  }
}
