/** The manifest's JSON text: what the archive writes, and what reading it returns. */
module ManifestText {
  import opened Common
  import opened Text
  import opened Paths
  import opened Json

  datatype Header = Header(repoType: RepositoryType, repoId: string, requestedRevision: string, commit: string, archivedAt: nat)

  datatype FileRecord = FileRecord(path: string, size: nat, sha256: string)

  datatype Document = Document(header: Header, files: seq<FileRecord>)

  predicate IsHexText(s: string) {
    forall i :: 0 <= i < |s| ==> IsHexDigit(s[i])
  }

  /** Commits and digests are hexadecimal, and are written as they stand. */
  predicate IsWritable(doc: Document) {
    IsHexText(doc.header.commit) && forall i :: 0 <= i < |doc.files| ==> IsHexText(doc.files[i].sha256)
  }

  // ---------------------------------------------------------------- the document as a value

  function FileValue(f: FileRecord): Value {
    Object([("path", String(f.path)), ("size", Number(f.size)), ("sha256", String(f.sha256))])
  }

  function FileValues(files: seq<FileRecord>): (r: seq<Value>)
    ensures |r| == |files| && forall i :: 0 <= i < |files| ==> r[i] == FileValue(files[i])
  {
    if files == [] then [] else [FileValue(files[0])] + FileValues(files[1..])
  }

  function DocumentValue(doc: Document): Value {
    var h := doc.header;
    Object([
      ("version", Number(1)),
      ("complete", Bool(true)),
      ("repo_type", String(TypeName(h.repoType))),
      ("repo_id", String(h.repoId)),
      ("requested_revision", String(h.requestedRevision)),
      ("commit", String(h.commit)),
      ("archived_at", Number(h.archivedAt)),
      ("files", Array(FileValues(doc.files)))])
  }

  // ---------------------------------------------------------------- writing

  predicate NeedsNoEscape(s: string) {
    forall i :: 0 <= i < |s| ==> s[i] != '"' && s[i] != '\\'
  }

  lemma {:induction false} EscapeOfOrdinary(s: string)
    requires NeedsNoEscape(s)
    ensures Escape(s) == s
  {
    if s != "" {
      EscapeOfOrdinary(s[1..]);
      assert [s[0]] + s[1..] == s;
    }
  }

  lemma HexNeedsNoEscape(s: string)
    requires IsHexText(s)
    ensures NeedsNoEscape(s)
  {
    forall i | 0 <= i < |s| ensures s[i] != '"' && s[i] != '\\' { assert IsHexDigit(s[i]); }
  }

  /** `"name":value` */
  function Field(name: string, value: string): string {
    "\"" + name + "\":" + value
  }

  function InQuotes(text: string): string {
    "\"" + text + "\""
  }

  lemma FieldIsMember(name: string, value: Value)
    requires NeedsNoEscape(name)
    ensures Field(name, Encode(value)) == EncodeMember((name, value))
  {
    EscapeOfOrdinary(name);
    assert "\"" + name + "\":" == Quote(name) + [':'];
  }

  lemma MemberThenRest(v: Value, i: nat)
    requires v.Object? && i + 1 < |v.members|
    ensures EncodeMembers(v, i) == EncodeMember(v.members[i]) + [','] + EncodeMembers(v, i + 1)
  {
  }

  /** Writes a document whose fields are all in `v`; `done` is the text so far. */
  lemma NextField(v: Value, i: nat, done: string, all: string, field: string)
    requires v.Object? && i + 1 < |v.members| && done + EncodeMembers(v, i) == all
    requires NeedsNoEscape(v.members[i].0) && field == Field(v.members[i].0, Encode(v.members[i].1))
    ensures done + field + "," + EncodeMembers(v, i + 1) == all
  {
    hide Encode, Field, NeedsNoEscape;
    FieldIsMember(v.members[i].0, v.members[i].1);
    MemberThenRest(v, i);
    assert done + field + "," + EncodeMembers(v, i + 1) == done + (EncodeMember(v.members[i]) + [','] + EncodeMembers(v, i + 1));
  }

  /** One entry of the file list. */
  method WriteFile(f: FileRecord) returns (text: string)
    requires IsHexText(f.sha256)
    ensures text == Encode(FileValue(f))
  {
    hide Encode, EncodeMembers, Field, Decimal, Escape, IsHexText;
    ghost var v := FileValue(f);
    ghost var all := "{" + EncodeMembers(v, 0);
    StringIsQuoted(f.path);
    HexIsQuoted(f.sha256);
    NumberIsDecimal(f.size);
    text := "{";
    NextField(v, 0, text, all, Field("path", InQuotes(Escape(f.path))));
    text := text + Field("path", InQuotes(Escape(f.path))) + ",";
    NextField(v, 1, text, all, Field("size", Decimal(f.size)));
    text := text + Field("size", Decimal(f.size)) + ",";
    LastField(v, 2);
    text := text + Field("sha256", InQuotes(f.sha256));
    assert text == all;
    ObjectText(v);
    text := text + "}";
  }

  lemma LastField(v: Value, i: nat)
    requires v.Object? && i + 1 == |v.members| && NeedsNoEscape(v.members[i].0)
    ensures EncodeMembers(v, i) == Field(v.members[i].0, Encode(v.members[i].1))
  {
    FieldIsMember(v.members[i].0, v.members[i].1);
  }

  lemma ObjectText(v: Value)
    requires v.Object?
    ensures Encode(v) == "{" + EncodeMembers(v, 0) + "}"
  {
  }

  lemma StringIsQuoted(s: string)
    ensures Encode(String(s)) == InQuotes(Escape(s))
  {
  }

  lemma HexIsQuoted(s: string)
    requires IsHexText(s)
    ensures Encode(String(s)) == InQuotes(s)
  {
    HexNeedsNoEscape(s);
    EscapeOfOrdinary(s);
  }

  lemma NumberIsDecimal(n: nat)
    ensures Encode(Number(n)) == Decimal(n)
  {
  }

  /** The text of the first `k` items. */
  function ItemsText(items: seq<Value>): string {
    if items == [] then ""
    else if |items| == 1 then Encode(items[0])
    else ItemsText(items[..|items| - 1]) + "," + Encode(items[|items| - 1])
  }

  lemma {:induction false} ItemsTextSplits(v: Value, i: nat)
    requires v.Array? && 0 < i < |v.items|
    ensures ItemsText(v.items[..i]) + "," + EncodeItems(v, i) == EncodeItems(v, 0)
    decreases i
  {
    hide Encode;
    if i == 1 {
      assert v.items[..1] == [v.items[0]];
    } else {
      ItemsTextSplits(v, i - 1);
      assert v.items[..i][..i - 1] == v.items[..i - 1] && v.items[..i][i - 1] == v.items[i - 1];
      assert EncodeItems(v, i - 1) == Encode(v.items[i - 1]) + [','] + EncodeItems(v, i);
      assert ItemsText(v.items[..i - 1]) + "," + (Encode(v.items[i - 1]) + [','] + EncodeItems(v, i))
          == ItemsText(v.items[..i - 1]) + "," + Encode(v.items[i - 1]) + "," + EncodeItems(v, i);
    }
  }

  lemma AllItemsText(v: Value)
    requires v.Array?
    ensures Encode(v) == "[" + ItemsText(v.items) + "]"
  {
    hide Encode;
    ArrayText(v);
    var n := |v.items|;
    assert v.items[..n] == v.items;
    if n == 1 {
      assert EncodeItems(v, 0) == Encode(v.items[0]);
    } else if n > 1 {
      ItemsTextSplits(v, n - 1);
      assert EncodeItems(v, n - 1) == Encode(v.items[n - 1]);
    }
  }

  lemma ArrayText(v: Value)
    requires v.Array?
    ensures Encode(v) == "[" + EncodeItems(v, 0) + "]"
  {
  }

  /** The file list, entry by entry with commas between. */
  method WriteFiles(files: seq<FileRecord>) returns (text: string)
    requires forall i :: 0 <= i < |files| ==> IsHexText(files[i].sha256)
    ensures "[" + text + "]" == Encode(Array(FileValues(files)))
  {
    hide Encode, IsHexText, FileValue;
    var values := FileValues(files);
    text := "";
    for i := 0 to |files|
      invariant text == ItemsText(values[..i])
    {
      assert values[..i + 1][..i] == values[..i] && values[..i + 1][i] == FileValue(files[i]);
      if i > 0 { text := text + ","; }
      var file := WriteFile(files[i]);
      text := text + file;
    }
    assert values[..|files|] == values;
    AllItemsText(Array(values));
  }

  /** The fields before the file list; `all` is the text of all of them. */
  method WriteHeader(h: Header, ghost v: Value, ghost all: string) returns (text: string)
    requires IsHexText(h.commit) && v.Object? && |v.members| == 8 && all == "{" + EncodeMembers(v, 0)
    requires v.members[0] == ("version", Number(1)) && v.members[1] == ("complete", Bool(true))
    requires v.members[2] == ("repo_type", String(TypeName(h.repoType))) && v.members[3] == ("repo_id", String(h.repoId))
    requires v.members[4] == ("requested_revision", String(h.requestedRevision))
    requires v.members[5] == ("commit", String(h.commit)) && v.members[6] == ("archived_at", Number(h.archivedAt))
    ensures text + EncodeMembers(v, 7) == all
  {
    hide Encode, EncodeMembers, Field, Decimal, Escape, IsHexText, InQuotes, TypeName;
    HeaderTexts(h);
    text := "{";
    NextField(v, 0, text, all, Field("version", "1"));
    text := text + Field("version", "1") + ",";
    NextField(v, 1, text, all, Field("complete", "true"));
    text := text + Field("complete", "true") + ",";
    NextField(v, 2, text, all, Field("repo_type", InQuotes(TypeName(h.repoType))));
    text := text + Field("repo_type", InQuotes(TypeName(h.repoType))) + ",";
    NextField(v, 3, text, all, Field("repo_id", InQuotes(Escape(h.repoId))));
    text := text + Field("repo_id", InQuotes(Escape(h.repoId))) + ",";
    NextField(v, 4, text, all, Field("requested_revision", InQuotes(Escape(h.requestedRevision))));
    text := text + Field("requested_revision", InQuotes(Escape(h.requestedRevision))) + ",";
    NextField(v, 5, text, all, Field("commit", InQuotes(h.commit)));
    text := text + Field("commit", InQuotes(h.commit)) + ",";
    NextField(v, 6, text, all, Field("archived_at", Decimal(h.archivedAt)));
    text := text + Field("archived_at", Decimal(h.archivedAt)) + ",";
  }

  /** The manifest of a revision. */
  method WriteManifest(doc: Document) returns (text: string)
    requires IsWritable(doc)
    ensures text == Encode(DocumentValue(doc)) + "\n"
  {
    hide Encode, EncodeMembers, Field, IsHexText, FileValues;
    ghost var v := DocumentValue(doc);
    text := WriteHeader(doc.header, v, "{" + EncodeMembers(v, 0));
    var files := WriteFiles(doc.files);
    LastField(v, 7);
    text := text + Field("files", "[" + files + "]");
    ObjectText(v);
    text := text + "}" + "\n";
  }

  lemma HeaderTexts(h: Header)
    requires IsHexText(h.commit)
    ensures Encode(Number(1)) == "1" && Encode(Bool(true)) == "true"
    ensures Encode(String(TypeName(h.repoType))) == InQuotes(TypeName(h.repoType))
    ensures Encode(String(h.repoId)) == InQuotes(Escape(h.repoId))
    ensures Encode(String(h.requestedRevision)) == InQuotes(Escape(h.requestedRevision))
    ensures Encode(String(h.commit)) == InQuotes(h.commit)
    ensures Encode(Number(h.archivedAt)) == Decimal(h.archivedAt)
  {
    HexIsQuoted(h.commit);
    EscapeOfOrdinary(TypeName(h.repoType));
  }

  // ---------------------------------------------------------------- reading

  datatype Lookup = Missing | Duplicate | Found(value: Value)

  /** A field of an object; a repeated field is an error. */
  function Find(members: seq<(string, Value)>, name: string): Lookup {
    if members == [] then Missing
    else
      var rest := Find(members[1..], name);
      if members[0].0 != name then rest
      else if rest.Missing? then Found(members[0].1)
      else Duplicate
  }

  const SIZE_LIMIT := 0x1_0000_0000_0000_0000

  function ReadFile(v: Value): Option<FileRecord> {
    if !v.Object? then None
    else
      match (Find(v.members, "path"), Find(v.members, "size"), Find(v.members, "sha256"))
      case (Found(String(path)), Found(Number(size)), Found(String(sha256))) =>
        if size < SIZE_LIMIT then Some(FileRecord(path, size, sha256)) else None
      case _ => None
  }

  function ReadFiles(items: seq<Value>): Option<seq<FileRecord>> {
    if items == [] then Some([])
    else
      var first, rest := ReadFile(items[0]), ReadFiles(items[1..]);
      if first.Some? && rest.Some? then Some([first.value] + rest.value) else None
  }

  function ReadType(field: Lookup): Option<RepositoryType> {
    match field
    case Missing => Some(Model)
    case Found(String(name)) => if name == "model" then Some(Model) else if name == "dataset" then Some(Dataset) else None
    case _ => None
  }

  function ReadText(field: Lookup): Option<string> {
    match field
    case Missing => Some("")
    case Found(String(text)) => Some(text)
    case _ => None
  }

  function ReadFlag(field: Lookup): Option<bool> {
    match field
    case Missing => Some(false)
    case Found(Bool(flag)) => Some(flag)
    case _ => None
  }

  /** What the archive keeps of a manifest it reads. */
  datatype ReadBack = ReadBack(complete: bool, repoType: RepositoryType, repoId: string, requestedRevision: string,
                               files: seq<FileRecord>)

  /** Fields of other names are passed over; all but the file list have defaults. */
  function ReadManifest(v: Value): Option<ReadBack> {
    if !v.Object? then None
    else
      var complete := ReadFlag(Find(v.members, "complete"));
      var repoType := ReadType(Find(v.members, "repo_type"));
      var repoId := ReadText(Find(v.members, "repo_id"));
      var revision := ReadText(Find(v.members, "requested_revision"));
      var list := Find(v.members, "files");
      if complete.None? || repoType.None? || repoId.None? || revision.None? || !list.Found? || !list.value.Array? then None
      else
        var files := ReadFiles(list.value.items);
        if files.None? then None
        else Some(ReadBack(complete.value, repoType.value, repoId.value, revision.value, files.value))
  }

  // ---------------------------------------------------------------- round trip

  predicate SizesFit(files: seq<FileRecord>) {
    forall i :: 0 <= i < |files| ==> files[i].size < SIZE_LIMIT
  }

  /** Nothing that is written as a string, and could be anything, has a control character. */
  predicate IsPlainDocument(doc: Document) {
    && IsPlain(doc.header.repoId) && IsPlain(doc.header.requestedRevision)
    && forall i :: 0 <= i < |doc.files| ==> IsPlain(doc.files[i].path)
  }

  lemma FileReads(f: FileRecord)
    requires f.size < SIZE_LIMIT
    ensures ReadFile(FileValue(f)) == Some(f)
  {
    var m := FileValue(f).members;
    assert m[1..][1..] == [("sha256", String(f.sha256))] && m[1..][1..][1..] == [];
    assert m[1..][0] == ("size", Number(f.size));
    assert Find(m[1..][1..][1..], "path") == Missing;
    assert Find(m, "sha256") == Find(m[1..], "sha256") == Find(m[1..][1..], "sha256") == Found(String(f.sha256));
    assert Find(m[1..][1..], "size") == Missing && Find(m, "size") == Find(m[1..], "size") == Found(Number(f.size));
    assert Find(m[1..][1..], "path") == Missing && Find(m[1..], "path") == Missing;
  }

  lemma {:induction false} FileValuesFirst(files: seq<FileRecord>)
    ensures FileValues(files) == if files == [] then [] else [FileValue(files[0])] + FileValues(files[1..])
  {
  }

  lemma NoFilesRead()
    ensures ReadFiles([]) == Some([])
  {
  }

  lemma ReadsFirst(first: Value, rest: seq<Value>)
    ensures ReadFiles([first] + rest)
         == if ReadFile(first).Some? && ReadFiles(rest).Some? then Some([ReadFile(first).value] + ReadFiles(rest).value) else None
  {
    hide ReadFile;
    assert ([first] + rest)[1..] == rest;
  }

  lemma {:induction false} FilesRead(files: seq<FileRecord>)
    requires SizesFit(files)
    ensures ReadFiles(FileValues(files)) == Some(files)
  {
    hide ReadFile, FileValue, ReadFiles, Find, FileValues;
    FileValuesFirst(files);
    if files == [] {
      NoFilesRead();
    } else {
      FileReads(files[0]);
      FilesRead(files[1..]);
      ReadsFirst(FileValue(files[0]), FileValues(files[1..]));
      assert files == [files[0]] + files[1..];
    }
  }

  /** Of distinct names each is found with its own value. */
  lemma {:induction false} FindsOwn(members: seq<(string, Value)>, i: nat)
    requires i < |members| && forall j, k :: 0 <= j < k < |members| ==> members[j].0 != members[k].0
    ensures Find(members, members[i].0) == Found(members[i].1)
  {
    if i == 0 {
      FindsNothing(members[1..], members[0].0);
    } else {
      FindsOwn(members[1..], i - 1);
      assert members[0].0 != members[i].0;
    }
  }

  lemma {:induction false} FindsNothing(members: seq<(string, Value)>, name: string)
    requires forall j :: 0 <= j < |members| ==> members[j].0 != name
    ensures Find(members, name) == Missing
  {
    if members != [] { FindsNothing(members[1..], name); }
  }

  lemma FieldNamesDiffer(doc: Document)
    ensures var m := DocumentValue(doc).members;
            forall j, k :: 0 <= j < k < |m| ==> m[j].0 != m[k].0
  {
    var lengths := [7, 8, 9, 7, 18, 6, 11, 5];
    var m := DocumentValue(doc).members;
    assert forall j :: 0 <= j < |m| ==> |m[j].0| == lengths[j];
    assert m[0].0[0] == 'v' && m[3].0[0] == 'r';
  }

  lemma DocumentReads(doc: Document)
    requires SizesFit(doc.files)
    ensures ReadManifest(DocumentValue(doc))
         == Some(ReadBack(true, doc.header.repoType, doc.header.repoId, doc.header.requestedRevision, doc.files))
  {
    hide Find, ReadFiles, FileValues;
    var m := DocumentValue(doc).members;
    FieldNamesDiffer(doc);
    FindsOwn(m, 1);
    FindsOwn(m, 2);
    FindsOwn(m, 3);
    FindsOwn(m, 4);
    FindsOwn(m, 7);
    FilesRead(doc.files);
  }

  lemma FileIsPlain(f: FileRecord)
    requires IsHexText(f.sha256)
    ensures IsPlainValue(FileValue(f)) <==> IsPlain(f.path)
  {
    HexIsPlain(f.sha256);
    var m := FileValue(f).members;
    assert m[0] == ("path", String(f.path)) && m[1] == ("size", Number(f.size)) && m[2] == ("sha256", String(f.sha256));
    assert IsPlain("path") && IsPlain("size") && IsPlain("sha256");
  }

  lemma HexIsPlain(s: string)
    requires IsHexText(s)
    ensures IsPlain(s)
  {
    forall i | 0 <= i < |s| ensures s[i] >= ' ' { assert IsHexDigit(s[i]); }
  }

  lemma FilesArePlain(doc: Document)
    requires IsWritable(doc)
    ensures IsPlainValue(Array(FileValues(doc.files))) <==> forall i :: 0 <= i < |doc.files| ==> IsPlain(doc.files[i].path)
  {
    hide IsPlain, FileValue, IsHexText;
    var values := FileValues(doc.files);
    forall i | 0 <= i < |doc.files| ensures IsPlainValue(values[i]) <==> IsPlain(doc.files[i].path) {
      assert values[i] == FileValue(doc.files[i]);
      FileIsPlain(doc.files[i]);
    }
  }

  lemma NamesArePlain(doc: Document)
    ensures var m := DocumentValue(doc).members;
            forall i :: 0 <= i < |m| ==> IsPlain(m[i].0)
  {
  }

  lemma DocumentIsPlain(doc: Document)
    requires IsWritable(doc)
    ensures IsPlainValue(DocumentValue(doc)) <==> IsPlainDocument(doc)
  {
    hide IsPlain, FileValues, IsHexText;
    FilesArePlain(doc);
    NamesArePlain(doc);
    HexIsPlain(doc.header.commit);
    TypeNamesArePlain(doc.header.repoType);
    var m := DocumentValue(doc).members;
    assert m[0].1 == Number(1) && m[1].1 == Bool(true) && m[2].1 == String(TypeName(doc.header.repoType));
    assert m[3].1 == String(doc.header.repoId) && m[4].1 == String(doc.header.requestedRevision);
    assert m[5].1 == String(doc.header.commit) && m[6].1 == Number(doc.header.archivedAt);
    assert m[7].1 == Array(FileValues(doc.files));
  }

  lemma TypeNamesArePlain(repoType: RepositoryType)
    ensures IsPlain(TypeName(repoType))
  {
  }

  /** A written manifest parses exactly when no identifier or path in it has a control character,
      and then reading it returns what was written: the header fields and the entries, in order. */
  lemma ManifestRoundTrip(doc: Document)
    requires IsWritable(doc) && SizesFit(doc.files)
    ensures var v := Parse(Encode(DocumentValue(doc)) + "\n");
            && (v.Some? <==> IsPlainDocument(doc))
            && (v.Some? ==>
                  ReadManifest(v.value)
                    == Some(ReadBack(true, doc.header.repoType, doc.header.repoId, doc.header.requestedRevision, doc.files)))
  {
    hide Encode, DocumentValue, ReadManifest, IsPlainDocument, ParseValue;
    ValueRoundTrip(DocumentValue(doc), "\n");
    assert SkipSpace("\n") == "";
    DocumentIsPlain(doc);
    DocumentReads(doc);
  }

  /** The archive's own path check lets no control character through, whatever else it allows:
      quotation marks and backslashes come back. */
  lemma ValidPathsComeBack(doc: Document)
    requires IsWritable(doc) && SizesFit(doc.files)
    requires forall i :: 0 <= i < |doc.files| ==> ValidRelative(doc.files[i].path)
    requires forall c :: c in doc.header.repoId || c in doc.header.requestedRevision ==> !IsControl(c)
    ensures Parse(Encode(DocumentValue(doc)) + "\n").Some?
  {
    hide Encode, DocumentValue, ReadManifest;
    forall i | 0 <= i < |doc.files| ensures IsPlain(doc.files[i].path) {
      NoControlIsPlain(doc.files[i].path);
    }
    NoControlIsPlain(doc.header.repoId);
    NoControlIsPlain(doc.header.requestedRevision);
    ManifestRoundTrip(doc);
  }

  lemma NoControlIsPlain(s: string)
    requires forall c :: c in s ==> !IsControl(c)
    ensures IsPlain(s)
  {
    forall i | 0 <= i < |s| ensures s[i] >= ' ' { assert s[i] in s; }
  }
}
