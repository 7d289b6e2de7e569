/** Running the download helper: a loop over its output lines, and the declarative reading of the
    whole output that it implements. */
module HelperProtocol {
  import opened Common
  import opened Text

  datatype Progress = Progress(version: nat, phase: string, completed: Option<nat>, total: Option<nat>)

  datatype FailureClass = ClassUnavailable | ClassNotFound | ClassUnauthorized | RateLimited | ClientFailure

  datatype Failure = Failure(cls: FailureClass, detail: Option<string>)

  datatype Output = Output(commit: string, files: seq<string>)

  datatype Reason =
    | StdoutUnavailable | NonJsonLine | MalformedProgress | UnsupportedProgressVersion
    | MalformedResolved | MalformedResolvedCommit | StagingMetadataUpdateFailed
    | MalformedResult | UnsupportedEventType | MissingResult | MalformedResultCommit
    | ResumeCommitMismatch | EmptySnapshot | MissingFailureEvent | MalformedFailure

  datatype Error = Io | Storage | Invalid(reason: Reason) | Reported(failure: Failure)
                 | Unavailable | NotFound | Unauthorized | WasCancelled

  /** What happens when the staging metadata is read, compared with the request, and written. */
  datatype Access = Readable | CannotRead | IdentityChanged | CannotWrite

  /** One line of output, as JSON makes it out; a missing value stands for fields that do not parse. */
  datatype Line =
    | Broken                                                    // reading the pipe failed
    | NotJson
    | Untyped
    | OtherType
    | ProgressLine(event: Option<Progress>)
    | ResolvedLine(commit: Option<string>, access: Access)
    | FailureLine(fields: Option<FailureFields>)
    | ResultLine(output: Option<Output>)

  datatype FailureFields = FailureFields(version: nat, cls: string, detail: Option<string>)

  datatype Outcome = Fetched(commit: string, files: seq<string>) | Failed(error: Error)

  predicate IsFullCommit(text: string) {
    |text| == 40 && forall i :: 0 <= i < |text| ==> IsHexDigit(text[i])
  }

  function ClassOf(name: string): Option<FailureClass> {
    match name
    case "unavailable" => Some(ClassUnavailable)
    case "not_found" => Some(ClassNotFound)
    case "unauthorized" => Some(ClassUnauthorized)
    case "rate_limited" => Some(RateLimited)
    case "client_failure" => Some(ClientFailure)
    case _ => None
  }

  const FAILURE_EVENT_VERSION := 1
  const PROGRESS_EVENT_VERSION := 1

  function ParseFailure(fields: Option<FailureFields>): Option<Failure> {
    if fields.None? || fields.value.version > FAILURE_EVENT_VERSION || ClassOf(fields.value.cls).None? then None
    else Some(Failure(ClassOf(fields.value.cls).value, fields.value.detail))
  }

  /** An exit code nobody explained. */
  function ExitFailure(code: Option<int>): Error {
    match code
    case Some(10) => Unavailable
    case Some(11) => NotFound
    case Some(12) => Unauthorized
    case Some(13) => Reported(Failure(RateLimited, None))
    case _ => Invalid(MissingFailureEvent)
  }

  // ---------------------------------------------------------------- the declarative reading

  /** The commit of the first readable resolved event. */
  function FirstResolved(lines: seq<Line>): Option<string> {
    if lines == [] then None
    else if lines[0].ResolvedLine? && lines[0].commit.Some? then lines[0].commit
    else FirstResolved(lines[1..])
  }

  /** What the staging directory records before line `i`: what it recorded already, else the first
      commit reported so far. */
  function RecordedBefore(lines: seq<Line>, recorded: Option<string>, i: nat): Option<string>
    requires i <= |lines|
  {
    if recorded.Some? then recorded else FirstResolved(lines[..i])
  }

  /** Why a line ends the reading, given the commit recorded before it. */
  function LineError(line: Line, recorded: Option<string>): Option<Error> {
    match line
    case Broken => Some(Io)
    case NotJson => Some(Invalid(NonJsonLine))
    case Untyped => None
    case OtherType => Some(Invalid(UnsupportedEventType))
    case ProgressLine(None) => Some(Invalid(MalformedProgress))
    case ProgressLine(Some(event)) => if event.version > PROGRESS_EVENT_VERSION then Some(Invalid(UnsupportedProgressVersion)) else None
    case ResolvedLine(None, _) => Some(Invalid(MalformedResolved))
    case ResolvedLine(Some(commit), access) =>
      if !IsFullCommit(commit) then Some(Invalid(MalformedResolvedCommit))
      else if access.CannotRead? then Some(Storage)
      else if access.IdentityChanged? || (recorded.Some? && recorded.value != commit) then Some(Invalid(StagingMetadataUpdateFailed))
      else if access.CannotWrite? then Some(Storage)
      else None
    case FailureLine(fields) => if ParseFailure(fields).None? then Some(Invalid(MalformedFailure)) else None
    case ResultLine(None) => Some(Invalid(MalformedResult))
    case ResultLine(Some(_)) => None
  }

  function ErrorAt(lines: seq<Line>, recorded: Option<string>, i: nat): Option<Error>
    requires i < |lines|
  {
    LineError(lines[i], RecordedBefore(lines, recorded, i))
  }

  /** The first line that ends the reading, or the end of the output. */
  function FirstBad(lines: seq<Line>, recorded: Option<string>, from: nat): (r: nat)
    requires from <= |lines|
    ensures from <= r <= |lines|
    ensures forall i :: from <= i < r ==> ErrorAt(lines, recorded, i).None?
    ensures r < |lines| ==> ErrorAt(lines, recorded, r).Some?
    decreases |lines| - from
  {
    if from == |lines| || ErrorAt(lines, recorded, from).Some? then from else FirstBad(lines, recorded, from + 1)
  }

  function FirstFailure(lines: seq<Line>): Option<Failure> {
    if lines == [] then None
    else if lines[0].FailureLine? then ParseFailure(lines[0].fields)
    else FirstFailure(lines[1..])
  }

  function LastResult(lines: seq<Line>): Option<Output> {
    if lines == [] then None
    else if lines[|lines| - 1].ResultLine? then lines[|lines| - 1].output
    else LastResult(lines[..|lines| - 1])
  }

  function ProgressOf(lines: seq<Line>): seq<Progress> {
    if lines == [] then []
    else (if lines[0].ProgressLine? && lines[0].event.Some? then [lines[0].event.value] else []) + ProgressOf(lines[1..])
  }

  /** Everything about a run that is not the helper's output. The two looks at the token after the
      output ended are one: either may see the cancellation. */
  datatype Surroundings = Surroundings(
    cancelledBefore: bool,
    spawns: bool,
    hasPipe: bool,
    cancelledAtHandOver: bool,
    cancelledAtEnd: bool,
    waits: bool,
    exit: Option<int>)           // None: killed by a signal

  function CheckResult(result: Option<Output>, resume: Option<string>): Outcome {
    if result.None? then Failed(Invalid(MissingResult))
    else if !IsFullCommit(result.value.commit) then Failed(Invalid(MalformedResultCommit))
    else if resume.Some? && resume.value != result.value.commit then Failed(Invalid(ResumeCommitMismatch))
    else if result.value.files == [] then Failed(Invalid(EmptySnapshot))
    else Fetched(result.value.commit, result.value.files)
  }

  /** The outcome of a run, read off its whole output: a cancellation beats the first bad line, which
      beats the first reported failure, which beats a bad exit. */
  function Verdict(lines: seq<Line>, recorded: Option<string>, resume: Option<string>, s: Surroundings): Outcome {
    var bad := FirstBad(lines, recorded, 0);
    if s.cancelledBefore then Failed(WasCancelled)
    else if !s.spawns then Failed(Io)
    else if !s.hasPipe then Failed(Invalid(StdoutUnavailable))
    else if s.cancelledAtHandOver || s.cancelledAtEnd then Failed(WasCancelled)
    else if bad < |lines| then Failed(ErrorAt(lines, recorded, bad).value)
    else if !s.waits then Failed(Io)
    else if FirstFailure(lines).Some? then Failed(Reported(FirstFailure(lines).value))
    else if s.exit != Some(0) then Failed(ExitFailure(s.exit))
    else CheckResult(LastResult(lines), resume)
  }

  /** How much of the output is read. */
  function Read(lines: seq<Line>, recorded: Option<string>, s: Surroundings): (r: nat)
    ensures r <= |lines|
  {
    if s.cancelledBefore || !s.spawns || !s.hasPipe || s.cancelledAtHandOver then 0 else FirstBad(lines, recorded, 0)
  }

  // ---------------------------------------------------------------- the loop

  datatype Parsed = Parsed(error: Option<Error>, result: Option<Output>, failure: Option<Failure>)

  class Fetcher {
    var recorded: Option<string>      // the commit the staging directory records
    var reported: seq<Progress>       // progress passed on

    constructor (found: Option<string>)
      ensures recorded == found && reported == []
    {
      recorded, reported := found, [];
    }

    /** Records a resolved commit: the first one stays. */
    method Record(commit: string, access: Access) returns (error: Option<Error>)
      requires IsFullCommit(commit)
      modifies `recorded
      ensures error == LineError(ResolvedLine(Some(commit), access), old(recorded))
      ensures recorded == if error.None? then Some(commit) else old(recorded)
    {
      if access.CannotRead? { return Some(Storage); }
      if access.IdentityChanged? { return Some(Invalid(StagingMetadataUpdateFailed)); }
      if recorded.Some? && recorded.value != commit { return Some(Invalid(StagingMetadataUpdateFailed)); }
      if access.CannotWrite? { return Some(Storage); }
      recorded := Some(commit);
      return None;
    }

    /** The streaming loop: the first bad line ends it, a failure does not, and of the results the
        last one stays. */
    method ReadLines(lines: seq<Line>) returns (parsed: Parsed)
      modifies this
      ensures var bad := FirstBad(lines, old(recorded), 0);
              && parsed.error == (if bad < |lines| then ErrorAt(lines, old(recorded), bad) else None)
              && (parsed.error.None? ==> parsed.result == LastResult(lines) && parsed.failure == FirstFailure(lines))
              && recorded == RecordedBefore(lines, old(recorded), bad)
              && reported == old(reported) + ProgressOf(lines[..bad])
    {
      hide LineError, ParseFailure;
      ghost var r0 := recorded;
      var result, failure := None, None;
      for i := 0 to |lines|
        invariant FirstBad(lines, r0, 0) == FirstBad(lines, r0, i)
        invariant recorded == RecordedBefore(lines, r0, i)
        invariant AllFailuresParse(lines[..i])
        invariant result == LastResult(lines[..i]) && failure == FirstFailure(lines[..i])
        invariant reported == old(reported) + ProgressOf(lines[..i])
      {
        assert lines[..i + 1] == lines[..i] + [lines[i]];
        assert lines[..i + 1][..i] == lines[..i];
        LineReads(lines[..i], lines[i]);
        FailureParses(lines[i], recorded);
        var error;
        error, result, failure := ReadLine(lines[i], result, failure);
        if error.Some? {
          return Parsed(error, result, failure);
        }
      }
      assert lines[..|lines|] == lines;
      return Parsed(None, result, failure);
    }

    /** One line of output. */
    method ReadLine(line: Line, result: Option<Output>, failure: Option<Failure>)
      returns (error: Option<Error>, result': Option<Output>, failure': Option<Failure>)
      modifies this
      ensures error == LineError(line, old(recorded))
      ensures recorded == if error.None? && line.ResolvedLine? && old(recorded).None? then line.commit else old(recorded)
      ensures error.None? ==> result' == if line.ResultLine? then line.output else result
      ensures error.None? ==> failure' == if line.FailureLine? && failure.None? then ParseFailure(line.fields) else failure
      ensures reported == old(reported) + if error.None? && line.ProgressLine? && line.event.Some? then [line.event.value] else []
    {
      error, result', failure' := None, result, failure;
      match line
      case Broken => error := Some(Io);
      case NotJson => error := Some(Invalid(NonJsonLine));
      case Untyped =>
      case OtherType => error := Some(Invalid(UnsupportedEventType));
      case ProgressLine(event) =>
        if event.None? {
          error := Some(Invalid(MalformedProgress));
        } else if event.value.version > PROGRESS_EVENT_VERSION {
          error := Some(Invalid(UnsupportedProgressVersion));
        } else {
          reported := reported + [event.value];
        }
      case ResolvedLine(commit, access) =>
        if commit.None? {
          error := Some(Invalid(MalformedResolved));
        } else if !IsFullCommit(commit.value) {
          error := Some(Invalid(MalformedResolvedCommit));
        } else {
          error := Record(commit.value, access);
        }
      case FailureLine(fields) =>
        var read := ParseFailure(fields);
        if read.None? {
          error := Some(Invalid(MalformedFailure));
        } else if failure.None? {
          failure' := read;
        }
      case ResultLine(output) =>
        if output.None? { error := Some(Invalid(MalformedResult)); } else { result' := output; }
    }

    /** One run of the helper. */
    method RunFetch(lines: seq<Line>, resume: Option<string>, s: Surroundings) returns (outcome: Outcome)
      modifies this
      ensures outcome == Verdict(lines, old(recorded), resume, s)
      ensures var n := Read(lines, old(recorded), s);
              recorded == RecordedBefore(lines, old(recorded), n) && reported == old(reported) + ProgressOf(lines[..n])
    {
      if s.cancelledBefore { return Failed(WasCancelled); }
      if !s.spawns { return Failed(Io); }
      if !s.hasPipe { return Failed(Invalid(StdoutUnavailable)); }
      if s.cancelledAtHandOver { return Failed(WasCancelled); }
      var parsed := ReadLines(lines);
      if s.cancelledAtEnd { return Failed(WasCancelled); }
      if parsed.error.Some? { return Failed(parsed.error.value); }
      if !s.waits { return Failed(Io); }
      if parsed.failure.Some? { return Failed(Reported(parsed.failure.value)); }
      if s.exit != Some(0) { return Failed(ExitFailure(s.exit)); }
      return CheckResult(parsed.result, resume);
    }
  }

  lemma FailureParses(line: Line, recorded: Option<string>)
    ensures LineError(line, recorded).None? && line.FailureLine? ==> ParseFailure(line.fields).Some?
    ensures LineError(line, recorded).None? && line.ResolvedLine? ==> line.commit.Some?
  {
  }

  predicate AllFailuresParse(lines: seq<Line>) {
    forall i :: 0 <= i < |lines| && lines[i].FailureLine? ==> ParseFailure(lines[i].fields).Some?
  }

  /** What one more line adds to each reading. */
  lemma {:induction false} LineReads(lines: seq<Line>, line: Line)
    requires AllFailuresParse(lines)
    ensures FirstResolved(lines + [line])
         == if FirstResolved(lines).Some? then FirstResolved(lines) else if line.ResolvedLine? then line.commit else None
    ensures ProgressOf(lines + [line])
         == ProgressOf(lines) + if line.ProgressLine? && line.event.Some? then [line.event.value] else []
    ensures FirstFailure(lines + [line])
         == if FirstFailure(lines).Some? then FirstFailure(lines) else if line.FailureLine? then ParseFailure(line.fields) else None
  {
    hide ParseFailure;
    if lines == [] {
      assert lines + [line] == [line] && [line][1..] == [];
    } else {
      LineReads(lines[1..], line);
      assert (lines + [line])[1..] == lines[1..] + [line] && (lines + [line])[0] == lines[0];
    }
  }

  // ---------------------------------------------------------------- what an outcome means

  /** No line is bad, given the commit recorded before it. */
  predicate AllGood(lines: seq<Line>, recorded: Option<string>) {
    forall i :: 0 <= i < |lines| ==> ErrorAt(lines, recorded, i).None?
  }

  /** The output decides: the helper ran and no look at the token saw a cancellation. */
  predicate Counts(s: Surroundings) {
    !s.cancelledBefore && s.spawns && s.hasPipe && !s.cancelledAtHandOver && !s.cancelledAtEnd
  }

  predicate IsFirstBad(lines: seq<Line>, recorded: Option<string>, i: nat) {
    i < |lines| && ErrorAt(lines, recorded, i).Some? && forall j :: 0 <= j < i ==> ErrorAt(lines, recorded, j).None?
  }

  predicate IsFirstFailure(lines: seq<Line>, i: nat) {
    i < |lines| && lines[i].FailureLine? && forall j :: 0 <= j < i ==> !lines[j].FailureLine?
  }

  predicate IsLastResult(lines: seq<Line>, i: nat) {
    i < |lines| && lines[i].ResultLine? && forall j :: i < j < |lines| ==> !lines[j].ResultLine?
  }

  predicate NoFailureLine(lines: seq<Line>) {
    forall i :: 0 <= i < |lines| ==> !lines[i].FailureLine?
  }

  /** The whole output is good and the helper's end is known. */
  predicate ReadToTheEnd(lines: seq<Line>, recorded: Option<string>, s: Surroundings) {
    Counts(s) && AllGood(lines, recorded) && s.waits
  }

  /** ... and the helper reported no failure and exited cleanly, so that only its result is left to check. */
  predicate ResultDecides(lines: seq<Line>, recorded: Option<string>, s: Surroundings) {
    ReadToTheEnd(lines, recorded, s) && NoFailureLine(lines) && s.exit == Some(0)
  }

  /** When a line is good, and what makes a line bad, kind by kind. */
  lemma LineMeans(line: Line, recorded: Option<string>)
    ensures var e := LineError(line, recorded);
            var resolved := line.ResolvedLine? && line.commit.Some? && IsFullCommit(line.commit.value);
            var agrees := line.ResolvedLine? && (recorded.None? || recorded == line.commit);
            && (e.None? <==>
                  || line.Untyped?
                  || (line.ProgressLine? && line.event.Some? && line.event.value.version <= PROGRESS_EVENT_VERSION)
                  || (resolved && agrees && line.access.Readable?)
                  || (line.FailureLine? && ParseFailure(line.fields).Some?)
                  || (line.ResultLine? && line.output.Some?))
            && (e == Some(Io) <==> line.Broken?)
            && (e == Some(Storage) <==> resolved && (line.access.CannotRead? || (line.access.CannotWrite? && agrees)))
            && (e == Some(Invalid(StagingMetadataUpdateFailed)) <==>
                  resolved && !line.access.CannotRead? && (line.access.IdentityChanged? || !agrees))
            && (e == Some(Invalid(NonJsonLine)) <==> line.NotJson?)
            && (e == Some(Invalid(UnsupportedEventType)) <==> line.OtherType?)
            && (e == Some(Invalid(MalformedProgress)) <==> line.ProgressLine? && line.event.None?)
            && (e == Some(Invalid(MalformedResolved)) <==> line.ResolvedLine? && line.commit.None?)
            && (e == Some(Invalid(MalformedResolvedCommit)) <==> line.ResolvedLine? && line.commit.Some? && !resolved)
            && (e == Some(Invalid(MalformedFailure)) <==> line.FailureLine? && ParseFailure(line.fields).None?)
            && (e == Some(Invalid(MalformedResult)) <==> line.ResultLine? && line.output.None?)
  {
    hide IsFullCommit, ParseFailure;
  }

  function ClassName(cls: FailureClass): string {
    match cls
    case ClassUnavailable => "unavailable"
    case ClassNotFound => "not_found"
    case ClassUnauthorized => "unauthorized"
    case RateLimited => "rate_limited"
    case ClientFailure => "client_failure"
  }

  /** A failure line is read exactly if its version is known and its class has a name; the class and the
      detail are the ones it gives. */
  lemma ParsedFailure(fields: FailureFields, cls: FailureClass, detail: Option<string>)
    ensures ParseFailure(Some(fields)) == Some(Failure(cls, detail)) <==>
            fields.version <= FAILURE_EVENT_VERSION && fields.cls == ClassName(cls) && fields.detail == detail
  {
  }

  lemma {:induction false} FirstBadIs(lines: seq<Line>, recorded: Option<string>)
    ensures var bad := FirstBad(lines, recorded, 0);
            && (bad == |lines| <==> AllGood(lines, recorded))
            && forall i: nat :: IsFirstBad(lines, recorded, i) <==> i == bad < |lines|
  {
    hide LineError;
    var bad := FirstBad(lines, recorded, 0);
    forall i: nat ensures IsFirstBad(lines, recorded, i) <==> i == bad < |lines| {
      if IsFirstBad(lines, recorded, i) {
        assert bad <= i;
      }
    }
  }

  lemma {:induction false} FirstFailureIs(lines: seq<Line>)
    requires AllFailuresParse(lines)
    ensures FirstFailure(lines).None? <==> NoFailureLine(lines)
    ensures forall i: nat :: IsFirstFailure(lines, i) ==> FirstFailure(lines) == ParseFailure(lines[i].fields)
    ensures FirstFailure(lines).Some? ==> exists i: nat :: IsFirstFailure(lines, i)
  {
    hide ParseFailure;
    if lines != [] {
      FirstFailureIs(lines[1..]);
      assert forall i :: 0 < i < |lines| ==> lines[i] == lines[1..][i - 1];
      if lines[0].FailureLine? {
        assert IsFirstFailure(lines, 0);
      } else {
        forall i: nat | IsFirstFailure(lines, i) ensures FirstFailure(lines) == ParseFailure(lines[i].fields) {
          assert IsFirstFailure(lines[1..], i - 1);
        }
        if FirstFailure(lines).Some? {
          var i: nat :| IsFirstFailure(lines[1..], i);
          assert IsFirstFailure(lines, i + 1);
        }
      }
    }
  }

  lemma {:induction false} LastResultIs(lines: seq<Line>)
    ensures forall i: nat :: IsLastResult(lines, i) ==> LastResult(lines) == lines[i].output
    ensures (forall i :: 0 <= i < |lines| ==> !lines[i].ResultLine?) ==> LastResult(lines).None?
    ensures (exists i :: 0 <= i < |lines| && lines[i].ResultLine?) ==> exists i: nat :: IsLastResult(lines, i)
    decreases |lines|
  {
    if lines != [] {
      var front := lines[..|lines| - 1];
      LastResultIs(front);
      if lines[|lines| - 1].ResultLine? {
        assert IsLastResult(lines, |lines| - 1);
      } else {
        forall i: nat | IsLastResult(lines, i) ensures LastResult(lines) == lines[i].output {
          assert IsLastResult(front, i);
        }
        if exists i :: 0 <= i < |front| && front[i].ResultLine? {
          var i: nat :| IsLastResult(front, i);
          assert IsLastResult(lines, i);
        }
      }
    }
  }

  lemma GoodFailuresParse(lines: seq<Line>, recorded: Option<string>)
    requires AllGood(lines, recorded)
    ensures AllFailuresParse(lines)
    ensures forall i :: 0 <= i < |lines| && lines[i].ResultLine? ==> lines[i].output.Some?
  {
    hide LineError, ParseFailure, IsFullCommit;
    forall i | 0 <= i < |lines|
      ensures lines[i].FailureLine? ==> ParseFailure(lines[i].fields).Some?
      ensures lines[i].ResultLine? ==> lines[i].output.Some?
    {
      assert ErrorAt(lines, recorded, i).None?;
      LineMeans(lines[i], RecordedBefore(lines, recorded, i));
    }
  }

  /** The errors only a line can give. */
  predicate IsLineError(e: Error) {
    || e == Storage
    || (e.Invalid? && e.reason in {NonJsonLine, MalformedProgress, UnsupportedProgressVersion, MalformedResolved, MalformedResolvedCommit,
                                   StagingMetadataUpdateFailed, MalformedResult, UnsupportedEventType, MalformedFailure})
  }

  /** A run is cancelled exactly when some look at the token, as far as it got, saw the cancellation. */
  lemma CancelledMeans(lines: seq<Line>, recorded: Option<string>, resume: Option<string>, s: Surroundings)
    ensures Verdict(lines, recorded, resume, s) == Failed(WasCancelled) <==>
            s.cancelledBefore || (s.spawns && s.hasPipe && (s.cancelledAtHandOver || s.cancelledAtEnd))
  {
    hide IsFullCommit, ParseFailure;
  }

  /** A helper that cannot be run, a broken pipe and a failing wait. */
  lemma StartMeans(lines: seq<Line>, recorded: Option<string>, resume: Option<string>, s: Surroundings)
    ensures Verdict(lines, recorded, resume, s) == Failed(Io) <==>
            || (!s.cancelledBefore && !s.spawns)
            || (Counts(s) && exists i: nat :: IsFirstBad(lines, recorded, i) && lines[i].Broken?)
            || (Counts(s) && AllGood(lines, recorded) && !s.waits)
    ensures Verdict(lines, recorded, resume, s) == Failed(Invalid(StdoutUnavailable)) <==>
            !s.cancelledBefore && s.spawns && !s.hasPipe
  {
    hide IsFullCommit, ParseFailure, LineError;
    FirstBadIs(lines, recorded);
    var bad := FirstBad(lines, recorded, 0);
    if bad < |lines| {
      LineMeans(lines[bad], RecordedBefore(lines, recorded, bad));
      LineNeverOther(lines[bad], RecordedBefore(lines, recorded, bad));
      assert IsFirstBad(lines, recorded, bad);
    }
  }

  lemma LineNeverOther(line: Line, recorded: Option<string>)
    ensures LineError(line, recorded).Some? ==> LineError(line, recorded).value == Io || IsLineError(LineError(line, recorded).value)
  {
    hide IsFullCommit, ParseFailure;
  }

  /** The first bad line decides, whatever follows it and however the helper exits; and no such error comes
      from anything else. */
  lemma BadLineMeans(lines: seq<Line>, recorded: Option<string>, resume: Option<string>, s: Surroundings, e: Error)
    requires IsLineError(e)
    ensures Verdict(lines, recorded, resume, s) == Failed(e) <==>
            Counts(s) && exists i: nat :: IsFirstBad(lines, recorded, i) && ErrorAt(lines, recorded, i) == Some(e)
  {
    hide IsFullCommit, ParseFailure, LineError;
    FirstBadIs(lines, recorded);
    var bad := FirstBad(lines, recorded, 0);
    if bad < |lines| { assert IsFirstBad(lines, recorded, bad); }
  }

  /** A reported failure is the outcome exactly when the whole output was good and its first failure line
      says so, whatever the exit code; or when the exit code alone stands for it. */
  lemma ReportedMeans(lines: seq<Line>, recorded: Option<string>, resume: Option<string>, s: Surroundings, f: Failure)
    ensures Verdict(lines, recorded, resume, s) == Failed(Reported(f)) <==>
            && ReadToTheEnd(lines, recorded, s)
            && ((exists i: nat :: IsFirstFailure(lines, i) && ParseFailure(lines[i].fields) == Some(f))
                || (NoFailureLine(lines) && s.exit == Some(13) && f == Failure(RateLimited, None)))
  {
    hide IsFullCommit, ParseFailure, LineError;
    FirstBadIs(lines, recorded);
    BadLineIsNoReport(lines, recorded);
    if AllGood(lines, recorded) {
      GoodFailuresParse(lines, recorded);
      FirstFailureIs(lines);
    }
  }

  lemma BadLineIsNoReport(lines: seq<Line>, recorded: Option<string>)
    ensures forall i :: 0 <= i < |lines| && ErrorAt(lines, recorded, i).Some? ==>
              var e := ErrorAt(lines, recorded, i).value; e == Io || IsLineError(e)
  {
    hide LineError;
    forall i | 0 <= i < |lines| ensures ErrorAt(lines, recorded, i).Some? ==>
                                          var e := ErrorAt(lines, recorded, i).value; e == Io || IsLineError(e)
    {
      LineNeverOther(lines[i], RecordedBefore(lines, recorded, i));
    }
  }

  /** An exit code is read only when no failure line came. */
  lemma ExitMeans(lines: seq<Line>, recorded: Option<string>, resume: Option<string>, s: Surroundings)
    ensures var v, unexplained := Verdict(lines, recorded, resume, s), ReadToTheEnd(lines, recorded, s) && NoFailureLine(lines);
            && (v == Failed(Unavailable) <==> unexplained && s.exit == Some(10))
            && (v == Failed(NotFound) <==> unexplained && s.exit == Some(11))
            && (v == Failed(Unauthorized) <==> unexplained && s.exit == Some(12))
            && (v == Failed(Invalid(MissingFailureEvent)) <==>
                  unexplained && s.exit !in {Some(0), Some(10), Some(11), Some(12), Some(13)})
  {
    hide IsFullCommit, ParseFailure, LineError;
    FirstBadIs(lines, recorded);
    BadLineIsNoReport(lines, recorded);
    if AllGood(lines, recorded) {
      GoodFailuresParse(lines, recorded);
      FirstFailureIs(lines);
    }
  }

  /** The last result is checked in this order: that it is there, its commit, the commit to resume, its files. */
  lemma ResultMeans(lines: seq<Line>, recorded: Option<string>, resume: Option<string>, s: Surroundings)
    ensures var v, decides := Verdict(lines, recorded, resume, s), ResultDecides(lines, recorded, s);
            && (v == Failed(Invalid(MissingResult)) <==> decides && forall i :: 0 <= i < |lines| ==> !lines[i].ResultLine?)
            && (v.Fetched? || (v.Failed? && v.error.Invalid?
                               && v.error.reason in {MalformedResultCommit, ResumeCommitMismatch, EmptySnapshot}) <==>
                  decides && exists i :: 0 <= i < |lines| && lines[i].ResultLine?)
    ensures forall i: nat :: ResultDecides(lines, recorded, s) && IsLastResult(lines, i) && lines[i].output.Some? ==>
              var v, o := Verdict(lines, recorded, resume, s), lines[i].output.value;
              && (v == Failed(Invalid(MalformedResultCommit)) <==> !IsFullCommit(o.commit))
              && (v == Failed(Invalid(ResumeCommitMismatch)) <==> IsFullCommit(o.commit) && resume.Some? && resume.value != o.commit)
              && (v == Failed(Invalid(EmptySnapshot)) <==> IsFullCommit(o.commit) && (resume.Some? ==> resume.value == o.commit) && o.files == [])
  {
    hide IsFullCommit, ParseFailure, LineError;
    FirstBadIs(lines, recorded);
    BadLineIsNoReport(lines, recorded);
    LastResultIs(lines);
    if AllGood(lines, recorded) {
      GoodFailuresParse(lines, recorded);
      FirstFailureIs(lines);
    }
  }

  /** Success means exactly this: nobody cancelled, no line was bad, no failure was reported, the
      helper exited cleanly, and the last result has a full commit, the one to resume if there was
      one, and at least one file. */
  lemma SuccessMeans(lines: seq<Line>, recorded: Option<string>, resume: Option<string>, s: Surroundings, commit: string, files: seq<string>)
    ensures Verdict(lines, recorded, resume, s) == Fetched(commit, files) <==>
            && !s.cancelledBefore && s.spawns && s.hasPipe && !s.cancelledAtHandOver && !s.cancelledAtEnd && s.waits
            && AllGood(lines, recorded) && (forall i :: 0 <= i < |lines| ==> !lines[i].FailureLine?) && s.exit == Some(0)
            && (exists i: nat :: IsLastResult(lines, i) && lines[i].output == Some(Output(commit, files)))
            && IsFullCommit(commit) && (resume.Some? ==> resume.value == commit) && files != []
  {
    hide LineError, IsFullCommit, ParseFailure;
    FirstBadIs(lines, recorded);
    LastResultIs(lines);
    if AllGood(lines, recorded) {
      GoodFailuresParse(lines, recorded);
      FirstFailureIs(lines);
    }
  }

  /** The progress passed on is that of the parsed progress events, in their order. */
  lemma {:induction false} ProgressInOrder(a: seq<Line>, b: seq<Line>, line: Line)
    ensures ProgressOf(a + b) == ProgressOf(a) + ProgressOf(b)
    ensures ProgressOf([line]) == if line.ProgressLine? && line.event.Some? then [line.event.value] else []
  {
    assert [line][1..] == [];
    if a == [] {
      assert a + b == b;
    } else {
      ProgressInOrder(a[1..], b, line);
      assert (a + b)[0] == a[0] && (a + b)[1..] == a[1..] + b;
    }
  }

  /** A resumed fetch that succeeds returns the commit its staging directory recorded, which is
      still what it records. */
  lemma ResumedFetchKeepsCommit(lines: seq<Line>, recorded: Option<string>, s: Surroundings)
    requires recorded.Some?
    ensures var v := Verdict(lines, recorded, recorded, s);
            && (v.Fetched? ==> v.commit == recorded.value)
            && RecordedBefore(lines, recorded, Read(lines, recorded, s)) == recorded
  {
    var v := Verdict(lines, recorded, recorded, s);
    if v.Fetched? { SuccessMeans(lines, recorded, recorded, s, v.commit, v.files); }
  }

  /** In output without a bad line every resolved event names one commit, the one recorded. */
  lemma {:induction false} ResolvedAgree(lines: seq<Line>, recorded: Option<string>, i: nat)
    requires AllGood(lines, recorded) && i < |lines| && lines[i].ResolvedLine?
    ensures lines[i].commit.Some? && lines[i].commit == RecordedBefore(lines, recorded, |lines|)
  {
    hide IsFullCommit;
    FailureParses(lines[i], RecordedBefore(lines, recorded, i));
    assert ErrorAt(lines, recorded, i).None?;
    assert lines[..|lines|] == lines;
    if recorded.None? {
      FirstResolvedStays(lines, i);
    }
  }

  lemma {:induction false} FirstResolvedStays(lines: seq<Line>, i: nat)
    requires i < |lines| && lines[i].ResolvedLine? && lines[i].commit.Some?
    ensures FirstResolved(lines) == if FirstResolved(lines[..i]).Some? then FirstResolved(lines[..i]) else lines[i].commit
  {
    if i == 0 {
      assert lines[..0] == [];
    } else {
      FirstResolvedStays(lines[1..], i - 1);
      assert lines[..i][1..] == lines[1..][..i - 1] && lines[..i][0] == lines[0];
    }
  }

  /** Without a commit to resume, the result is not compared with the resolved event: a helper that
      names two commits succeeds with the second, while staging records the first. */
  lemma FreshResultIsNotCompared(first: string, second: string, files: seq<string>)
    requires IsFullCommit(first) && IsFullCommit(second) && files != []
    ensures var lines := [ResolvedLine(Some(first), Readable), ResultLine(Some(Output(second, files)))];
            var s := Surroundings(false, true, true, false, false, true, Some(0));
            && Verdict(lines, None, None, s) == Fetched(second, files)
            && RecordedBefore(lines, None, Read(lines, None, s)) == Some(first)
  {
    hide IsFullCommit;
    var resolved, result := ResolvedLine(Some(first), Readable), ResultLine(Some(Output(second, files)));
    var lines := [resolved, result];
    var s := Surroundings(false, true, true, false, false, true, Some(0));
    assert lines[..0] == [] && lines[..1] == [resolved] && lines[..2] == lines;
    assert LineError(resolved, None).None? && LineError(result, Some(first)).None?;
    assert FirstResolved([resolved]) == Some(first) && FirstResolved(lines) == Some(first);
    assert ErrorAt(lines, None, 0).None? && ErrorAt(lines, None, 1).None?;
    assert FirstBad(lines, None, 0) == FirstBad(lines, None, 1) == FirstBad(lines, None, 2) == 2;
    SuccessMeans(lines, None, None, s, second, files);
  }

  lemma {:induction false} FirstResolvedIsThere(lines: seq<Line>) returns (i: nat)
    requires FirstResolved(lines).Some?
    ensures i < |lines| && lines[i].ResolvedLine? && lines[i].commit == FirstResolved(lines)
  {
    if lines[0].ResolvedLine? && lines[0].commit.Some? {
      i := 0;
    } else {
      i := FirstResolvedIsThere(lines[1..]);
      i := i + 1;
    }
  }

  /** Exactly when a fresh run that succeeds returns the commit staging records: when some resolved
      event names it. Without a resolved event nothing is recorded. */
  lemma FreshResultIsRecordedIff(lines: seq<Line>, s: Surroundings, commit: string, files: seq<string>)
    requires Verdict(lines, None, None, s) == Fetched(commit, files)
    ensures RecordedBefore(lines, None, Read(lines, None, s)) == Some(commit) <==>
            exists i :: 0 <= i < |lines| && lines[i].ResolvedLine? && lines[i].commit == Some(commit)
  {
    SuccessMeans(lines, None, None, s, commit, files);
    hide IsFullCommit, LineError, Verdict;
    assert lines[..|lines|] == lines;
    AllRead(lines, s);
    if FirstResolved(lines) == Some(commit) {
      var i := FirstResolvedIsThere(lines);
    }
    if i :| 0 <= i < |lines| && lines[i].ResolvedLine? && lines[i].commit == Some(commit) {
      ResolvedAgree(lines, None, i);
    }
  }

  lemma AllRead(lines: seq<Line>, s: Surroundings)
    requires AllGood(lines, None) && !s.cancelledBefore && s.spawns && s.hasPipe && !s.cancelledAtHandOver
    ensures Read(lines, None, s) == |lines|
  {
    hide LineError;
  }
}
