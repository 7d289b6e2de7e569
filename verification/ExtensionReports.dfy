/** What an extension reports and what a reader is given, whatever others do in between. */
module ExtensionReports {
  import opened Manifests
  import opened Paths
  import opened Placing
  import opened Extension

  function PathSet(files: seq<Source>): set<string> {
    set i | 0 <= i < |files| :: files[i].path
  }

  /** The paths an attempt was asked for: those it found listed, those it has added and those to come. */
  function Asked(ph: Phase): set<string> {
    match ph
    case Planned(files, skipped) => skipped + PathSet(files)
    case Staged(files, skipped) => skipped + PathSet(files)
    case Locked(files, skipped) => skipped + PathSet(files)
    case Moving(files, skipped, _, _, added) => skipped + PathSet(files) + set path | path in added
    case Swapped(report) => ReportPaths(report)
    case Found(_) => {}
  }

  lemma {:induction false} FirstPath(files: seq<Source>)
    requires files != []
    ensures PathSet(files) == {files[0].path} + PathSet(files[1..])
  {
    forall path | path in PathSet(files[1..]) ensures path in PathSet(files) {
      var i :| 0 <= i < |files[1..]| && files[1..][i].path == path;
      assert files[i + 1].path == path;
    }
    forall path | path in PathSet(files) && path != files[0].path ensures path in PathSet(files[1..]) {
      var i :| 0 <= i < |files| && files[i].path == path;
      assert files[1..][i - 1].path == path;
    }
  }

  lemma {:induction false} PlanAsks(request: seq<Source>, listed: set<string>)
    ensures Skipped(request, listed) + PathSet(Candidates(request, listed)) == PathSet(request)
    ensures Skipped(request, listed) == PathSet(request) * listed
  {
    var files := Candidates(request, listed);
    forall path | path in PathSet(request) && path !in listed ensures path in PathSet(files) {
      var i :| 0 <= i < |request| && request[i].path == path;
      assert request[i] in request && request[i] in files;
      var j :| 0 <= j < |files| && files[j] == request[i];
      assert files[j].path == path;
    }
    forall path | path in PathSet(files) ensures path in PathSet(request) {
      var j :| 0 <= j < |files| && files[j].path == path;
      assert files[j] in files && files[j] in request;
      var i :| 0 <= i < |request| && request[i] == files[j];
      assert request[i].path == path;
    }
  }

  lemma StepKeepsAsked(s: State, p: Pid, step: Step)
    requires p in s.procs && EnabledFor(s, p, s.procs[p], step) && !s.procs[p].Found? && !step.Stop?
    ensures var (was, t) := (s.procs[p], ApplyFor(s, p, s.procs[p], step));
            && (step.Finish? ==> t.reports != [] && t.reports == s.reports + [t.reports[|t.reports| - 1]]
                                 && ReportPaths(t.reports[|t.reports| - 1]) == Asked(was))
            && (!step.Finish? ==> t.reports == s.reports && p in t.procs && !t.procs[p].Found? && Asked(t.procs[p]) == Asked(was))
  {
    hide CanCreate, CanRename, Current, Candidates, Key;
    if step.Move? {
      hide PathSet;
      FirstPath(s.procs[p].files);
    }
  }

  lemma OthersKeepAsked(s: State, e: Event, p: Pid)
    requires Enabled(s, e) && e.pid != p && p in s.procs
    ensures var t := Apply(s, e); p in t.procs && t.procs[p] == s.procs[p]
  {
    hide CanCreate, CanRename, Current, EnabledFor, ApplyFor, Find, ValidRelative, Candidates, Skipped;
    if !e.step.Plan? && !e.step.Lookup? { OthersStandStill(s, e.pid, e.step); }
  }

  lemma OthersStandStill(s: State, pid: Pid, step: Step)
    requires pid in s.procs && EnabledFor(s, pid, s.procs[pid], step)
    ensures var t := ApplyFor(s, pid, s.procs[pid], step);
            forall q :: q != pid ==> (q in t.procs <==> q in s.procs) && (q in s.procs ==> t.procs[q] == s.procs[q])
  {
    hide Key, CanRename, CanCreate, Current, SortedPaths;
  }

  predicate StaysAtIt(run: seq<Event>, p: Pid) {
    forall i :: 0 <= i < |run| && run[i].pid == p ==> !run[i].step.Stop? && !run[i].step.Finish?
  }

  lemma {:induction false} RunKeepsAsked(s: State, run: seq<Event>, p: Pid)
    requires Valid(s, run) && p in s.procs && !s.procs[p].Found? && StaysAtIt(run, p)
    ensures var t := After(s, run); p in t.procs && !t.procs[p].Found? && Asked(t.procs[p]) == Asked(s.procs[p])
    decreases |run|
  {
    hide Apply, Enabled, ApplyFor, EnabledFor, Asked;
    if run != [] {
      var e := run[0];
      if e.pid == p {
        OwnStep(s, e);
        StepKeepsAsked(s, p, e.step);
      } else {
        OthersKeepAsked(s, e, p);
      }
      RunKeepsAsked(Apply(s, e), run[1..], p);
    }
  }

  lemma OwnStep(s: State, e: Event)
    requires Enabled(s, e) && e.pid in s.procs
    ensures EnabledFor(s, e.pid, s.procs[e.pid], e.step) && Apply(s, e) == ApplyFor(s, e.pid, s.procs[e.pid], e.step)
  {
  }

  /** Whatever others do meanwhile: an extension that gets to its end reports exactly the paths it was asked
      for, each as added or as skipped. */
  lemma ReportsWhatWasAsked(s: State, run: seq<Event>, p: Pid, request: seq<Source>)
    requires Enabled(s, Event(p, Plan(request))) && Valid(Apply(s, Event(p, Plan(request))), run) && StaysAtIt(run, p)
    requires Enabled(After(Apply(s, Event(p, Plan(request))), run), Event(p, Finish))
    ensures var t := After(Apply(s, Event(p, Plan(request))), run);
            var reports := Apply(t, Event(p, Finish)).reports;
            reports == t.reports + [reports[|reports| - 1]] && ReportPaths(reports[|reports| - 1]) == PathSet(request)
  {
    var s1 := Apply(s, Event(p, Plan(request)));
    PlanAsks(request, Listed(Live(s)));
    RunKeepsAsked(s1, run, p);
    var t := After(s1, run);
    OwnStep(t, Event(p, Finish));
    StepKeepsAsked(t, p, Finish);
  }

  lemma {:induction false} FoundStays(s: State, run: seq<Event>, p: Pid)
    requires Valid(s, run) && p in s.procs && forall i :: 0 <= i < |run| ==> run[i].pid != p
    ensures p in After(s, run).procs && After(s, run).procs[p] == s.procs[p]
    decreases |run|
  {
    hide Apply, Enabled;
    if run != [] {
      OthersKeepAsked(s, run[0], p);
      FoundStays(Apply(s, run[0]), run[1..], p);
    }
  }

  /** Whatever others do meanwhile: a reader is given the path it asked for, as the manifest listed it when it
      looked. */
  lemma ReaderGetsItsPath(s: State, run: seq<Event>, p: Pid, path: string)
    requires Enabled(s, Event(p, Lookup(path))) && Valid(Apply(s, Event(p, Lookup(path))), run)
    requires (forall i :: 0 <= i < |run| ==> run[i].pid != p) && Enabled(After(Apply(s, Event(p, Lookup(path))), run), Event(p, Open))
    ensures var t := After(Apply(s, Event(p, Lookup(path))), run);
            var served := Apply(t, Event(p, Open)).served;
            && served == t.served + [served[|served| - 1]]
            && served[|served| - 1].path == path
            && (exists i :: 0 <= i < |Live(s)| && Live(s)[i].path == path && Live(s)[i].digest == served[|served| - 1].digest)
            && served[|served| - 1].content == t.disk[Key(path)].bytes && served[|served| - 1].size == |t.disk[Key(path)].bytes|
  {
    FoundStays(Apply(s, Event(p, Lookup(path))), run, p);
    var i := Find(Live(s), path);
    assert Live(s)[i].path == path;
  }
}
