/** The races startup recovery can lose, and exactly when. Recovery checks a lease it read earlier
    against the clock it reads now; an owner that renews or drops its lease in between still loses
    its directory. */
module StagingRaces {
  import opened Common
  import opened StagingRules
  import opened StagingProtocol
  import opened StagingProof
  import opened StagingTheorems
  import opened StagingCare

  // ---------------------------------------------------------------- exactly the runs that disturb

  /** In this run no recovery is let go on after a name somebody owns. */
  ghost predicate SparingRun(s: State, run: seq<Event>)
    requires Valid(s, run)
    decreases |run|
  {
    run == [] || (Sparing(s, run[0]) && SparingRun(Apply(s, run[0]), run[1..]))
  }

  /** Every state of the run is undisturbed. */
  ghost predicate NeverDisturbed(s: State, run: seq<Event>)
    requires Valid(s, run)
    decreases |run|
  {
    Undisturbed(s) && (run == [] || NeverDisturbed(Apply(s, run[0]), run[1..]))
  }

  lemma PassingOwnedDisturbs(s: State, e: Event)
    requires Inv(s) && Enabled(s, e) && !Sparing(s, e)
    ensures !Undisturbed(Apply(s, e))
  {
    hide DirsOK, ProcOK, AllApart, ClaimsOK, OnTime;
    var n := s.procs[e.pid].phase.path;
    var p :| Holds(s, p, n);
    var s' := Apply(s, e);
    assert p in s'.procs && s'.procs[p] == s.procs[p];
    assert Target(s'.procs[e.pid].phase) == Some(n);
  }

  /** A run leaves every owner's directory alone, at every point, exactly when no recovery's clock
      reading succeeds on a name that is owned by then. */
  lemma {:induction false} DisturbedExactlyByLateReads(s: State, run: seq<Event>)
    requires Inv(s) && Undisturbed(s) && Valid(s, run)
    ensures NeverDisturbed(s, run) <==> SparingRun(s, run)
    decreases |run|
  {
    hide Enabled, Apply, Inv, Undisturbed, Sparing;
    if run != [] {
      StepKeepsInv(s, run[0]);
      if Sparing(s, run[0]) {
        StepKeepsUndisturbed(s, run[0]);
        DisturbedExactlyByLateReads(Apply(s, run[0]), run[1..]);
      } else {
        PassingOwnedDisturbs(s, run[0]);
      }
    }
  }

  // ---------------------------------------------------------------- what such a reading leads to

  /** A used name nobody owns is never owned again. */
  lemma StepKeepsUnheld(s: State, e: Event, n: Name)
    requires Inv(s) && Enabled(s, e) && n.op < s.nextOp && (forall p :: !Holds(s, p, n))
    ensures n.op < Apply(s, e).nextOp && forall p :: !Holds(Apply(s, e), p, n)
  {
    hide ApplyFor, EnabledFor, ProcOK, OnTime, DirsOK, ClaimsOK, AllApart, Guarantee, OwnOK;
    var s' := Apply(s, e);
    if e.pid in s.procs && !e.step.Tick? {
      assert Ready(s, e.pid, e.step);
      StepGuarantees(s, e.pid, e.step);
      NextOpGrows(s, s', s.procs[e.pid].phase);
    }
    forall p ensures !Holds(s', p, n) {
      assert !Holds(s, p, n);
    }
  }

  lemma NextOpGrows(s: State, s': State, ph: Phase)
    requires Guaranteed(s, s', ph)
    ensures s.nextOp <= s'.nextOp
  {
  }

  lemma {:induction false} RunKeepsUnheld(s: State, run: seq<Event>, n: Name)
    requires Inv(s) && Valid(s, run) && n.op < s.nextOp && (forall p :: !Holds(s, p, n))
    ensures forall p :: !Holds(After(s, run), p, n)
    decreases |run|
  {
    hide Enabled, Apply, Inv, Holds;
    if run != [] {
      StepKeepsInv(s, run[0]);
      StepKeepsUnheld(s, run[0], n);
      RunKeepsUnheld(Apply(s, run[0]), run[1..], n);
    }
  }

  /** Recovery `r` is about to act on the name `n` while `p` owns it. */
  predicate AboutToTake(s: State, r: Pid, p: Pid, n: Name) {
    r in s.procs && s.procs[r].phase.Judged? && s.procs[r].phase.path == n && Holds(s, p, n)
  }

  /** A clock reading that succeeds can end in recovery acting on an owned name exactly when the
      name is owned at that reading. */
  lemma TakesExactlyOwned(s: State, r: Pid)
    requires Inv(s) && Passes(s, r)
    ensures var n := s.procs[r].phase.path;
            (exists p :: Holds(s, p, n)) <==>
            (exists run, p :: Valid(s, run) && AboutToTake(After(s, run), r, p, n))
  {
    var n := s.procs[r].phase.path;
    ReadNameIsUsed(s, r);
    if p :| Holds(s, p, n) {
      var run := Judges(s, r, p);
      assert AboutToTake(After(s, run), r, p, n);
    } else {
      forall run | Valid(s, run) ensures forall p :: !Holds(After(s, run), p, n) {
        RunKeepsUnheld(s, run, n);
      }
    }
  }

  lemma Judges(s: State, r: Pid, p: Pid) returns (run: seq<Event>)
    requires Inv(s) && Passes(s, r) && Holds(s, p, s.procs[r].phase.path)
    ensures Valid(s, run)
    ensures var n := s.procs[r].phase.path;
            var identity := if n in s.dirs then s.dirs[n].meta else None;
            After(s, run) == s.(procs := s.procs[r := s.procs[r].(phase := Judged(n, identity))])
  {
    hide Inv, Valid, After;
    NothingHappens(s);
    Append(s, [], Event(r, ReadClock));
    run := [] + [Event(r, ReadClock)];
    Append(s, run, Event(r, Judge));
    run := run + [Event(r, Judge)];
  }

  lemma NextNameIsUnused(s: State)
    requires Inv(s)
    ensures Name(AbandonedForm, s.nextOp) !in s.dirs
  {
  }

  /** And then the owner's directory is gone from under its name: deleted, or renamed to abandoned
      when it had recorded a commit. */
  lemma OwnedIsTaken(s: State, r: Pid, p: Pid) returns (run: seq<Event>)
    requires Inv(s) && Passes(s, r) && Holds(s, p, s.procs[r].phase.path)
    requires s.procs[r].phase.path in s.dirs && s.procs[r].phase.path.form != AbandonedForm
    ensures Valid(s, run)
    ensures var n := s.procs[r].phase.path;
            var t := After(s, run);
            && Holds(t, p, n) && n !in t.dirs && t.procs == s.procs - {r}
            && (if n.form == ActiveForm && RecordsCommit(s.dirs[n].meta)
                then t.dirs == (s.dirs - {n})[Name(AbandonedForm, s.nextOp) := s.dirs[n]]
                else t.dirs == s.dirs - {n})
  {
    NextNameIsUnused(s);
    hide Inv, Valid, After;
    run := Judges(s, r, p);
    Append(s, run, Event(r, Reclaim));
    run := run + [Event(r, Reclaim)];
  }

  // ---------------------------------------------------------------- the exact guard

  /** What a second look at the lease, after the clock, would find. */
  datatype LeaseView = Gone | Missing | Reached | Later

  function View(s: State, n: Name): LeaseView {
    if n !in s.dirs then Gone
    else
      match s.dirs[n].lease
      case None => Missing
      case Some(at) => if at <= s.now then Reached else Later
  }

  /** Some run, careful so far, ends where `r` is let go on, a second look at the lease would find
      `v`, and `p` owns the name. */
  predicate OwnedUnder(s: State, run: seq<Event>, r: Pid, p: Pid, v: LeaseView) {
    && Start(s) && Valid(s, run) && CarefulRun(s, run)
    && Passes(After(s, run), r)
    && View(After(s, run), After(s, run).procs[r].phase.path) == v
    && Holds(After(s, run), p, After(s, run).procs[r].phase.path)
  }

  lemma {:induction false} CarefulAppend(s: State, run: seq<Event>, e: Event)
    requires Valid(s, run) && CarefulRun(s, run) && Enabled(After(s, run), e) && Careful(After(s, run), e)
    ensures Valid(s, run + [e]) && CarefulRun(s, run + [e]) && After(s, run + [e]) == Apply(After(s, run), e)
    decreases |run|
  {
    hide Enabled, Apply, Careful;
    if run == [] {
      assert run + [e] == [e];
    } else {
      CarefulAppend(Apply(s, run[0]), run[1..], e);
      assert (run + [e])[1..] == run[1..] + [e];
    }
  }

  lemma EmptyRun(s: State)
    ensures Valid(s, []) && CarefulRun(s, []) && After(s, []) == s
  {
  }

  /** One attempt with the fresh directory it made in `s`. */
  function Scene(s: State, now: nat, dir: Dir, procs: map<Pid, Proc>): State {
    State(now, s.nextOp + 1, s.dirs[Name(ActiveForm, s.nextOp) := dir], procs, [])
  }

  function FreshDir(s: State, request: Request, lease: Option<nat>): Dir {
    Dir(s.nextOp, lease, Some(Meta(request.identity, request.files, None)))
  }

  lemma MakesDirectory(s: State, p: Pid, request: Request) returns (run: seq<Event>)
    requires Start(s)
    ensures Valid(s, run) && CarefulRun(s, run)
    ensures After(s, run) == Scene(s, s.now, Dir(s.nextOp, None, None), map[p := Proc(request, Making(Name(ActiveForm, s.nextOp)), None)])
  {
    hide After, Valid, CarefulRun, DirsOK, AllOnTime, ProcOK;
    EmptyRun(s);
    CarefulAppend(s, [], Event(p, Begin(request)));
    run := [] + [Event(p, Begin(request))];
    CarefulAppend(s, run, Event(p, MakeDir(ActiveForm)));
    run := run + [Event(p, MakeDir(ActiveForm))];
  }

  lemma StartsFresh(s: State, p: Pid, request: Request) returns (run: seq<Event>)
    requires Start(s)
    ensures Valid(s, run) && CarefulRun(s, run)
    ensures After(s, run) == Scene(s, s.now, FreshDir(s, request, Some(s.now + LEASE_SECONDS)),
                                   map[p := Proc(request, Working(Name(ActiveForm, s.nextOp), None), None)])
  {
    hide After, Valid, CarefulRun, DirsOK, AllOnTime, ProcOK;
    run := MakesDirectory(s, p, request);
    CarefulAppend(s, run, Event(p, StampFirst));
    run := run + [Event(p, StampFirst)];
    CarefulAppend(s, run, Event(p, InstallFirst));
    run := run + [Event(p, InstallFirst)];
    CarefulAppend(s, run, Event(p, WriteMeta));
    run := run + [Event(p, WriteMeta)];
  }

  /** From any start: an attempt works in a fresh directory and recovery has read its lease. */
  lemma LeaseIsRead(s: State, p: Pid, r: Pid, request: Request) returns (run: seq<Event>)
    requires Start(s) && p != r
    ensures Valid(s, run) && CarefulRun(s, run)
    ensures var n := Name(ActiveForm, s.nextOp);
            After(s, run) == Scene(s, s.now, FreshDir(s, request, Some(s.now + LEASE_SECONDS)),
                                   map[p := Proc(request, Working(n, None), None),
                                       r := Recoverer(LeaseRead(n, s.now + LEASE_SECONDS))])
  {
    hide After, Valid, CarefulRun, DirsOK, AllOnTime, ProcOK;
    run := StartsFresh(s, p, request);
    CarefulAppend(s, run, Event(r, Examine(Name(ActiveForm, s.nextOp))));
    run := run + [Event(r, Examine(Name(ActiveForm, s.nextOp)))];
  }

  lemma TimePasses(s: State, p: Pid, r: Pid, request: Request) returns (run: seq<Event>)
    requires Start(s) && p != r
    ensures Valid(s, run) && CarefulRun(s, run)
    ensures var n := Name(ActiveForm, s.nextOp);
            After(s, run) == Scene(s, s.now + 60, FreshDir(s, request, Some(s.now + LEASE_SECONDS)),
                                   map[p := Proc(request, Working(n, None), None),
                                       r := Recoverer(LeaseRead(n, s.now + LEASE_SECONDS))])
  {
    hide After, Valid, CarefulRun, DirsOK, ProcOK;
    run := LeaseIsRead(s, p, r, request);
    CarefulAppend(s, run, Event(r, Tick(s.now + 60)));
    run := run + [Event(r, Tick(s.now + 60))];
  }

  lemma LeaseIsRenewed(s: State, p: Pid, r: Pid, request: Request) returns (run: seq<Event>)
    requires Start(s) && p != r
    ensures Valid(s, run) && CarefulRun(s, run)
    ensures var n := Name(ActiveForm, s.nextOp);
            After(s, run) == Scene(s, s.now + 60, FreshDir(s, request, Some(s.now + 60 + LEASE_SECONDS)),
                                   map[p := Proc(request, Working(n, None), None),
                                       r := Recoverer(LeaseRead(n, s.now + LEASE_SECONDS))])
  {
    hide After, Valid, CarefulRun, DirsOK, AllOnTime, ProcOK;
    run := TimePasses(s, p, r, request);
    CarefulAppend(s, run, Event(p, BeatStamp));
    run := run + [Event(p, BeatStamp)];
    CarefulAppend(s, run, Event(p, BeatInstall));
    run := run + [Event(p, BeatInstall)];
  }

  /** From any start: recovery reads a lease, the owner renews it in time, and the clock reaches
      the expiry recovery had read. */
  lemma RenewedBetweenReads(s: State, p: Pid, r: Pid, request: Request) returns (run: seq<Event>)
    requires Start(s) && p != r
    ensures OwnedUnder(s, run, r, p, Later)
    ensures var n := Name(ActiveForm, s.nextOp);
            After(s, run) == Scene(s, s.now + LEASE_SECONDS, FreshDir(s, request, Some(s.now + 60 + LEASE_SECONDS)),
                                   map[p := Proc(request, Working(n, None), None),
                                       r := Recoverer(LeaseRead(n, s.now + LEASE_SECONDS))])
  {
    hide After, Valid, CarefulRun, DirsOK, ProcOK;
    run := LeaseIsRenewed(s, p, r, request);
    CarefulAppend(s, run, Event(r, Tick(s.now + LEASE_SECONDS)));
    run := run + [Event(r, Tick(s.now + LEASE_SECONDS))];
  }

  lemma LeaseIsDropped(s: State, p: Pid, r: Pid, request: Request) returns (run: seq<Event>)
    requires Start(s) && p != r
    ensures Valid(s, run) && CarefulRun(s, run)
    ensures var n := Name(ActiveForm, s.nextOp);
            After(s, run) == Scene(s, s.now, FreshDir(s, request, None),
                                   map[p := Proc(request, Publishing(n), None),
                                       r := Recoverer(LeaseRead(n, s.now + LEASE_SECONDS))])
  {
    hide After, Valid, CarefulRun, DirsOK, AllOnTime, ProcOK;
    run := LeaseIsRead(s, p, r, request);
    CarefulAppend(s, run, Event(p, DropLease));
    run := run + [Event(p, DropLease)];
  }

  /** From any start: recovery reads a lease, the owner drops it to publish, and the clock reaches
      the expiry recovery had read. */
  lemma DroppedBetweenReads(s: State, p: Pid, r: Pid, request: Request) returns (run: seq<Event>)
    requires Start(s) && p != r
    ensures OwnedUnder(s, run, r, p, Missing)
    ensures var n := Name(ActiveForm, s.nextOp);
            After(s, run) == Scene(s, s.now + LEASE_SECONDS, FreshDir(s, request, None),
                                   map[p := Proc(request, Publishing(n), None),
                                       r := Recoverer(LeaseRead(n, s.now + LEASE_SECONDS))])
  {
    hide After, Valid, CarefulRun, DirsOK, ProcOK;
    run := LeaseIsDropped(s, p, r, request);
    CarefulAppend(s, run, Event(r, Tick(s.now + LEASE_SECONDS)));
    run := run + [Event(r, Tick(s.now + LEASE_SECONDS))];
  }

  /** The scene with an attempt in `phase` and a recovery that read the first lease. */
  function Raced(s: State, now: nat, lease: Option<nat>, p: Pid, r: Pid, request: Request, phase: Phase): State {
    Scene(s, now, FreshDir(s, request, lease),
          map[p := Proc(request, phase, None), r := Recoverer(LeaseRead(Name(ActiveForm, s.nextOp), s.now + LEASE_SECONDS))])
  }

  lemma RacedIsTaken(s: State, was: seq<Event>, lease: Option<nat>, p: Pid, r: Pid, request: Request, phase: Phase)
    returns (run: seq<Event>)
    requires Start(s) && p != r && Valid(s, was)
    requires After(s, was) == Raced(s, s.now + LEASE_SECONDS, lease, p, r, request, phase)
    requires Held(phase) == Some(Name(ActiveForm, s.nextOp))
    ensures Valid(s, run)
    ensures var u := After(s, run);
            p in u.procs && u.procs[p].phase == phase && Name(ActiveForm, s.nextOp) !in u.dirs
  {
    StartIsUndisturbed(s);
    hide Inv, Start, Valid, After, Apply, Enabled;
    RunKeepsInv(s, was);
    var rest := OwnedIsTaken(After(s, was), r, p);
    RunsCompose(s, was, rest);
    run := was + rest;
  }

  /** The live owner's directory is deleted in both races, from any start. */
  lemma LiveOwnerLosesDirectory(s: State, p: Pid, r: Pid, request: Request, renews: bool) returns (run: seq<Event>)
    requires Start(s) && p != r
    ensures Valid(s, run)
    ensures var n := Name(ActiveForm, s.nextOp);
            var t := After(s, run);
            p in t.procs && t.procs[p].phase == (if renews then Working(n, None) else Publishing(n)) && n !in t.dirs
  {
    hide Inv, Start, Valid, After, CarefulRun, Apply, Enabled;
    var n := Name(ActiveForm, s.nextOp);
    if renews {
      run := RenewedBetweenReads(s, p, r, request);
      run := RacedIsTaken(s, run, Some(s.now + 60 + LEASE_SECONDS), p, r, request, Working(n, None));
    } else {
      run := DroppedBetweenReads(s, p, r, request);
      run := RacedIsTaken(s, run, None, p, r, request, Publishing(n));
    }
  }

  /** The scene once recovery has judged the directory and the owner has recorded `commit`. */
  function Committed(s: State, lease: Option<nat>, p: Pid, r: Pid, request: Request, commit: string): State {
    var n := Name(ActiveForm, s.nextOp);
    Scene(s, s.now + LEASE_SECONDS, Dir(s.nextOp, lease, Some(Meta(request.identity, request.files, Some(commit)))),
          map[p := Proc(request, Working(n, None), None),
              r := Recoverer(Judged(n, Some(Meta(request.identity, request.files, None))))])
  }

  lemma RacedRecords(s: State, was: seq<Event>, lease: Option<nat>, p: Pid, r: Pid, request: Request, commit: string)
    returns (run: seq<Event>)
    requires Start(s) && p != r && Valid(s, was)
    requires After(s, was) == Raced(s, s.now + LEASE_SECONDS, lease, p, r, request, Working(Name(ActiveForm, s.nextOp), None))
    ensures Valid(s, run) && After(s, run) == Committed(s, lease, p, r, request, commit)
  {
    StartIsUndisturbed(s);
    hide Inv, Start, Valid, After, Apply, Enabled;
    RunKeepsInv(s, was);
    var rest := Judges(After(s, was), r, p);
    RunsCompose(s, was, rest);
    run := was + rest;
    Records(s, After(s, run), lease, p, r, request, commit);
    Append(s, run, Event(p, Record(commit)));
    run := run + [Event(p, Record(commit))];
  }

  lemma Records(s: State, u: State, lease: Option<nat>, p: Pid, r: Pid, request: Request, commit: string)
    requires p != r
    requires var n := Name(ActiveForm, s.nextOp);
             u == Scene(s, s.now + LEASE_SECONDS, FreshDir(s, request, lease),
                        map[p := Proc(request, Working(n, None), None),
                            r := Recoverer(Judged(n, Some(Meta(request.identity, request.files, None))))])
    ensures Enabled(u, Event(p, Record(commit)))
    ensures Apply(u, Event(p, Record(commit))) == Committed(s, lease, p, r, request, commit)
  {
  }

  lemma CommittedIsDeleted(s: State, lease: Option<nat>, p: Pid, r: Pid, request: Request, commit: string)
    requires Start(s) && p != r
    ensures var u := Committed(s, lease, p, r, request, commit);
            Enabled(u, Event(r, Reclaim)) && Apply(u, Event(r, Reclaim)).dirs == s.dirs
  {
    FreshNameIsUnused(s);
    hide Start, RecordAccepted;
  }

  /** A commit recorded after recovery read the metadata is deleted with its directory. */
  lemma RecordedCommitIsDeleted(s: State, p: Pid, r: Pid, request: Request, commit: string) returns (run: seq<Event>)
    requires Start(s) && p != r
    ensures Valid(s, run)
    ensures var n := Name(ActiveForm, s.nextOp);
            var t := After(s, run);
            && n in t.dirs && Adoptable(n.form, t.dirs[n].meta) && t.dirs[n].meta.value.commit == Some(commit)
            && Holds(t, p, n) && Enabled(t, Event(r, Reclaim)) && Apply(t, Event(r, Reclaim)).dirs == s.dirs
  {
    hide Inv, Start, Valid, After, CarefulRun, Apply, Enabled;
    run := RenewedBetweenReads(s, p, r, request);
    run := RacedRecords(s, run, Some(s.now + 60 + LEASE_SECONDS), p, r, request, commit);
    CommittedIsDeleted(s, Some(s.now + 60 + LEASE_SECONDS), p, r, request, commit);
  }

  lemma FreshNameIsUnused(s: State)
    requires Start(s)
    ensures Name(ActiveForm, s.nextOp) !in s.dirs
  {
  }

  /** A second look at the lease rules an owner out exactly when it finds the name gone or an
      expiry the clock has reached. */
  lemma SecondLookRulesOutOwnersIff(v: LeaseView)
    ensures (forall s, run, r, p :: !OwnedUnder(s, run, r, p, v)) <==> v.Gone? || v.Reached?
  {
    var start := State(0, 0, map[], map[], []);
    var request := Request(Identity(0, "", ""), []);
    match v
    case Later =>
      var run := RenewedBetweenReads(start, 0, 1, request);
      assert OwnedUnder(start, run, 1, 0, v);
    case Missing =>
      var run := DroppedBetweenReads(start, 0, 1, request);
      assert OwnedUnder(start, run, 1, 0, v);
    case _ =>
      forall s, run, r, p ensures !OwnedUnder(s, run, r, p, v) {
        if OwnedUnder(s, run, r, p, v) { NoOwnerUnder(s, run, r, p, v); }
      }
  }

  lemma NoOwnerUnder(s: State, run: seq<Event>, r: Pid, p: Pid, v: LeaseView)
    requires OwnedUnder(s, run, r, p, v)
    ensures v.Missing? || v.Later?
  {
    StartIsUndisturbed(s);
    CarefulRunKeepsUndisturbed(s, run);
    if v.Reached? { ExpiredMeansNoOwner(s, run, After(s, run).procs[r].phase.path, p); }
  }
}
