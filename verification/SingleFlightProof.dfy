/** What the single-flight protocol guarantees in every run. */
module SingleFlightProof {
  import opened Common
  import opened Flight
  import opened SingleFlight

  // ---------------------------------------------------------------- flights

  /** How a flight may change under a waiter. */
  predicate Grows(fly: Fly, fly': Fly) {
    && fly.events <= fly'.events
    && (fly.shared.completion != Running ==> fly'.shared.completion == fly.shared.completion && fly'.events == fly.events)
  }

  /** A change nobody has been notified of is still owed. */
  predicate Owes(fly: Fly, fly': Fly) {
    fly'.owed == 0 ==> fly.owed == 0 && fly'.events == fly.events && fly'.shared == fly.shared
  }

  lemma PublishKeepsFly(fly: Fly, f: FlightId, event: Progress)
    requires FlyOK(fly) && fly.body.Fetching?
    ensures FlyOK(FlyAfter(fly, Publish(f, event)))
  {
    PublishKeepsConsecutive(fly.shared, event);
    var fly' := FlyAfter(fly, Publish(f, event));
    forall i | 0 <= i < |fly'.shared.progress|
      ensures fly'.shared.progress[i].1 == fly'.events[fly'.shared.progress[i].0]
    {
      var e := fly'.shared.progress[i];
      assert e in fly'.shared.progress;
      if e != (fly.shared.next, event) {
        var j :| 0 <= j < |fly.shared.progress| && fly.shared.progress[j] == e;
        assert e.0 < |fly.events|;
      }
    }
  }

  lemma FlyStep(fly: Fly, step: Step)
    requires FlyOK(fly) && IsFlightStep(step) && FlightEnabled(fly, step)
    ensures FlyOK(FlyAfter(fly, step)) && Grows(fly, FlyAfter(fly, step))
    ensures step.Notify? || Owes(fly, FlyAfter(fly, step))
  {
    if step.Publish? {
      PublishKeepsFly(fly, step.flight, step.event);
    }
  }

  lemma FlightsStep(s: State, step: Step)
    requires FlightsOK(s) && Enabled(s, step)
    ensures FlightsOK(Apply(s, step)) && |s.flights| <= |Apply(s, step).flights|
    ensures forall f :: 0 <= f < |s.flights| ==> Grows(s.flights[f], Apply(s, step).flights[f])
  {
    if IsFlightStep(step) {
      FlyStep(s.flights[step.flight], step);
    }
  }

  // ---------------------------------------------------------------- the registry

  /** A flight leaves the registry under the lock. */
  lemma RetireKeepsRegistry(s: State, step: Step)
    requires RegistryOK(s) && step.Retire? && Enabled(s, step)
    ensures RegistryOK(ApplyFlight(s, step))
  {
    hide Woken;
    forall g | 0 <= g < |s.flights| && g != step.flight && Registered(s.flights[g].body)
      ensures s.flights[g].key != s.flights[step.flight].key
    {
      assert s.registry[s.flights[g].key] == g;
    }
  }

  /** Every other step of a flight changes nothing the registry depends on. */
  lemma FlightStepKeepsRegistry(s: State, step: Step)
    requires RegistryOK(s) && IsFlightStep(step) && Enabled(s, step)
    ensures RegistryOK(ApplyFlight(s, step))
  {
    if step.Retire? {
      RetireKeepsRegistry(s, step);
    } else {
      hide Woken;
      var s' := ApplyFlight(s, step);
      var f := step.flight;
      assert s'.registry == s.registry && |s'.flights| == |s.flights|;
      assert s'.flights[f].key == s.flights[f].key && Registered(s'.flights[f].body) == Registered(s.flights[f].body);
      assert forall g :: 0 <= g < |s.flights| && g != f ==> s'.flights[g] == s.flights[g];
    }
  }

  lemma JoinKeepsRegistry(s: State, w: WaiterId, key: Key, deadline: bool)
    requires RegistryOK(s) && s.holder == None
    ensures RegistryOK(ApplyJoin(s, w, key, deadline))
  {
  }

  lemma RegistryStep(s: State, step: Step)
    requires RegistryOK(s) && FlightsOK(s) && Enabled(s, step)
    ensures RegistryOK(Apply(s, step))
  {
    if step.Join? {
      JoinKeepsRegistry(s, step.waiter, step.key, step.deadline);
    } else if IsFlightStep(step) {
      FlightStepKeepsRegistry(s, step);
    }
  }

  // ---------------------------------------------------------------- looking

  /** What an earlier account explains stays explained. */
  lemma OldAccountStays(w: Waiter, more: seq<(nat, Progress)>, look: (nat, nat), n: nat)
    requires Seen(w.seen, n) || Outrun(w.looks, n)
    ensures Seen(w.seen + more, n) || Outrun(w.looks + [look], n)
  {
    if Seen(w.seen, n) {
      var i :| 0 <= i < |w.seen| && w.seen[i].0 == n;
      assert (w.seen + more)[i].0 == n;
    } else {
      var i :| 0 <= i < |w.looks| && w.looks[i].0 <= n && n + PROGRESS_HISTORY < w.looks[i].1;
      assert (w.looks + [look])[i] == w.looks[i];
    }
  }

  /** An event between the cursor and `next` is handed over now or has been outrun. */
  lemma NewEventsAccounted(w: Waiter, f: FlightState<Outcome, Progress>, n: nat)
    requires Consecutive(f) && w.cursor <= n < f.next
    ensures Seen(w.seen + f.progress[Resume(f, w.cursor)..], n) || Outrun(w.looks + [(w.cursor, f.next)], n)
  {
    var oldest := f.next - |f.progress|;
    if n < oldest {
      assert (w.looks + [(w.cursor, f.next)])[|w.looks|] == (w.cursor, f.next);
    } else {
      var from := Resume(f, w.cursor);
      assert f.progress[n - oldest].0 == n;
      assert (w.seen + f.progress[from..])[|w.seen| + (n - oldest - from)] == f.progress[n - oldest];
    }
  }

  lemma HandedOverInOrder(w: Waiter, fly: Fly)
    requires FlyOK(fly) && AccountedFor(w, w.seen, fly.events)
    ensures var given := w.seen + fly.shared.progress[Resume(fly.shared, w.cursor)..];
            && (forall i :: 0 <= i < |given| ==> w.start <= given[i].0 < fly.shared.next && given[i].1 == fly.events[given[i].0])
            && (forall i, j :: 0 <= i < j < |given| ==> given[i].0 < given[j].0)
  {
  }

  lemma LookAccounts(w: Waiter, fly: Fly, passed: bool)
    requires FlyOK(fly) && w.pending == [] && AccountedFor(w, w.seen, fly.events)
    ensures var w' := Looked(w, fly.shared, passed);
            AccountedFor(w', w'.seen + w'.pending, fly.events) && w'.cursor == fly.shared.next
  {
    hide Seen, Outrun;
    var f := fly.shared;
    var w' := Looked(w, f, passed);
    var more := f.progress[Resume(f, w.cursor)..];
    assert w'.pending == more;
    HandedOverInOrder(w, fly);
    forall n | w'.start <= n < w'.cursor
      ensures Seen(w'.seen + w'.pending, n) || Outrun(w'.looks, n)
    {
      if n < w.cursor {
        OldAccountStays(w, more, (w.cursor, f.next), n);
      } else {
        NewEventsAccounted(w, f, n);
      }
    }
  }

  // ---------------------------------------------------------------- waiters

  predicate StandsWith(w: Waiter, fly: Fly) {
    && (w.mode != Arriving ==> AccountedFor(w, w.seen + w.pending, fly.events))
    && ModeOK(w, fly)
    && (w.expired ==> w.deadline)
  }

  lemma ArriveStands(w: Waiter, fly: Fly, id: WaiterId)
    requires FlyOK(fly) && StandsWith(w, fly) && w.mode == Arriving
    ensures StandsWith(WaiterAfter(w, fly, Arrive(id)), fly)
  {
  }

  lemma LookStands(w: Waiter, fly: Fly, id: WaiterId, passed: bool)
    requires FlyOK(fly) && StandsWith(w, fly) && w.mode == Looking
    ensures StandsWith(WaiterAfter(w, fly, Look(id, passed)), fly)
  {
    hide Seen, Outrun, FlyOK, AccountedFor;
    assert w.seen + w.pending == w.seen;
    LookAccounts(w, fly, passed);
  }

  lemma RelayStands(w: Waiter, fly: Fly, id: WaiterId)
    requires FlyOK(fly) && StandsWith(w, fly) && w.mode == Relaying
    ensures StandsWith(WaiterAfter(w, fly, Relay(id)), fly)
  {
    if w.pending != [] {
      assert w.seen + w.pending == (w.seen + [w.pending[0]]) + w.pending[1..];
    }
  }

  lemma WakeStands(w: Waiter, fly: Fly, id: WaiterId, timedOut: bool)
    requires FlyOK(fly) && StandsWith(w, fly) && w.mode == Sleeping && (timedOut ==> w.deadline)
    ensures StandsWith(WaiterAfter(w, fly, Wake(id, timedOut)), fly)
  {
  }

  lemma WaiterStands(w: Waiter, fly: Fly, step: Step)
    requires FlyOK(fly) && StandsWith(w, fly) && IsWaiterStep(step)
    requires step.Arrive? ==> w.mode == Arriving
    requires step.Look? ==> w.mode == Looking
    requires step.Wake? ==> w.mode == Sleeping && (step.timedOut ==> w.deadline)
    requires step.Relay? ==> w.mode == Relaying
    ensures StandsWith(WaiterAfter(w, fly, step), fly)
  {
    if step.Arrive? { ArriveStands(w, fly, step.waiter); }
    else if step.Look? { LookStands(w, fly, step.waiter, step.passed); }
    else if step.Wake? { WakeStands(w, fly, step.waiter, step.timedOut); }
    else { RelayStands(w, fly, step.waiter); }
  }

  lemma WaiterStep(s: State, step: Step)
    requires FlightsOK(s) && WaitersOK(s) && Enabled(s, step) && IsWaiterStep(step)
    ensures WaiterOK(Apply(s, step), Apply(s, step).waiters[step.waiter])
  {
    var w := s.waiters[step.waiter];
    assert WaiterOK(s, w);
    WaiterStands(w, s.flights[w.flight], step);
  }

  lemma WaiterSurvives(w: Waiter, fly: Fly, fly': Fly)
    requires FlyOK(fly) && FlyOK(fly') && Grows(fly, fly') && StandsWith(w, fly)
    requires w.woken || Owes(fly, fly')
    ensures StandsWith(w, fly')
  {
  }

  lemma FlightStepKeepsWaiters(s: State, step: Step)
    requires Inv(s) && Enabled(s, step) && IsFlightStep(step)
    ensures WaitersOK(ApplyFlight(s, step))
  {
    var s' := ApplyFlight(s, step);
    var f := step.flight;
    FlyStep(s.flights[f], step);
    forall w | w in s'.waiters
      ensures WaiterOK(s', s'.waiters[w])
    {
      var waiter := s.waiters[w];
      assert WaiterOK(s, waiter);
      if waiter.flight == f {
        if step.Notify? {
          assert StandsWith(waiter.(woken := true), s.flights[f]);
          WaiterSurvives(waiter.(woken := true), s.flights[f], s'.flights[f]);
        } else {
          WaiterSurvives(waiter, s.flights[f], s'.flights[f]);
        }
      }
    }
  }

  lemma StepKeepsInv(s: State, step: Step)
    requires Inv(s) && Enabled(s, step)
    ensures Inv(Apply(s, step))
  {
    FlightsStep(s, step);
    RegistryStep(s, step);
    var s' := Apply(s, step);
    if step.Join? {
      forall w | w in s'.waiters ensures WaiterOK(s', s'.waiters[w]) {
        if w in s.waiters { assert WaiterOK(s, s.waiters[w]); }
      }
    } else if IsFlightStep(step) {
      FlightStepKeepsWaiters(s, step);
    } else {
      WaiterStep(s, step);
      forall w | w in s'.waiters && w != step.waiter ensures WaiterOK(s', s'.waiters[w]) {
        assert WaiterOK(s, s.waiters[w]);
      }
    }
  }

  // ---------------------------------------------------------------- runs

  predicate Valid(s: State, run: seq<Step>)
    requires FlightsOK(s)
    decreases |run|
  {
    run == [] || (Enabled(s, run[0]) && (FlightsStep(s, run[0]); Valid(Apply(s, run[0]), run[1..])))
  }

  function After(s: State, run: seq<Step>): (t: State)
    requires FlightsOK(s) && Valid(s, run)
    ensures FlightsOK(t)
    decreases |run|
  {
    if run == [] then s else (FlightsStep(s, run[0]); After(Apply(s, run[0]), run[1..]))
  }

  const EMPTY := State(map[], None, [], map[])

  lemma {:induction false} RunKeepsInv(s: State, run: seq<Step>)
    requires Inv(s) && Valid(s, run)
    ensures Inv(After(s, run))
    decreases |run|
  {
    if run != [] {
      StepKeepsInv(s, run[0]);
      RunKeepsInv(Apply(s, run[0]), run[1..]);
    }
  }

  /** In every run, fetch bodies for one key never overlap. */
  lemma FetchesNeverOverlap(run: seq<Step>, f: FlightId, g: FlightId)
    requires Valid(EMPTY, run)
    requires f < |After(EMPTY, run).flights| && g < |After(EMPTY, run).flights|
    ensures var t := After(EMPTY, run);
            t.flights[f].body.Fetching? && t.flights[g].body.Fetching? && t.flights[f].key == t.flights[g].key ==> f == g
  {
    RunKeepsInv(EMPTY, run);
  }

  /** In every run, nobody joins a finished flight: whoever joins shares a flight whose result is
      not out yet, or starts a fresh one. */
  lemma NobodyJoinsAFinishedFlight(run: seq<Step>, w: WaiterId, key: Key, deadline: bool)
    requires Valid(EMPTY, run) && Enabled(After(EMPTY, run), Join(w, key, deadline))
    ensures var t := After(EMPTY, run);
            var t' := ApplyJoin(t, w, key, deadline);
            var f := t'.waiters[w].flight;
            && f < |t'.flights| && t'.flights[f].key == key && t'.waiters[w].deadline == deadline
            && t'.flights[f].shared.completion == Running
            && (f == |t.flights| <==> forall g :: 0 <= g < |t.flights| && t.flights[g].key == key ==> t.flights[g].body.Gone?)
  {
    RunKeepsInv(EMPTY, run);
    var t := After(EMPTY, run);
    forall g | 0 <= g < |t.flights| && t.flights[g].key == key && key !in t.registry
      ensures t.flights[g].body.Gone?
    {
      assert !Registered(t.flights[g].body) && !InLock(t.flights[g].body);
    }
  }

  /** In every run, a waiter is given events in strictly increasing order, as they were published,
      and misses one published since it began only if at least 64 newer ones had been published
      before it looked. */
  lemma ProgressIsOrderedAndBounded(run: seq<Step>, w: WaiterId)
    requires Valid(EMPTY, run) && w in After(EMPTY, run).waiters
    ensures var t := After(EMPTY, run);
            var waiter := t.waiters[w];
            && waiter.flight < |t.flights|
            && (forall i, j :: 0 <= i < j < |waiter.seen| ==> waiter.seen[i].0 < waiter.seen[j].0)
            && (forall i :: 0 <= i < |waiter.seen| ==>
                  waiter.seen[i].0 < |t.flights[waiter.flight].events|
                  && waiter.seen[i].1 == t.flights[waiter.flight].events[waiter.seen[i].0])
            && (waiter.mode.Left? ==>
                  forall n :: waiter.start <= n < waiter.cursor ==> Seen(waiter.seen, n) || Outrun(waiter.looks, n))
  {
    RunKeepsInv(EMPTY, run);
    var t := After(EMPTY, run);
    var waiter := t.waiters[w];
    assert WaiterOK(t, waiter);
    if waiter.mode != Arriving {
      var given := waiter.seen + waiter.pending;
      assert forall i :: 0 <= i < |waiter.seen| ==> given[i] == waiter.seen[i];
      assert waiter.mode.Left? ==> given == waiter.seen;
    }
  }

  /** In every run, a waiter told that its flight ended was given the flight's own outcome, after
      the last event the flight ever published. */
  lemma EndedWaitersSawTheLastEvent(run: seq<Step>, w: WaiterId)
    requires Valid(EMPTY, run) && w in After(EMPTY, run).waiters
    requires After(EMPTY, run).waiters[w].mode.Left? && !After(EMPTY, run).waiters[w].mode.joined.Pending?
    ensures var t := After(EMPTY, run);
            var waiter := t.waiters[w];
            && waiter.flight < |t.flights|
            && var fly := t.flights[waiter.flight];
            && Some(waiter.mode.joined) == Ending(fly.shared.completion)
            && (fly.body.Settled? || fly.body.Gone?)
            && (fly.events != [] ==> Seen(waiter.seen, |fly.events| - 1))
  {
    RunKeepsInv(EMPTY, run);
    var t := After(EMPTY, run);
    var waiter := t.waiters[w];
    assert WaiterOK(t, waiter);
    assert waiter.seen + waiter.pending == waiter.seen;
    var fly := t.flights[waiter.flight];
    assert FlyOK(fly);
  }

  /** A waiter leaves with `Pending` only in a look that found its flight still running and nothing
      new, and only if it has a deadline. */
  lemma PendingMeansStillRunning(run: seq<Step>, w: WaiterId, step: Step)
    requires Valid(EMPTY, run) && Enabled(After(EMPTY, run), step)
    requires w in After(EMPTY, run).waiters && After(EMPTY, run).waiters[w].mode != Left(Pending)
    requires w in Apply(After(EMPTY, run), step).waiters && Apply(After(EMPTY, run), step).waiters[w].mode == Left(Pending)
    ensures var t := After(EMPTY, run);
            var waiter := t.waiters[w];
            && step.Look? && step.waiter == w && waiter.deadline && (waiter.expired || step.passed)
            && waiter.flight < |t.flights| && t.flights[waiter.flight].shared.completion == Running
            && waiter.cursor == |t.flights[waiter.flight].events|
  {
    hide Apply, Enabled, WaiterOK;
    RunKeepsInv(EMPTY, run);
    var t := After(EMPTY, run);
    assert WaiterOK(t, t.waiters[w]);
    PendingStep(t, w, step);
  }

  lemma PendingStep(t: State, w: WaiterId, step: Step)
    requires FlightsOK(t) && Enabled(t, step) && w in t.waiters && WaiterOK(t, t.waiters[w]) && t.waiters[w].mode != Left(Pending)
    requires w in Apply(t, step).waiters && Apply(t, step).waiters[w].mode == Left(Pending)
    ensures var waiter := t.waiters[w];
            && step.Look? && step.waiter == w && waiter.deadline && (waiter.expired || step.passed)
            && waiter.flight < |t.flights| && t.flights[waiter.flight].shared.completion == Running
            && waiter.cursor == |t.flights[waiter.flight].events|
  {
  }

  /** A waiter's cursor has passed everything exactly when there is nothing to hand over. */
  lemma NothingNew(f: FlightState<Outcome, Progress>, cursor: nat)
    requires Consecutive(f)
    ensures f.progress[Resume(f, cursor)..] == [] <==> cursor >= f.next
  {
  }

  /** In every run, what a look decides: a waiter is handed what is new or told that its flight has ended if
      there is either; otherwise it leaves with `Pending` exactly if its deadline has passed, and sleeps if
      not. */
  lemma LookDecides(run: seq<Step>, w: WaiterId, passed: bool)
    requires Valid(EMPTY, run) && Enabled(After(EMPTY, run), Look(w, passed))
    ensures var t := After(EMPTY, run);
            var (waiter, mode) := (t.waiters[w], Apply(t, Look(w, passed)).waiters[w].mode);
            waiter.flight < |t.flights| &&
            var fly := t.flights[waiter.flight];
            var idle := fly.shared.completion == Running && waiter.cursor == |fly.events|;
            && (mode == Relaying <==> !idle)
            && (mode == Left(Pending) <==> idle && waiter.deadline && (waiter.expired || passed))
            && (mode == Sleeping <==> idle && !(waiter.deadline && (waiter.expired || passed)))
            && (mode == Relaying ==> Apply(t, Look(w, passed)).waiters[w].ending == Ending(fly.shared.completion))
  {
    RunKeepsInv(EMPTY, run);
    var t := After(EMPTY, run);
    var waiter := t.waiters[w];
    assert WaiterOK(t, waiter) && FlyOK(t.flights[waiter.flight]);
    NothingNew(t.flights[waiter.flight].shared, waiter.cursor);
  }

  lemma ArriveDecides(t: State, w: WaiterId)
    requires FlightsOK(t) && Enabled(t, Arrive(w))
    ensures var (waiter, next) := (t.waiters[w], Apply(t, Arrive(w)).waiters[w]);
            && waiter.flight < |t.flights| && next.mode == Looking && next.cursor == next.start
            && next.start == if t.flights[waiter.flight].events == [] then 0 else |t.flights[waiter.flight].events| - 1
  {
    assert FlyOK(t.flights[t.waiters[w].flight]);
  }

  lemma WakeDecides(t: State, w: WaiterId, timedOut: bool)
    requires FlightsOK(t) && Enabled(t, Wake(w, timedOut)) && WaiterOK(t, t.waiters[w])
    ensures var (waiter, next) := (t.waiters[w], Apply(t, Wake(w, timedOut)).waiters[w]);
            next.mode == Looking && next.cursor == waiter.cursor && (next.expired <==> waiter.deadline && timedOut)
  {
    hide FlyOK, AccountedFor;
  }

  lemma RelayOne(t: State, w: WaiterId)
    requires FlightsOK(t) && Enabled(t, Relay(w))
    ensures var (waiter, next) := (t.waiters[w], Apply(t, Relay(w)).waiters[w]);
            if waiter.pending != [] then next.mode == Relaying && next.seen == waiter.seen + [waiter.pending[0]]
            else next.mode == (if waiter.ending.Some? then Left(waiter.ending.value) else Looking)
  {
    hide FlyOK;
  }

  /** In every run, a waiter begins one event behind; woken, it looks again, and knows whether it was its
      deadline that woke it; and it is given what it collected one by one, and then leaves with the ending it
      read, or looks again if it read none. */
  lemma RelayDecides(run: seq<Step>, w: WaiterId, timedOut: bool)
    requires Valid(EMPTY, run) && w in After(EMPTY, run).waiters
    ensures var t := After(EMPTY, run);
            var waiter := t.waiters[w];
            && waiter.flight < |t.flights|
            && (Enabled(t, Arrive(w)) ==>
                  var next := Apply(t, Arrive(w)).waiters[w];
                  next.mode == Looking && next.cursor == next.start
                  && next.start == if t.flights[waiter.flight].events == [] then 0 else |t.flights[waiter.flight].events| - 1)
            && (Enabled(t, Wake(w, timedOut)) ==>
                  var next := Apply(t, Wake(w, timedOut)).waiters[w];
                  next.mode == Looking && next.cursor == waiter.cursor && (next.expired <==> waiter.deadline && timedOut))
            && (Enabled(t, Relay(w)) ==>
                  var next := Apply(t, Relay(w)).waiters[w];
                  if waiter.pending != [] then next.mode == Relaying && next.seen == waiter.seen + [waiter.pending[0]]
                  else next.mode == (if waiter.ending.Some? then Left(waiter.ending.value) else Looking))
  {
    RunKeepsInv(EMPTY, run);
    var t := After(EMPTY, run);
    assert WaiterOK(t, t.waiters[w]);
    assert forall step :: IsWaiterStep(step) && step.waiter == w && Enabled(t, step) ==> w in Apply(t, step).waiters;
    hide Enabled, Apply, FlyOK, AccountedFor, ModeOK, RegistryOK;
    if Enabled(t, Arrive(w)) { ArriveDecides(t, w); }
    if Enabled(t, Wake(w, timedOut)) { WakeDecides(t, w, timedOut); }
    if Enabled(t, Relay(w)) { RelayOne(t, w); }
  }

  /** The events a run publishes on one flight, in order. */
  function EventsOf(run: seq<Step>, f: FlightId): seq<Progress> {
    if run == [] then []
    else (if run[0].Publish? && run[0].flight == f then [run[0].event] else []) + EventsOf(run[1..], f)
  }

  function EventsAt(s: State, f: FlightId): seq<Progress> {
    if f < |s.flights| then s.flights[f].events else []
  }

  lemma EventsStep(s: State, step: Step, f: FlightId)
    requires FlightsOK(s) && Enabled(s, step)
    ensures EventsAt(Apply(s, step), f) == EventsAt(s, f) + if step.Publish? && step.flight == f then [step.event] else []
  {
  }

  lemma Regroup<T>(a: seq<T>, b: seq<T>, c: seq<T>)
    ensures a + b + c == a + (b + c)
  {
  }

  /** In every run, what a flight has published is exactly what its worker has, in order: with what waiters are
      given of it, progress is relayed and never made up. */
  lemma {:induction false} EventsArePublished(s: State, run: seq<Step>, f: FlightId)
    requires FlightsOK(s) && Valid(s, run)
    ensures EventsAt(After(s, run), f) == EventsAt(s, f) + EventsOf(run, f)
    decreases |run|
  {
    hide Enabled, Apply, FlightsOK, EventsAt, FlyOK, Grows;
    if run == [] {
      assert EventsAt(s, f) + [] == EventsAt(s, f);
    } else {
      FlightsStep(s, run[0]);
      EventsStep(s, run[0], f);
      EventsArePublished(Apply(s, run[0]), run[1..], f);
      var first := if run[0].Publish? && run[0].flight == f then [run[0].event] else [];
      Regroup(EventsAt(s, f), first, EventsOf(run[1..], f));
    }
  }

  /** What the fetch of a flight has returned, if it has. */
  function Returned(body: Body): Option<Option<Outcome>> {
    if body.Fetching? then None else Some(body.outcome)
  }

  lemma ReturnedStep(s: State, step: Step, f: FlightId)
    requires FlightsOK(s) && Enabled(s, step) && f < |Apply(s, step).flights|
    ensures var now := Returned(Apply(s, step).flights[f].body);
            now == None || step == Return(f, now.value) || (f < |s.flights| && Returned(s.flights[f].body) == now)
  {
  }

  lemma {:induction false} BodyHasReturned(s: State, run: seq<Step>, f: FlightId)
    requires FlightsOK(s) && Valid(s, run) && f < |After(s, run).flights| && Returned(After(s, run).flights[f].body).Some?
    ensures var r := Returned(After(s, run).flights[f].body);
            (f < |s.flights| && Returned(s.flights[f].body) == r) || exists i :: 0 <= i < |run| && run[i] == Return(f, r.value)
    decreases |run|
  {
    hide Enabled, Apply, Returned, FlightsOK;
    if run != [] {
      FlightsStep(s, run[0]);
      var next := Apply(s, run[0]);
      BodyHasReturned(next, run[1..], f);
      var r := Returned(After(s, run).flights[f].body);
      if f < |next.flights| && Returned(next.flights[f].body) == r {
        ReturnedStep(s, run[0], f);
      } else {
        var i :| 0 <= i < |run[1..]| && run[1..][i] == Return(f, r.value);
        assert run[i + 1] == run[1..][i];
      }
    }
  }

  /** In every run, a flight ends with exactly what its fetch returned, and as abandoned exactly if its fetch
      came to no result. */
  lemma OutcomeIsReturned(run: seq<Step>, f: FlightId)
    requires Valid(EMPTY, run) && f < |After(EMPTY, run).flights|
    ensures var done := After(EMPTY, run).flights[f].shared.completion;
            && (done.Done? ==> exists i :: 0 <= i < |run| && run[i] == Return(f, Some(done.result)))
            && (done.Abandoned? ==> exists i :: 0 <= i < |run| && run[i] == Return(f, None))
  {
    RunKeepsInv(EMPTY, run);
    var fly := After(EMPTY, run).flights[f];
    assert FlyOK(fly);
    if !fly.body.Fetching? { BodyHasReturned(EMPTY, run, f); }
  }

  /** In every run, no waiter sleeps through a change: asleep with something to see, it has been
      woken or a notification is still to be sent. */
  lemma NobodySleepsThroughAChange(run: seq<Step>, w: WaiterId)
    requires Valid(EMPTY, run) && w in After(EMPTY, run).waiters && After(EMPTY, run).waiters[w].mode.Sleeping?
    ensures var t := After(EMPTY, run);
            var waiter := t.waiters[w];
            && waiter.flight < |t.flights|
            && var fly := t.flights[waiter.flight];
            && (fly.shared.completion != Running || waiter.cursor < |fly.events| ==> waiter.woken || fly.owed > 0)
  {
    RunKeepsInv(EMPTY, run);
    var t := After(EMPTY, run);
    assert WaiterOK(t, t.waiters[w]);
    assert FlyOK(t.flights[t.waiters[w].flight]);
  }
}
