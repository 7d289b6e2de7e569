/** The single-flight protocol: a registry of running flights, the worker of each flight, and any
    number of waiters with or without deadlines, interleaved lock section by lock section. */
module SingleFlight {
  import opened Common
  import opened Flight

  type Key(==, !new)
  type Outcome(==, !new)
  type Progress(==, !new)

  type FlightId = nat
  type WaiterId = nat

  /** The worker of a flight. From `Retiring` to `Settled` it holds the registry lock. */
  datatype Body =
    | Fetching
    | Ended(outcome: Option<Outcome>)      // fetch returned, or panicked when `None`
    | Retiring(outcome: Option<Outcome>)   // key removed from the registry
    | Settled(outcome: Option<Outcome>)    // completion set
    | Gone(outcome: Option<Outcome>)       // registry lock released

  /** `events` is the history of everything published; `owed` counts state changes whose
      notification has not been sent. */
  datatype Fly = Fly(key: Key, body: Body, shared: FlightState<Outcome, Progress>, events: seq<Progress>, owed: nat)

  datatype Joined = Completed(result: Outcome) | Pending | Abandoned

  datatype Mode = Arriving | Looking | Sleeping | Relaying | Left(joined: Joined)

  datatype Waiter = Waiter(
    flight: FlightId,
    deadline: bool,
    mode: Mode,
    start: nat,                        // where the cursor began
    cursor: nat,
    expired: bool,
    woken: bool,
    pending: seq<(nat, Progress)>,     // collected under the lock, not observed yet
    ending: Option<Joined>,            // completion read in the same look
    seen: seq<(nat, Progress)>,        // history: what the observer was given
    looks: seq<(nat, nat)>)            // history: cursor and `next` at each locked look

  datatype State = State(
    registry: map<Key, FlightId>,
    holder: Option<FlightId>,          // the worker inside the registry lock, if any
    flights: seq<Fly>,
    waiters: map<WaiterId, Waiter>)

  datatype Step =
    | Join(waiter: WaiterId, key: Key, deadline: bool)
    | Arrive(waiter: WaiterId)
    | Look(waiter: WaiterId, passed: bool)
    | Wake(waiter: WaiterId, timedOut: bool)
    | Relay(waiter: WaiterId)
    | Publish(flight: FlightId, event: Progress)
    | Notify(flight: FlightId)
    | Return(flight: FlightId, outcome: Option<Outcome>)
    | Retire(flight: FlightId)
    | Settle(flight: FlightId)
    | Release(flight: FlightId)

  // ---------------------------------------------------------------- steps

  predicate IsFlightStep(step: Step) {
    step.Publish? || step.Notify? || step.Return? || step.Retire? || step.Settle? || step.Release?
  }

  predicate IsWaiterStep(step: Step) {
    step.Arrive? || step.Look? || step.Wake? || step.Relay?
  }

  predicate Enabled(s: State, step: Step) {
    if step.Join? then step.waiter !in s.waiters && s.holder == None
    else if IsFlightStep(step) then
      && step.flight < |s.flights| && FlightEnabled(s.flights[step.flight], step)
      && (step.Retire? ==> s.holder == None)
    else WaiterEnabled(s, step)
  }

  predicate FlightEnabled(fly: Fly, step: Step) {
    match step
    case Publish(_, _) => fly.body.Fetching?
    case Notify(_) => fly.owed > 0
    case Return(_, _) => fly.body.Fetching?
    case Retire(_) => fly.body.Ended?
    case Settle(_) => fly.body.Retiring?
    case Release(_) => fly.body.Settled?
    case _ => false
  }

  predicate WaiterEnabled(s: State, step: Step) {
    match step
    case Arrive(w) => InMode(s, w, Arriving)
    case Look(w, _) => InMode(s, w, Looking)
    case Wake(w, timedOut) => InMode(s, w, Sleeping) && (timedOut ==> s.waiters[w].deadline)
    case Relay(w) => InMode(s, w, Relaying)
    case _ => false
  }

  predicate InMode(s: State, w: WaiterId, mode: Mode) {
    w in s.waiters && s.waiters[w].mode == mode && s.waiters[w].flight < |s.flights|
  }

  function NewFly(key: Key): Fly {
    Fly(key, Fetching, FlightState(Running, [], 0), [], 0)
  }

  function NewWaiter(flight: FlightId, deadline: bool): Waiter {
    Waiter(flight, deadline, Arriving, 0, 0, false, false, [], None, [], [])
  }

  function Ending(completion: Completion<Outcome>): Option<Joined> {
    match completion
    case Running => None
    case Done(result) => Some(Completed(result))
    case Abandoned => Some(Joined.Abandoned)
  }

  /** One locked pass: collect what the cursor has not passed, read the completion, and with
      nothing to hand on either leave or sleep. `passed` says the deadline has gone by. */
  function Looked(w: Waiter, f: FlightState<Outcome, Progress>, passed: bool): Waiter
    requires Consecutive(f)
  {
    var pending := f.progress[Resume(f, w.cursor)..];
    var ending := Ending(f.completion);
    var w' := w.(cursor := if w.cursor < f.next then f.next else w.cursor, looks := w.looks + [(w.cursor, f.next)]);
    if ending.None? && pending == [] then
      if w.expired || (w.deadline && passed) then w'.(mode := Left(Pending))
      else w'.(mode := Sleeping, woken := false)
    else w'.(mode := Relaying, pending := pending, ending := ending)
  }

  function Relayed(w: Waiter): Waiter {
    if w.pending != [] then w.(seen := w.seen + [w.pending[0]], pending := w.pending[1..])
    else if w.ending.Some? then w.(mode := Left(w.ending.value))
    else w.(mode := Looking)
  }

  /** What a flight's own step does to the flight. */
  function FlyAfter(fly: Fly, step: Step): Fly
    requires IsFlightStep(step) && FlightEnabled(fly, step)
  {
    match step
    case Publish(_, event) =>
      fly.(shared := Published(fly.shared, event), events := fly.events + [event], owed := fly.owed + 1)
    case Notify(_) => fly.(owed := fly.owed - 1)
    case Return(_, outcome) => fly.(body := Ended(outcome))
    case Retire(_) => fly.(body := Retiring(fly.body.outcome))
    case Settle(_) =>
      fly.(body := Settled(fly.body.outcome),
           shared := fly.shared.(completion := Flight.Completed(fly.body.outcome)),
           owed := fly.owed + 1)
    case Release(_) => fly.(body := Gone(fly.body.outcome))
  }

  function ApplyFlight(s: State, step: Step): State
    requires Enabled(s, step) && IsFlightStep(step)
  {
    var f := step.flight;
    var s' := s.(flights := s.flights[f := FlyAfter(s.flights[f], step)]);
    match step
    case Notify(_) => s'.(waiters := map w | w in s.waiters :: Woken(s.waiters[w], f))
    case Retire(_) => s'.(registry := s.registry - {s.flights[f].key}, holder := Some(f))
    case Release(_) => s'.(holder := None)
    case _ => s'
  }

  function Woken(w: Waiter, f: FlightId): Waiter {
    if w.flight == f then w.(woken := true) else w
  }

  /** What a waiter's own step does to the waiter. */
  function WaiterAfter(w: Waiter, fly: Fly, step: Step): Waiter
    requires IsWaiterStep(step) && Consecutive(fly.shared)
  {
    match step
    case Arrive(_) =>
      var start := if fly.shared.next == 0 then 0 else fly.shared.next - 1;
      w.(mode := Looking, start := start, cursor := start)
    case Look(_, passed) => Looked(w, fly.shared, passed)
    case Wake(_, timedOut) => w.(mode := Looking, expired := if w.deadline then timedOut else w.expired)
    case Relay(_) => Relayed(w)
  }

  function ApplyJoin(s: State, w: WaiterId, key: Key, deadline: bool): State {
    if key in s.registry then s.(waiters := s.waiters[w := NewWaiter(s.registry[key], deadline)])
    else
      var f := |s.flights|;
      State(s.registry[key := f], s.holder, s.flights + [NewFly(key)], s.waiters[w := NewWaiter(f, deadline)])
  }

  function Apply(s: State, step: Step): State
    requires Enabled(s, step) && FlightsOK(s)
  {
    if step.Join? then ApplyJoin(s, step.waiter, step.key, step.deadline)
    else if IsFlightStep(step) then ApplyFlight(s, step)
    else
      var w := s.waiters[step.waiter];
      s.(waiters := s.waiters[step.waiter := WaiterAfter(w, s.flights[w.flight], step)])
  }

  // ---------------------------------------------------------------- the invariant

  predicate Registered(body: Body) {
    body.Fetching? || body.Ended?
  }

  predicate InLock(body: Body) {
    body.Retiring? || body.Settled?
  }

  /** A flight is running until its worker settles it, with exactly the outcome of its fetch. */
  predicate FlyOK(fly: Fly) {
    && Consecutive(fly.shared)
    && fly.shared.next == |fly.events|
    && (forall i :: 0 <= i < |fly.shared.progress| ==> fly.shared.progress[i].1 == fly.events[fly.shared.progress[i].0])
    && fly.shared.completion == (if fly.body.Settled? || fly.body.Gone? then Flight.Completed(fly.body.outcome) else Running)
  }

  predicate FlightsOK(s: State) {
    forall f :: 0 <= f < |s.flights| ==> FlyOK(s.flights[f])
  }

  /** The registry holds exactly the flights whose fetch has not been retired. */
  predicate RegistryOK(s: State) {
    && (forall f :: 0 <= f < |s.flights| && Registered(s.flights[f].body) ==>
          s.flights[f].key in s.registry && s.registry[s.flights[f].key] == f)
    && (forall k :: k in s.registry ==>
          s.registry[k] < |s.flights| && s.flights[s.registry[k]].key == k && Registered(s.flights[s.registry[k]].body))
    && (forall f :: 0 <= f < |s.flights| ==> (InLock(s.flights[f].body) <==> s.holder == Some(f)))
  }

  predicate Seen(given: seq<(nat, Progress)>, n: nat) {
    exists i :: 0 <= i < |given| && given[i].0 == n
  }

  /** Event `n` was dropped from the ring before one of the looks: at least 64 newer events had
      been published by then. */
  predicate Outrun(looks: seq<(nat, nat)>, n: nat) {
    exists i :: 0 <= i < |looks| && looks[i].0 <= n && n + PROGRESS_HISTORY < looks[i].1
  }

  /** Everything between where a waiter began and its cursor was handed over, in order and as
      published, or outrun. */
  predicate AccountedFor(w: Waiter, given: seq<(nat, Progress)>, events: seq<Progress>) {
    && w.start <= w.cursor <= |events|
    && (forall i :: 0 <= i < |given| ==> w.start <= given[i].0 < w.cursor && given[i].1 == events[given[i].0])
    && (forall i, j :: 0 <= i < j < |given| ==> given[i].0 < given[j].0)
    && (forall n :: w.start <= n < w.cursor ==> Seen(given, n) || Outrun(w.looks, n))
    && (forall i :: 0 <= i < |w.looks| ==> w.looks[i].1 <= |events|)
    && (|events| > 0 ==> w.start < |events|)
  }

  predicate ModeOK(w: Waiter, fly: Fly) {
    match w.mode
    case Arriving => w.pending == [] && w.seen == [] && w.looks == []
    case Looking => w.pending == []
    case Sleeping =>
      && w.pending == []
      && (!w.woken && fly.owed == 0 ==> fly.shared.completion == Running && w.cursor == fly.shared.next)
    case Relaying => w.ending.Some? ==> w.ending == Ending(fly.shared.completion) && w.cursor == fly.shared.next
    case Left(joined) =>
      && w.pending == []
      && (joined.Pending? ==> w.deadline)
      && (!joined.Pending? ==> Some(joined) == Ending(fly.shared.completion) && w.cursor == fly.shared.next)
  }

  predicate WaiterOK(s: State, w: Waiter) {
    && w.flight < |s.flights|
    && (w.mode != Arriving ==> AccountedFor(w, w.seen + w.pending, s.flights[w.flight].events))
    && ModeOK(w, s.flights[w.flight])
    && (w.expired ==> w.deadline)
  }

  predicate WaitersOK(s: State) {
    forall w :: w in s.waiters ==> WaiterOK(s, s.waiters[w])
  }

  predicate Inv(s: State) {
    FlightsOK(s) && RegistryOK(s) && WaitersOK(s)
  }
}
