/** The token that decides cancelling an acquisition against publishing it, and owns the running
    helper process; and one fetch interleaved with any number of cancel and commit calls. */
module Cancellation {
  import opened Common

  datatype Phase = Running | Cancelled | Committing

  datatype CancelOutcome = NowCancelled | AlreadyCancelled | AlreadyFinished

  /** The token under its lock: its phase, and whether it owns a helper. */
  datatype Token = Token(phase: Phase, owns: bool)

  /** Cancelling takes the helper, if there is one, and reaps it. */
  function Cancel(t: Token): (Token, CancelOutcome) {
    match t.phase
    case Running => (Token(Cancelled, false), NowCancelled)
    case Cancelled => (t, AlreadyCancelled)
    case Committing => (t, AlreadyFinished)
  }

  function Commit(t: Token): (Token, bool) {
    if t.phase.Running? then (t.(phase := Committing), true) else (t, false)
  }

  /** `false`: the helper was reaped instead of being taken over. */
  function Attach(t: Token): (Token, bool) {
    if t.phase.Cancelled? then (t, false) else (t.(owns := true), true)
  }

  /** `true`: the caller owns the helper again. */
  function Reclaim(t: Token): (Token, bool) {
    (t.(owns := false), t.owns)
  }

  // ---------------------------------------------------------------- the token

  class Helper {
    var reaps: nat

    constructor ()
      ensures reaps == 0
    {
      reaps := 0;
    }

    method TerminateAndReap()
      modifies this
      ensures reaps == old(reaps) + 1
    {
      reaps := reaps + 1;
    }
  }

  class CancellationToken {
    var phase: Phase
    var child: Helper?

    function State(): Token
      reads this
    {
      Token(phase, child != null)
    }

    constructor ()
      ensures State() == Token(Running, false)
    {
      phase, child := Running, null;
    }

    /** Cancels exactly a running acquisition, and says who was first otherwise. The helper is reaped
        exactly when this call is the one that cancels. */
    method CancelFetch() returns (outcome: CancelOutcome)
      modifies this, child
      ensures (State(), outcome) == Cancel(old(State()))
      ensures outcome.NowCancelled? <==> old(phase).Running?
      ensures outcome.AlreadyCancelled? <==> old(phase).Cancelled?
      ensures phase == if old(phase).Committing? then Committing else Phase.Cancelled
      ensures child == if outcome.NowCancelled? then null else old(child)
      ensures old(child) != null ==> old(child).reaps == old(child.reaps) + (if outcome.NowCancelled? then 1 else 0)
    {
      match phase
      case Committing => return AlreadyFinished;
      case Cancelled => return AlreadyCancelled;
      case Running =>
        phase := Cancelled;
        if child != null {
          child.TerminateAndReap();
          child := null;
        }
        return NowCancelled;
    }

    /** Wins exactly if nobody has decided before. */
    method CommitFetch() returns (won: bool)
      modifies this
      ensures (State(), won) == Commit(old(State())) && child == old(child)
      ensures won <==> old(phase).Running?
      ensures phase == if won then Committing else old(phase)
    {
      if phase == Running {
        phase := Committing;
        return true;
      }
      return false;
    }

    /** The helper is taken over unless the acquisition is cancelled, and reaped at once if it is. */
    method AttachHelper(helper: Helper) returns (running: bool)
      modifies this, helper
      ensures (State(), running) == Attach(old(State()))
      ensures (running <==> !old(phase).Cancelled?) && phase == old(phase)
      ensures helper.reaps == old(helper.reaps) + (if running then 0 else 1)
      ensures child == if running then helper else old(child)
    {
      if phase == Cancelled {
        helper.TerminateAndReap();
        return false;
      }
      child := helper;
      return true;
    }

    method ReclaimHelper() returns (helper: Helper?)
      modifies this
      ensures (State(), helper != null) == Reclaim(old(State())) && helper == old(child)
    {
      helper := child;
      child := null;
    }
  }

  // ---------------------------------------------------------------- one fetch among cancels and commits

  datatype FetchEnd = WasCancelled | Failed | Finished

  /** Where the fetching thread is; `Owned` and `Deciding` mean it holds the helper itself. */
  datatype Fetch = NotStarted | Cleared | Spawned | Reading | Owned | Deciding | Ended(end: FetchEnd)

  datatype World = World(
    token: Token,
    fetch: Fetch,
    spawned: bool,
    reaps: nat,          // history: how often the helper was reaped
    stranded: bool,      // history: waiting for the helper failed
    cancelled: nat,      // history: how many cancels returned that they cancelled
    committed: nat)      // history: how many commits won

  datatype Event =
    | CallCancel
    | CallCommit
    | Look               // the fetch's first look at the token
    | Spawn(ok: bool)
    | NoPipe
    | HandOver
    | EndOfOutput
    | LookAgain
    | Discard            // the output was bad
    | Wait(exited: bool, finished: bool)

  predicate Enabled(w: World, e: Event) {
    match e
    case CallCancel => true
    case CallCommit => true
    case Look => w.fetch.NotStarted?
    case Spawn(_) => w.fetch.Cleared?
    case NoPipe => w.fetch.Spawned?
    case HandOver => w.fetch.Spawned?
    case EndOfOutput => w.fetch.Reading?
    case LookAgain => w.fetch.Owned?
    case Discard => w.fetch.Deciding?
    case Wait(_, _) => w.fetch.Deciding?
  }

  function Apply(w: World, e: Event): World
    requires Enabled(w, e)
  {
    match e
    case CallCancel =>
      var (token, outcome) := Cancel(w.token);
      w.(token := token,
         cancelled := w.cancelled + (if outcome.NowCancelled? then 1 else 0),
         reaps := w.reaps + (if outcome.NowCancelled? && w.token.owns then 1 else 0))
    case CallCommit =>
      var (token, won) := Commit(w.token);
      w.(token := token, committed := w.committed + (if won then 1 else 0))
    case Look => w.(fetch := if w.token.phase.Cancelled? then Ended(WasCancelled) else Cleared)
    case Spawn(ok) => if ok then w.(fetch := Spawned, spawned := true) else w.(fetch := Ended(Failed))
    case NoPipe => w.(fetch := Ended(Failed), reaps := w.reaps + 1)
    case HandOver =>
      var (token, running) := Attach(w.token);
      if running then w.(token := token, fetch := Reading)
      else w.(token := token, fetch := Ended(WasCancelled), reaps := w.reaps + 1)
    case EndOfOutput =>
      var (token, mine) := Reclaim(w.token);
      w.(token := token, fetch := if mine then Owned else Ended(WasCancelled))
    case LookAgain =>
      if w.token.phase.Cancelled? then w.(fetch := Ended(WasCancelled), reaps := w.reaps + 1) else w.(fetch := Deciding)
    case Discard => w.(fetch := Ended(Failed), reaps := w.reaps + 1)
    case Wait(exited, finished) =>
      if exited then w.(fetch := Ended(if finished then Finished else Failed), reaps := w.reaps + 1)
      else w.(fetch := Ended(Failed), stranded := true)
  }

  const START := World(Token(Running, false), NotStarted, false, 0, false, 0, 0)

  predicate Valid(w: World, run: seq<Event>)
    decreases |run|
  {
    run == [] || (Enabled(w, run[0]) && Valid(Apply(w, run[0]), run[1..]))
  }

  function After(w: World, run: seq<Event>): World
    requires Valid(w, run)
    decreases |run|
  {
    if run == [] then w else After(Apply(w, run[0]), run[1..])
  }

  /** The token's phase says which of the two has happened, and once; the helper is alive exactly
      while somebody owns it, or for good once waiting for it has failed. */
  predicate Inv(w: World) {
    && w.cancelled == (if w.token.phase.Cancelled? then 1 else 0)
    && w.committed == (if w.token.phase.Committing? then 1 else 0)
    && (w.token.owns ==> w.fetch.Reading?)
    && (w.spawned <==> w.fetch.Spawned? || w.fetch.Reading? || w.fetch.Owned? || w.fetch.Deciding? || (w.fetch.Ended? && (w.reaps == 1 || w.stranded)))
    && (w.stranded ==> w.fetch.Ended?)
    && w.reaps == (if w.fetch.Reading? then (if w.token.owns then 0 else 1)
                   else if w.fetch.Ended? && w.spawned && !w.stranded then 1 else 0)
    && (w.fetch.Reading? && !w.token.owns ==> w.token.phase.Cancelled?)
    && (w.fetch == Ended(WasCancelled) ==> w.token.phase.Cancelled?)
  }

  lemma StepKeepsInv(w: World, e: Event)
    requires Inv(w) && Enabled(w, e)
    ensures Inv(Apply(w, e))
  {
  }

  lemma {:induction false} RunKeepsInv(w: World, run: seq<Event>)
    requires Inv(w) && Valid(w, run)
    ensures Inv(After(w, run))
    decreases |run|
  {
    if run != [] {
      StepKeepsInv(w, run[0]);
      RunKeepsInv(Apply(w, run[0]), run[1..]);
    }
  }

  /** The first of the calls that decide: a cancel or a commit. */
  function FirstCall(run: seq<Event>): (r: Option<Event>)
    ensures r == None <==> forall i :: 0 <= i < |run| ==> !Decides(run[i])
    ensures r.Some? ==> exists i :: IsFirstCall(run, i) && run[i] == r.value
  {
    if run == [] then None
    else if Decides(run[0]) then (assert IsFirstCall(run, 0); Some(run[0]))
    else
      var r := FirstCall(run[1..]);
      assert r.Some? ==> exists i :: IsFirstCall(run, i) && run[i] == r.value by {
        if r.Some? {
          var i :| IsFirstCall(run[1..], i) && run[1..][i] == r.value;
          assert IsFirstCall(run, i + 1);
        }
      }
      assert forall i :: 0 < i < |run| ==> run[i] == run[1..][i - 1];
      r
  }

  predicate Decides(e: Event) {
    e.CallCancel? || e.CallCommit?
  }

  predicate IsFirstCall(run: seq<Event>, i: int) {
    0 <= i < |run| && Decides(run[i]) && forall j :: 0 <= j < i ==> !Decides(run[j])
  }

  lemma {:induction false} FirstCallWins(w: World, run: seq<Event>)
    requires Inv(w) && w.token.phase.Running? && Valid(w, run)
    ensures After(w, run).token.phase ==
            match FirstCall(run)
            case None => Running
            case Some(e) => if e.CallCancel? then Phase.Cancelled else Committing
    decreases |run|
  {
    if run != [] {
      var next := Apply(w, run[0]);
      StepKeepsInv(w, run[0]);
      if next.token.phase.Running? {
        FirstCallWins(next, run[1..]);
      } else {
        WinnerStays(next, run[1..]);
      }
    }
  }

  /** Whatever the interleaving, the first cancel or commit wins, and it alone: a cancel has been told
      that it cancelled exactly if a cancel came first, once, and a commit has won exactly if a commit
      came first, once. Every later caller is told which of the two it was. */
  lemma CancelExcludesCommit(run: seq<Event>)
    requires Valid(START, run)
    ensures var w, first := After(START, run), FirstCall(run);
            && w.cancelled == (if first == Some(CallCancel) then 1 else 0)
            && w.committed == (if first == Some(CallCommit) then 1 else 0)
            && (Cancel(w.token).1.NowCancelled? <==> first == None) && (Commit(w.token).1 <==> first == None)
            && (Cancel(w.token).1.AlreadyCancelled? <==> first == Some(CallCancel))
            && (Cancel(w.token).1.AlreadyFinished? <==> first == Some(CallCommit))
  {
    RunKeepsInv(START, run);
    FirstCallWins(START, run);
  }

  /** A fetch that ends as cancelled was: some cancel came first, and said so. */
  lemma CancelledEndWasCancelled(run: seq<Event>)
    requires Valid(START, run) && After(START, run).fetch == Ended(WasCancelled)
    ensures After(START, run).cancelled == 1 && FirstCall(run) == Some(CallCancel)
  {
    RunKeepsInv(START, run);
    CancelExcludesCommit(run);
  }

  predicate WaitFails(run: seq<Event>) {
    exists e :: e in run && e.Wait? && !e.exited
  }

  lemma {:induction false} StrandedIff(w: World, run: seq<Event>)
    requires Inv(w) && Valid(w, run)
    ensures After(w, run).stranded <==> w.stranded || WaitFails(run)
    decreases |run|
  {
    if run != [] {
      StepKeepsInv(w, run[0]);
      StrandedIff(Apply(w, run[0]), run[1..]);
      assert forall e :: e in run <==> e == run[0] || e in run[1..];
    }
  }

  /** Whatever the interleaving, a helper is never reaped twice and the token keeps none; and by the time
      the fetch returns its helper has been reaped exactly if waiting for it did not fail. */
  lemma HelperIsReapedOnce(run: seq<Event>)
    requires Valid(START, run)
    ensures var w := After(START, run);
            && w.reaps <= (if w.spawned then 1 else 0)
            && (w.fetch.Ended? ==> !w.token.owns)
            && (w.fetch.Ended? && w.spawned ==> (w.reaps == 1 <==> !WaitFails(run)))
  {
    RunKeepsInv(START, run);
    StrandedIff(START, run);
  }

  /** Such a run: the fetch reads to the end of the output, is not cancelled, and cannot wait. */
  lemma FailedWaitLeavesHelper() returns (run: seq<Event>)
    ensures Valid(START, run)
    ensures var w := After(START, run); w.spawned && w.reaps == 0 && w.fetch == Ended(Failed) && !w.token.owns
  {
    run := [Look, Spawn(true), HandOver, EndOfOutput, LookAgain, Wait(false, false)];
    var read := World(Token(Running, true), Reading, true, 0, false, 0, 0);
    var rest := [EndOfOutput, LookAgain, Wait(false, false)];
    assert rest[1..] == [LookAgain, Wait(false, false)] && rest[1..][1..] == [Wait(false, false)] && rest[1..][1..][1..] == [];
    assert Valid(read, rest) && After(read, rest) == World(Token(Running, false), Ended(Failed), true, 0, true, 0, 0);
    assert run[1..][1..][1..] == rest;
  }

  /** A fetch that nobody cancels, whose helper runs and exits, finishes; and committing it then wins. */
  lemma FetchMayFinish() returns (run: seq<Event>)
    ensures Valid(START, run)
    ensures var w := After(START, run); w.fetch == Ended(Finished) && w.reaps == 1 && w.committed == 1
  {
    run := [Look, Spawn(true), HandOver, EndOfOutput, LookAgain, Wait(true, true), CallCommit];
    var read := World(Token(Running, true), Reading, true, 0, false, 0, 0);
    var rest := [EndOfOutput, LookAgain, Wait(true, true), CallCommit];
    assert rest[1..] == [LookAgain, Wait(true, true), CallCommit] && rest[1..][1..] == [Wait(true, true), CallCommit];
    assert rest[1..][1..][1..] == [CallCommit] && [CallCommit][1..] == [];
    var owned := World(Token(Running, false), Deciding, true, 0, false, 0, 0);
    assert Valid(owned, [Wait(true, true), CallCommit]);
    assert Valid(read, rest) && After(read, rest) == World(Token(Committing, false), Ended(Finished), true, 1, false, 0, 1);
    assert run[1..][1..][1..] == rest;
  }

  /** Once one side has won it stays so: after a cancel no commit succeeds, after a commit no cancel
      takes effect. */
  lemma {:induction false} WinnerStays(w: World, run: seq<Event>)
    requires !w.token.phase.Running? && Valid(w, run)
    ensures After(w, run).token.phase == w.token.phase
    ensures After(w, run).cancelled == w.cancelled && After(w, run).committed == w.committed
    decreases |run|
  {
    if run != [] {
      WinnerStays(Apply(w, run[0]), run[1..]);
    }
  }

  predicate BeforeLastLook(f: Fetch) {
    f.NotStarted? || f.Cleared? || f.Spawned? || f.Reading? || f.Owned?
  }

  /** A cancellation that takes effect before the fetch's last look is never lost: the fetch does
      not finish, and ends as cancelled unless its helper could not be started at all. */
  lemma {:induction false} CancelledFetchNeverFinishes(w: World, run: seq<Event>)
    requires Inv(w) && Valid(w, run) && w.token.phase.Cancelled? && BeforeLastLook(w.fetch)
    ensures var f := After(w, run).fetch;
            && (BeforeLastLook(f) || f == Ended(WasCancelled) || f == Ended(Failed))
            && (w.fetch.NotStarted? || w.fetch.Reading? || w.fetch.Owned? ==> f != Ended(Failed))
    decreases |run|
  {
    if run != [] {
      var next := Apply(w, run[0]);
      StepKeepsInv(w, run[0]);
      if BeforeLastLook(next.fetch) {
        CancelledFetchNeverFinishes(next, run[1..]);
      } else {
        EndedStays(next, run[1..]);
      }
    }
  }

  lemma {:induction false} EndedStays(w: World, run: seq<Event>)
    requires w.fetch.Ended? && Valid(w, run)
    ensures After(w, run).fetch == w.fetch
    decreases |run|
  {
    if run != [] {
      EndedStays(Apply(w, run[0]), run[1..]);
    }
  }
}
