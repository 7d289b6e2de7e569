/** One acquisition's shared state: its completion and the bounded ring of progress events. */
module Flight {
  import opened Common

  datatype Completion<R> = Running | Done(result: R) | Abandoned

  /** How many events a flight retains for waiters that have not drained them yet. */
  const PROGRESS_HISTORY := 64

  datatype FlightState<R, P> = FlightState(completion: Completion<R>, progress: seq<(nat, P)>, next: nat)

  /** The retained events are the latest ones, numbered consecutively up to `next`. */
  predicate Consecutive<R, P>(f: FlightState<R, P>) {
    && |f.progress| <= f.next
    && |f.progress| <= PROGRESS_HISTORY
    && (|f.progress| == PROGRESS_HISTORY || |f.progress| == f.next)
    && (forall i :: 0 <= i < |f.progress| ==> f.progress[i].0 == f.next - |f.progress| + i)
  }

  function Last<T>(s: seq<T>, n: nat): seq<T> {
    if |s| <= n then s else s[|s| - n..]
  }

  lemma LastOfRest<T>(s: seq<T>, n: nat)
    requires |s| > n
    ensures Last(s[1..], n) == Last(s, n)
  {
    assert s[1..][|s| - 1 - n..] == s[|s| - n..];
  }

  function Published<R, P>(f: FlightState<R, P>, event: P): FlightState<R, P> {
    f.(progress := Last(f.progress + [(f.next, event)], PROGRESS_HISTORY), next := f.next + 1)
  }

  function Completed<R>(outcome: Option<R>): Completion<R> {
    match outcome
    case Some(result) => Done(result)
    case None => Abandoned
  }

  /** The first retained event a waiter with this cursor has not been handed. */
  function Resume<R, P>(f: FlightState<R, P>, cursor: nat): (from: nat)
    requires Consecutive(f)
    ensures from <= |f.progress|
    ensures forall i :: 0 <= i < |f.progress| ==> (i >= from <==> f.progress[i].0 >= cursor)
  {
    var oldest := f.next - |f.progress|;
    if cursor <= oldest then 0
    else if cursor >= f.next then |f.progress|
    else cursor - oldest
  }

  lemma PublishKeepsConsecutive<R, P>(f: FlightState<R, P>, event: P)
    requires Consecutive(f)
    ensures Consecutive(Published(f, event))
    ensures Published(f, event).progress != [] && Published(f, event).progress[|Published(f, event).progress| - 1] == (f.next, event)
    ensures forall e :: e in Published(f, event).progress ==> e in f.progress || e == (f.next, event)
  {
  }

  class SharedFlight<R, P> {
    var completion: Completion<R>
    var progress: seq<(nat, P)>
    var nextSequence: nat

    function State(): FlightState<R, P>
      reads this
    {
      FlightState(completion, progress, nextSequence)
    }

    constructor ()
      ensures State() == FlightState(Running, [], 0) && Consecutive(State())
    {
      completion, progress, nextSequence := Running, [], 0;
    }

    /** Appends an event and drops the oldest ones beyond the bound. */
    method Publish(event: P)
      requires Consecutive(State())
      modifies this
      ensures State() == Published(old(State()), event) && Consecutive(State())
    {
      ghost var before := State();
      var sequence := nextSequence;
      nextSequence := nextSequence + 1;
      progress := progress + [(sequence, event)];
      ghost var full := progress;
      while |progress| > PROGRESS_HISTORY
        invariant Last(progress, PROGRESS_HISTORY) == Last(full, PROGRESS_HISTORY)
        invariant completion == before.completion && nextSequence == before.next + 1
      {
        LastOfRest(progress, PROGRESS_HISTORY);
        progress := progress[1..];
      }
      PublishKeepsConsecutive(before, event);
    }

    method Finish(outcome: Option<R>)
      modifies this
      ensures State() == old(State()).(completion := Completed(outcome))
      ensures completion == if outcome.None? then Abandoned else Done(outcome.value)
    {
      match outcome {
        case Some(result) => completion := Done(result);
        case None => completion := Abandoned;
      }
    }

    /** One pass of a waiter over the retained events, under the lock. */
    method Look(start: nat) returns (cursor: nat, pending: seq<(nat, P)>)
      requires Consecutive(State())
      ensures pending == progress[Resume(State(), start)..]
      ensures cursor == if start < nextSequence then nextSequence else start
    {
      cursor, pending := start, [];
      ghost var from := Resume(State(), start);
      for i := 0 to |progress|
        invariant pending == if i <= from then [] else progress[from..i]
        invariant cursor == if i <= from then start else progress[i - 1].0 + 1
      {
        if progress[i].0 >= cursor {
          cursor := progress[i].0 + 1;
          pending := pending + [progress[i]];
        }
      }
    }
  }
}
