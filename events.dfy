/**
 * The event subscription of src/trpc/routers/events.ts: a `while` loop that
 * reads the runtime's event stream until it ends or the request is aborted,
 * yields `true` per chunk, swallows a "ResponseAborted" error, rethrows
 * every other error, and releases the reader on every way out.
 *
 * The stream is the sequence of outcomes its reads produce; a read past the
 * end of that sequence finds the stream ended. The abort signal is sampled
 * at each loop head and, once set, stays set: `abortAt` is the first loop
 * head that sees it, or `None` when it is never seen (also when the
 * subscription has no signal).
 */
module Events {
  import opened Wrappers

  /** What a rejected read rejects with: an `Error` with its `name`, or any other value. */
  datatype Thrown = ErrorObject(name: string) | OtherValue

  /** What one `reader.read()` gives. */
  datatype ReadOutcome = Chunk | Done | Failed(error: Thrown)

  /** How the generator finishes. */
  datatype Exit = StreamEnded | AbortObserved | Swallowed | Rethrown(error: Thrown)

  /** `error instanceof Error && error.name === "ResponseAborted"`. */
  predicate IsResponseAborted(e: Thrown) {
    e.ErrorObject? && e.name == "ResponseAborted"
  }

  /** The outcome of read number `k`. */
  function ReadAt(trace: seq<ReadOutcome>, k: nat): ReadOutcome {
    if k < |trace| then trace[k] else Done
  }

  /** Whether loop head number `k` sees the signal aborted. */
  predicate AbortedAt(abortAt: Option<nat>, k: nat) {
    abortAt.Some? && abortAt.value <= k
  }

  /**
   * The subscription run to completion. `yielded` is what the generator
   * yields, `readsIssued` how many reads it makes, `releases` how many times
   * the reader is released.
   */
  method Subscribe(trace: seq<ReadOutcome>, abortAt: Option<nat>)
    returns (yielded: seq<bool>, readsIssued: nat, releases: nat, exit: Exit)
    ensures forall i :: 0 <= i < |yielded| ==> yielded[i]
    ensures releases == 1
    ensures abortAt.Some? ==> readsIssued <= abortAt.value
    ensures forall j :: 0 <= j < readsIssued - 1 ==> ReadAt(trace, j).Chunk?
    ensures exit == AbortObserved ==> AbortedAt(abortAt, readsIssued)
    ensures exit != AbortObserved ==> readsIssued >= 1 && !AbortedAt(abortAt, readsIssued - 1)
    ensures exit == AbortObserved ==> |yielded| == readsIssued && (readsIssued > 0 ==> ReadAt(trace, readsIssued - 1).Chunk?)
    ensures exit != AbortObserved ==> |yielded| == readsIssued - 1
    ensures exit == StreamEnded <==> exit != AbortObserved && ReadAt(trace, readsIssued - 1).Done?
    ensures exit == Swallowed ==>
      readsIssued >= 1 && ReadAt(trace, readsIssued - 1).Failed? && IsResponseAborted(ReadAt(trace, readsIssued - 1).error)
    ensures exit.Rethrown? ==>
      readsIssued >= 1 && ReadAt(trace, readsIssued - 1) == Failed(exit.error) && !IsResponseAborted(exit.error)
  {
    yielded := [];
    readsIssued := 0;
    releases := 0;
    exit := AbortObserved;
    while !AbortedAt(abortAt, readsIssued)
      invariant readsIssued <= |trace|
      invariant |yielded| == readsIssued
      invariant forall i :: 0 <= i < |yielded| ==> yielded[i]
      invariant forall j :: 0 <= j < readsIssued ==> ReadAt(trace, j).Chunk?
      invariant abortAt.Some? ==> readsIssued <= abortAt.value
      decreases |trace| - readsIssued
    {
      var outcome := ReadAt(trace, readsIssued);
      readsIssued := readsIssued + 1;
      if outcome.Failed? {
        if IsResponseAborted(outcome.error) {
          exit := Swallowed;
        } else {
          exit := Rethrown(outcome.error);
        }
        break;
      }
      if outcome.Done? {
        exit := StreamEnded;
        break;
      }
      yielded := yielded + [true];
    }
    releases := releases + 1;
  }
}
