/** The record of what the attempt loop did to the outside world, in order:
    which retry count each attempt's source was tagged with, which temp files
    were allocated, when an attempt's wait for its streams ended (and whether
    any stream was still pending then), and which temp files were deleted. */
module EffectLog {

  type Path = string

  datatype Effect =
    | Tag(attempt: nat, count: int)        // the source's `retryCount` is set
    | Allocate(attempt: nat, path: Path)   // a fresh temp file is created
    | Finalize(attempt: nat, allSettled: bool)
      // the wait for the attempt's streams ended; `allSettled`: no stream's
      // `finished` was still pending then, so no stream still held the temp file open
    | Delete(attempt: nat, path: Path)     // the temp file was removed

  /** The temp files allocated, in order. */
  function Allocated(log: seq<Effect>): seq<Path>
  {
    if |log| == 0 then []
    else (if log[0].Allocate? then [log[0].path] else []) + Allocated(log[1..])
  }

  /** The temp files deleted, in order. */
  function Deleted(log: seq<Effect>): seq<Path>
  {
    if |log| == 0 then []
    else (if log[0].Delete? then [log[0].path] else []) + Deleted(log[1..])
  }

  /** The retry counts the sources were tagged with, in order. */
  function Tags(log: seq<Effect>): seq<int>
  {
    if |log| == 0 then []
    else (if log[0].Tag? then [log[0].count] else []) + Tags(log[1..])
  }

  /** Every deletion happens only after a wait that left none of that
      attempt's streams pending, so the temp file is no longer held open. */
  predicate SettledBeforeDeleted(log: seq<Effect>)
  {
    forall k | 0 <= k < |log| && log[k].Delete? :: Finalize(log[k].attempt, true) in log[..k]
  }

  /** The three projections distribute over concatenation of logs. */
  lemma {:induction false} ProjectionsAppend(a: seq<Effect>, b: seq<Effect>)
    ensures Allocated(a + b) == Allocated(a) + Allocated(b)
    ensures Deleted(a + b) == Deleted(a) + Deleted(b)
    ensures Tags(a + b) == Tags(a) + Tags(b)
    decreases |a|
  {
    if |a| > 0 {
      assert (a + b)[0] == a[0];
      assert (a + b)[1..] == a[1..] + b;
      ProjectionsAppend(a[1..], b);
    } else {
      assert a + b == b;
    }
  }
}
