/** Properties of whole calls: what a sequence of attempts leads to. */
module AttemptLoopProperties {
  import opened Wrappers
  import opened RetryBridge
  import opened EffectLog
  import opened AttemptLoop

  /** The attempt was prepared, its source asked for a retry, and its temp file was deleted. */
  predicate RetriesCleanly(a: Attempt)
  {
    a.setup.Prepared? && Watch(a.events).Some? && Watch(a.events).value.retryCount.Some? && a.unlinkError.None?
  }

  /** The count the source of a retrying attempt asked the next attempt to use. */
  function RequestedCount(a: Attempt): int
    requires RetriesCleanly(a)
  {
    Watch(a.events).value.retryCount.value
  }

  /** The counts requested by a run of retrying attempts, in order. */
  function RequestedCounts(attempts: seq<Attempt>): (r: seq<int>)
    requires forall j | 0 <= j < |attempts| :: RetriesCleanly(attempts[j])
    ensures |r| == |attempts|
  {
    if |attempts| == 0 then [] else [RequestedCount(attempts[0])] + RequestedCounts(attempts[1..])
  }

  /** The attempt was prepared, its source said "no retry", and no error was retained. */
  predicate SucceedsCleanly(a: Attempt)
  {
    a.setup.Prepared? && Watch(a.events) == Some(RetryOutcome(None)) && Retained(a.pipelineError, a.FinalizeError()).None?
  }

  /** The attempt ends the call with an error: a preparation call threw, or the
      bridge settled and the attempt neither succeeded nor retried cleanly. */
  predicate Fails(a: Attempt)
  {
    !a.setup.Prepared? || (Watch(a.events).Some? && !SucceedsCleanly(a) && !RetriesCleanly(a))
  }

  /** The error a failing attempt ends the call with: the preparation call's,
      else the unlink's, else the one the attempt retained. */
  function FailureError(a: Attempt): Error
    requires Fails(a)
  {
    if !a.setup.Prepared? then a.setup.error
    else if a.unlinkError.Some? then a.unlinkError.value
    else Retained(a.pipelineError, a.FinalizeError()).value
  }

  /** The count attempt `n` is tagged with, when the attempts `i..n-1` all retried. */
  function CountAt(script: seq<Attempt>, i: nat, count: int, n: nat): int
    requires i <= n <= |script|
    requires forall j | i <= j < n :: RetriesCleanly(script[j])
  {
    if n == i then count else RequestedCount(script[n - 1])
  }

  /** The counts attempts `i..n-1` are tagged with, when they all retried. */
  function CountsBefore(script: seq<Attempt>, i: nat, count: int, n: nat): seq<int>
    requires i <= n <= |script|
    requires forall j | i <= j < n :: RetriesCleanly(script[j])
  {
    if n == i then [] else [count] + RequestedCounts(script[i..n - 1])
  }

  /** The effects of one attempt that retried cleanly. */
  function RetryBlock(wait: Wait, a: Attempt, i: nat, count: int): seq<Effect>
  {
    [Tag(i, count), Allocate(i, a.path), WaitEnd(wait, a, i), Delete(i, a.path)]
  }

  lemma RetryBlockProjections(wait: Wait, a: Attempt, i: nat, count: int)
    ensures Allocated(RetryBlock(wait, a, i, count)) == [a.path]
    ensures Deleted(RetryBlock(wait, a, i, count)) == [a.path]
    ensures Tags(RetryBlock(wait, a, i, count)) == [count]
  {
    var deletion := [Delete(i, a.path)];
    assert RetryBlock(wait, a, i, count) == Opening(wait, a, i, count) + deletion;
    OpeningProjections(wait, a, i, count);
    ProjectionsAppend(Opening(wait, a, i, count), deletion);
    assert deletion[1..] == [];
    assert Allocated(deletion) == [] && Deleted(deletion) == [a.path] && Tags(deletion) == [];
  }

  /** The effects of attempts `i..n-1` when they all retried cleanly. */
  function RetryLog(wait: Wait, script: seq<Attempt>, i: nat, count: int, n: nat): seq<Effect>
    requires i <= n <= |script|
    requires forall j | i <= j < n :: RetriesCleanly(script[j])
    decreases n - i
  {
    if n == i then []
    else RetryBlock(wait, script[i], i, count) + RetryLog(wait, script, i + 1, RequestedCount(script[i]), n)
  }

  /** One clean retry: the attempt's own block of effects, then the next
      attempt with the count the source asked for. */
  lemma AgainUnfolds(wait: Wait, script: seq<Attempt>, i: nat, count: int)
    requires i < |script|
    requires RetriesCleanly(script[i])
    ensures var rest := Loop(wait, script, i + 1, RequestedCount(script[i]));
      Loop(wait, script, i, count) == Run(rest.outcome, RetryBlock(wait, script[i], i, count) + rest.log)
  {
  }

  /** A run of clean retries contributes its blocks and then hands over to the
      attempt after it, with the count the last retry asked for. */
  lemma {:induction false} CleanRetriesLog(wait: Wait, script: seq<Attempt>, i: nat, count: int, n: nat)
    requires i <= n <= |script|
    requires forall j | i <= j < n :: RetriesCleanly(script[j])
    ensures var tail := Loop(wait, script, n, CountAt(script, i, count, n));
      Loop(wait, script, i, count) == Run(tail.outcome, RetryLog(wait, script, i, count, n) + tail.log)
    decreases n - i
  {
    if n == i {
      assert RetryLog(wait, script, i, count, n) == [];
    } else {
      var next := RequestedCount(script[i]);
      var tail := Loop(wait, script, n, CountAt(script, i, count, n));
      var rest := Loop(wait, script, i + 1, next);
      var block := RetryBlock(wait, script[i], i, count);
      var later := RetryLog(wait, script, i + 1, next, n);
      assert Loop(wait, script, i, count) == Run(rest.outcome, block + rest.log) by {
        AgainUnfolds(wait, script, i, count);
      }
      assert rest == Run(tail.outcome, later + tail.log) by {
        CleanRetriesLog(wait, script, i + 1, next, n);
        assert CountAt(script, i + 1, next, n) == CountAt(script, i, count, n);
      }
      assert RetryLog(wait, script, i, count, n) == block + later;
      Regroup(Loop(wait, script, i, count), rest, tail, block, later);
    }
  }

  /** A run that is `block` followed by a run that is `later` followed by `tail`
      is `block + later` followed by `tail`. */
  lemma Regroup(whole: Run, rest: Run, tail: Run, block: seq<Effect>, later: seq<Effect>)
    requires whole == Run(rest.outcome, block + rest.log)
    requires rest == Run(tail.outcome, later + tail.log)
    ensures whole == Run(tail.outcome, (block + later) + tail.log)
  {
    assert block + (later + tail.log) == (block + later) + tail.log;
  }

  /** The blocks of a run of clean retries allocate and delete exactly the
      retried attempts' own files. */
  lemma {:induction false} RetryLogFiles(wait: Wait, script: seq<Attempt>, i: nat, count: int, n: nat)
    requires i <= n <= |script|
    requires forall j | i <= j < n :: RetriesCleanly(script[j])
    ensures Allocated(RetryLog(wait, script, i, count, n)) == Paths(script[i..n])
    ensures Deleted(RetryLog(wait, script, i, count, n)) == Paths(script[i..n])
    decreases n - i
  {
    if n == i {
      assert script[i..n] == [];
    } else {
      var next := RequestedCount(script[i]);
      var block := RetryBlock(wait, script[i], i, count);
      RetryLogFiles(wait, script, i + 1, next, n);
      ProjectionsAppend(block, RetryLog(wait, script, i + 1, next, n));
      RetryBlockProjections(wait, script[i], i, count);
      assert Paths(script[i..n]) == [script[i].path] + Paths(script[i + 1..n]) by {
        assert script[i..n] == [script[i]] + script[i + 1..n];
        PathsAppend([script[i]], script[i + 1..n]);
      }
    }
  }

  /** The blocks of a run of clean retries tag each source with the count its
      predecessor asked for. */
  lemma {:induction false} RetryLogTags(wait: Wait, script: seq<Attempt>, i: nat, count: int, n: nat)
    requires i <= n <= |script|
    requires forall j | i <= j < n :: RetriesCleanly(script[j])
    ensures Tags(RetryLog(wait, script, i, count, n)) == CountsBefore(script, i, count, n)
    decreases n - i
  {
    if n > i {
      var next := RequestedCount(script[i]);
      var block := RetryBlock(wait, script[i], i, count);
      RetryLogTags(wait, script, i + 1, next, n);
      ProjectionsAppend(block, RetryLog(wait, script, i + 1, next, n));
      RetryBlockProjections(wait, script[i], i, count);
      assert CountsBefore(script, i, count, n) == [count] + CountsBefore(script, i + 1, next, n) by {
        if n - 1 > i {
          assert script[i..n - 1] == [script[i]] + script[i + 1..n - 1];
          RequestedCountsAppend([script[i]], script[i + 1..n - 1]);
        }
      }
    }
  }

  /** A run of clean retries only adds one allocated-then-deleted file per
      attempt, and tags each next source with the count the previous one asked for. */
  lemma CleanRetries(wait: Wait, script: seq<Attempt>, i: nat, count: int, n: nat)
    requires i <= n <= |script|
    requires forall j | i <= j < n :: RetriesCleanly(script[j])
    ensures var whole := Loop(wait, script, i, count);
      var tail := Loop(wait, script, n, CountAt(script, i, count, n));
      && whole.outcome == tail.outcome
      && Allocated(whole.log) == Paths(script[i..n]) + Allocated(tail.log)
      && Deleted(whole.log) == Paths(script[i..n]) + Deleted(tail.log)
      && Tags(whole.log) == CountsBefore(script, i, count, n) + Tags(tail.log)
  {
    CleanRetriesLog(wait, script, i, count, n);
    RetryLogFiles(wait, script, i, count, n);
    RetryLogTags(wait, script, i, count, n);
    var tail := Loop(wait, script, n, CountAt(script, i, count, n));
    ProjectionsAppend(RetryLog(wait, script, i, count, n), tail.log);
  }

  lemma {:induction false} PathsAppend(a: seq<Attempt>, b: seq<Attempt>)
    ensures Paths(a + b) == Paths(a) + Paths(b)
    decreases |a|
  {
    if |a| == 0 {
      assert a + b == b;
    } else {
      assert (a + b)[1..] == a[1..] + b;
      PathsAppend(a[1..], b);
    }
  }

  lemma {:induction false} RequestedCountsAppend(a: seq<Attempt>, b: seq<Attempt>)
    requires forall j | 0 <= j < |a| :: RetriesCleanly(a[j])
    requires forall j | 0 <= j < |b| :: RetriesCleanly(b[j])
    ensures forall j | 0 <= j < |a + b| :: RetriesCleanly((a + b)[j])
    ensures RequestedCounts(a + b) == RequestedCounts(a) + RequestedCounts(b)
    decreases |a|
  {
    if |a| == 0 {
      assert a + b == b;
    } else {
      assert (a + b)[1..] == a[1..] + b;
      RequestedCountsAppend(a[1..], b);
    }
  }

  /** The attempt that ends the call: its effects are the whole rest of the log. */
  lemma LastAttempt(wait: Wait, script: seq<Attempt>, n: nat, count: int)
    requires n < |script|
    requires Step(wait, script[n], n, count).decision.Stop?
    ensures Loop(wait, script, n, count) == Run(Step(wait, script[n], n, count).decision.outcome, Step(wait, script[n], n, count).effects)
    ensures Allocated(Loop(wait, script, n, count).log) == if script[n].setup.Prepared? then [script[n].path] else []
    ensures Tags(Loop(wait, script, n, count).log) == if script[n].setup.TagsSource() then [count] else []
  {
    StepProjections(wait, script, n, count);
  }

  /** The files and counts of the first `n + 1` attempts, split at the last one. */
  lemma SplitLast(script: seq<Attempt>, n: nat)
    requires n < |script|
    requires forall j | 0 <= j < n :: RetriesCleanly(script[j])
    ensures Paths(script[..n + 1]) == Paths(script[..n]) + [script[n].path]
    ensures CountsBefore(script, 0, 0, n) + [CountAt(script, 0, 0, n)] == [0] + RequestedCounts(script[..n])
  {
    assert script[..n + 1] == script[..n] + [script[n]];
    PathsAppend(script[..n], [script[n]]);
    if n > 0 {
      assert script[0..n - 1] + [script[n - 1]] == script[..n];
      RequestedCountsAppend(script[0..n - 1], [script[n - 1]]);
    }
  }

  /** After `n` clean retries, an attempt with no retry and no error returns its
      own file and transforms: `n + 1` files were allocated, exactly the first
      `n` deleted (each after its attempt's wait ended, and after every stream
      settled when the wait lets them all settle), the first source was tagged
      0 and every later one with the count the previous source asked for. */
  lemma SuccessAfterRetries(wait: Wait, script: seq<Attempt>, n: nat)
    requires n < |script|
    requires forall j | 0 <= j < n :: RetriesCleanly(script[j])
    requires SucceedsCleanly(script[n])
    ensures Download(wait, script).outcome == Success(script[n].path, script[n].transforms)
    ensures Allocated(Download(wait, script).log) == Paths(script[..n + 1])
    ensures Deleted(Download(wait, script).log) == Paths(script[..n])
    ensures Tags(Download(wait, script).log) == [0] + RequestedCounts(script[..n])
    ensures DeletesAfterWait(wait, script, Download(wait, script).log)
    ensures wait.AllSettled? ==> SettledBeforeDeleted(Download(wait, script).log)
  {
    if wait.AllSettled? {
      AllSettledClosesBeforeDeleting(script);
    }
    CleanRetries(wait, script, 0, 0, n);
    LastAttempt(wait, script, n, CountAt(script, 0, 0, n));
    SplitLast(script, n);
  }

  /** After `n` clean retries, an attempt with no retry but a retained error
      deletes its file and fails with exactly that error; every allocated file
      is gone. */
  lemma FailureAfterRetries(wait: Wait, script: seq<Attempt>, n: nat)
    requires n < |script|
    requires forall j | 0 <= j < n :: RetriesCleanly(script[j])
    requires script[n].setup.Prepared? && Watch(script[n].events) == Some(RetryOutcome(None))
    requires Retained(script[n].pipelineError, script[n].FinalizeError()).Some?
    requires script[n].unlinkError.None?
    ensures Download(wait, script).outcome == Failure(Retained(script[n].pipelineError, script[n].FinalizeError()).value)
    ensures Allocated(Download(wait, script).log) == Paths(script[..n + 1])
    ensures Deleted(Download(wait, script).log) == Paths(script[..n + 1])
  {
    CleanRetries(wait, script, 0, 0, n);
    var c := CountAt(script, 0, 0, n);
    LastAttempt(wait, script, n, c);
    StepProjections(wait, script, n, c);
    SplitLast(script, n);
  }

  /** A deletion that fails ends the call at once with the deletion's error: no
      further attempt is started and the failed attempt's file is left behind. */
  lemma DeletionFailureAborts(wait: Wait, script: seq<Attempt>, n: nat)
    requires n < |script|
    requires forall j | 0 <= j < n :: RetriesCleanly(script[j])
    requires script[n].setup.Prepared? && Watch(script[n].events).Some? && !SucceedsCleanly(script[n])
    requires script[n].unlinkError.Some?
    ensures Download(wait, script).outcome == Failure(script[n].unlinkError.value)
    ensures Allocated(Download(wait, script).log) == Paths(script[..n + 1])
    ensures Deleted(Download(wait, script).log) == Paths(script[..n])
  {
    CleanRetries(wait, script, 0, 0, n);
    var c := CountAt(script, 0, 0, n);
    LastAttempt(wait, script, n, c);
    StepProjections(wait, script, n, c);
    SplitLast(script, n);
  }

  /** A preparation call that throws ends the call at once with its error,
      before that attempt allocates a file; every earlier file is gone. */
  lemma SetupFailureAborts(wait: Wait, script: seq<Attempt>, n: nat)
    requires n < |script|
    requires forall j | 0 <= j < n :: RetriesCleanly(script[j])
    requires !script[n].setup.Prepared?
    ensures Download(wait, script).outcome == Failure(script[n].setup.error)
    ensures Allocated(Download(wait, script).log) == Paths(script[..n])
    ensures Deleted(Download(wait, script).log) == Paths(script[..n])
  {
    CleanRetries(wait, script, 0, 0, n);
    var c := CountAt(script, 0, 0, n);
    LastAttempt(wait, script, n, c);
    StepProjections(wait, script, n, c);
    assert Paths(script[0..n]) == Paths(script[..n]);
  }

  /** After `n` clean retries, an attempt that fails ends the call with its
      failure error, whichever of the three kinds it is. */
  lemma FailsAfterRetries(wait: Wait, script: seq<Attempt>, n: nat)
    requires n < |script|
    requires forall j | 0 <= j < n :: RetriesCleanly(script[j])
    requires Fails(script[n])
    ensures Download(wait, script).outcome == Failure(FailureError(script[n]))
  {
    CleanRetries(wait, script, 0, 0, n);
    LastAttempt(wait, script, n, CountAt(script, 0, 0, n));
  }

  /** Success happens only after a run of clean retries ends in an attempt with
      no retry and no error, and the result is that attempt's file and transforms. */
  lemma {:induction false} SuccessOnlyAfterCleanRetriesFrom(wait: Wait, script: seq<Attempt>, i: nat, count: int)
    requires i <= |script|
    requires Loop(wait, script, i, count).outcome.Success?
    ensures exists n | i <= n < |script| ::
      && (forall j | i <= j < n :: RetriesCleanly(script[j]))
      && SucceedsCleanly(script[n])
      && Loop(wait, script, i, count).outcome == Success(script[n].path, script[n].transforms)
    decreases |script| - i
  {
    var step := Step(wait, script[i], i, count);
    if step.decision.Stop? {
      assert SucceedsCleanly(script[i]);
    } else {
      var next := step.decision.retryCount;
      SuccessOnlyAfterCleanRetriesFrom(wait, script, i + 1, next);
      var n :| i + 1 <= n < |script|
        && (forall j | i + 1 <= j < n :: RetriesCleanly(script[j]))
        && SucceedsCleanly(script[n])
        && Loop(wait, script, i + 1, next).outcome == Success(script[n].path, script[n].transforms);
      assert RetriesCleanly(script[i]);
    }
  }

  /** The whole-call form: a call succeeds only as `SuccessAfterRetries` describes. */
  lemma SuccessOnlyAfterCleanRetries(wait: Wait, script: seq<Attempt>)
    requires Download(wait, script).outcome.Success?
    ensures exists n | 0 <= n < |script| ::
      && (forall j | 0 <= j < n :: RetriesCleanly(script[j]))
      && SucceedsCleanly(script[n])
      && Download(wait, script).outcome == Success(script[n].path, script[n].transforms)
  {
    SuccessOnlyAfterCleanRetriesFrom(wait, script, 0, 0);
  }

  /** Failure happens only after a run of clean retries ends in a failing
      attempt, and the error is that attempt's failure error. */
  lemma {:induction false} FailureOnlyAfterCleanRetriesFrom(wait: Wait, script: seq<Attempt>, i: nat, count: int)
    requires i <= |script|
    requires Loop(wait, script, i, count).outcome.Failure?
    ensures exists n | i <= n < |script| ::
      && (forall j | i <= j < n :: RetriesCleanly(script[j]))
      && Fails(script[n])
      && Loop(wait, script, i, count).outcome == Failure(FailureError(script[n]))
    decreases |script| - i
  {
    var step := Step(wait, script[i], i, count);
    if step.decision.Stop? {
      assert Fails(script[i]);
    } else {
      var next := step.decision.retryCount;
      FailureOnlyAfterCleanRetriesFrom(wait, script, i + 1, next);
      var n :| i + 1 <= n < |script|
        && (forall j | i + 1 <= j < n :: RetriesCleanly(script[j]))
        && Fails(script[n])
        && Loop(wait, script, i + 1, next).outcome == Failure(FailureError(script[n]));
      assert RetriesCleanly(script[i]);
    }
  }

  /** The whole-call form: a call fails only as `FailsAfterRetries` describes,
      with a preparation error, an unlink error, or the last attempt's retained error. */
  lemma FailureOnlyAfterCleanRetries(wait: Wait, script: seq<Attempt>)
    requires Download(wait, script).outcome.Failure?
    ensures exists n | 0 <= n < |script| ::
      && (forall j | 0 <= j < n :: RetriesCleanly(script[j]))
      && Fails(script[n])
      && Download(wait, script).outcome == Failure(FailureError(script[n]))
  {
    FailureOnlyAfterCleanRetriesFrom(wait, script, 0, 0);
  }

  /** A retry request tags the very next attempt's source with the requested
      count, right after the retried attempt's file was deleted. */
  lemma RetryTagsNextAttempt(wait: Wait, script: seq<Attempt>, i: nat, count: int)
    requires i + 1 < |script| && script[i + 1].setup.TagsSource()
    requires Step(wait, script[i], i, count).decision.Again?
    ensures |Loop(wait, script, i, count).log| > 4
    ensures Loop(wait, script, i, count).log[3] == Delete(i, script[i].path)
    ensures Loop(wait, script, i, count).log[4] == Tag(i + 1, Step(wait, script[i], i, count).decision.retryCount)
  {
    var step := Step(wait, script[i], i, count);
    var rest := Loop(wait, script, i + 1, step.decision.retryCount);
    LoopCleansUp(wait, script, i + 1, step.decision.retryCount);
    assert Loop(wait, script, i, count).log == step.effects + rest.log;
  }
}
