/** The attempt loop of `downloadToTempFile`.  Each iteration prepares the
    transforms and a fresh source, tags the source with the current retry
    count, allocates a temp file, runs the stream pipeline, waits for every
    stream to finish, then asks the retry bridge whether the source restarted.
    It returns the temp file, deletes it and throws, or deletes it and goes
    round again with the new count.

    The streams themselves are abstracted: a script lists, per attempt, what
    the outside world did (whether a preparation call threw, which errors the
    pipeline and the finalisation wait produced, which events the source
    emitted, which path the temp file got, whether deleting it failed). */
module AttemptLoop {
  import opened Wrappers
  import opened RetryBridge
  import opened EffectLog

  /** An opaque handle to one transform stream. */
  datatype Transform = Transform(id: nat)

  /** An error value a promise rejected with. */
  datatype Error = Error(message: string)

  /** Whether the calls that prepare an attempt returned or threw: the
      transform factory, the request factory, and the temp-file allocation,
      which runs after the source was tagged. */
  datatype Setup =
    | Prepared
    | TransformsThrew(error: Error)
    | RequestThrew(error: Error)
    | TempFileThrew(error: Error)
  {
    /** The source was created and tagged with the retry count before anything threw. */
    predicate TagsSource()
    {
      Prepared? || TempFileThrew?
    }
  }

  /** What the outside world did during one attempt. */
  datatype Attempt = Attempt(
    setup: Setup,                        // whether the factories and the temp-file allocation threw
    transforms: Option<seq<Transform>>,  // `createTransforms?.()`: None when no factory was given
    events: seq<SourceEvent>,            // the source's events, in emission order
    path: Path,                          // the temp file's path
    pipelineError: Option<Error>,        // rejection of the stream pipeline, if any
    finishes: seq<Finish>,               // how each stream's `finished` settled, in settling order
    unlinkError: Option<Error>)          // rejection of deleting the temp file, were it asked for
  {
    /** The rejection the wait for the streams reports: the first `finished` to reject. */
    function FinalizeError(): Option<Error>
    {
      match FirstRejection(finishes)
      case None => None
      case Some(k) => Some(finishes[k].error)
    }
  }

  /** How the loop waits for its streams to finish.  `FailFast` is `Promise.all`
      over the streams' `finished` promises: it rejects at the first rejection
      without waiting for the other streams.  `AllSettled` waits until every
      stream's `finished` has settled, then reports the first rejection. */
  datatype Wait = FailFast | AllSettled

  /** How one stream's `finished` promise settled. */
  datatype Finish = Resolved | Rejected(error: Error)

  /** The position of the first rejection among results listed in settling order. */
  function FirstRejection(finishes: seq<Finish>): (r: Option<nat>)
    ensures r.Some? ==> r.value < |finishes| && finishes[r.value].Rejected?
  {
    if |finishes| == 0 then None
    else if finishes[0].Rejected? then Some(0)
    else
      match FirstRejection(finishes[1..])
      case None => None
      case Some(k) => Some(k + 1)
  }

  /** How the wait for the streams ended: the rejection it reports, if any, and
      how many streams' `finished` had not settled yet when it ended. */
  datatype WaitOutcome = WaitOutcome(error: Option<Error>, unsettled: nat)

  /** The wait over the streams' `finished` results, given in settling order.
      A fail-fast wait ends at the first rejection; an all-settled wait ends
      after the last result.  Both report the first rejection. */
  function WaitFor(wait: Wait, finishes: seq<Finish>): WaitOutcome
  {
    match FirstRejection(finishes)
    case None => WaitOutcome(None, 0)
    case Some(k) =>
      var error := Some(finishes[k].error);
      if wait.AllSettled? then WaitOutcome(error, 0) else WaitOutcome(error, |finishes| - (k + 1))
  }

  /** `FirstRejection` finds a rejection, and no earlier one; `None` means every result resolved. */
  lemma {:induction false} FirstRejectionIsFirst(finishes: seq<Finish>)
    ensures var r := FirstRejection(finishes);
      && (r.Some? ==> finishes[r.value].Rejected? && forall j | 0 <= j < r.value :: finishes[j].Resolved?)
      && (r.None? ==> forall j | 0 <= j < |finishes| :: finishes[j].Resolved?)
    decreases |finishes|
  {
    if |finishes| > 0 && finishes[0].Resolved? {
      FirstRejectionIsFirst(finishes[1..]);
      forall j | 1 <= j < |finishes|
        ensures finishes[j] == finishes[1..][j - 1]
      {
      }
    }
  }

  /** What each wait guarantees about the streams when it ends. */
  lemma WaitGuarantees(wait: Wait, finishes: seq<Finish>)
    ensures var r := WaitFor(wait, finishes);
      // the wait rejects exactly when some stream's `finished` rejected, and then with a rejection that occurred
      && (r.error.None? <==> forall j | 0 <= j < |finishes| :: finishes[j].Resolved?)
      && (r.error.Some? ==> Rejected(r.error.value) in finishes)
      // a wait that resolves, and an all-settled wait, saw every stream settle
      && (r.error.None? || wait.AllSettled? ==> r.unsettled == 0)
      // a fail-fast wait that rejects ends at the first rejection; every later result is still pending
      && (wait.FailFast? && r.error.Some? ==>
            && r.unsettled < |finishes|
            && finishes[|finishes| - 1 - r.unsettled] == Rejected(r.error.value)
            && forall j | 0 <= j < |finishes| - 1 - r.unsettled :: finishes[j].Resolved?)
      // so a stream is left pending exactly when a fail-fast wait meets a rejection before the last result
      && (r.unsettled > 0 <==> wait.FailFast? && exists k | 0 <= k < |finishes| - 1 :: finishes[k].Rejected?)
  {
    FirstRejectionIsFirst(finishes);
  }

  /** How the call ends.  `Stalled`: the bridge never settles, so the call
      never returns.  `ScriptExhausted`: the loop wants another attempt but the
      script has none left. */
  datatype Outcome =
    | Success(filePath: Path, transforms: Option<seq<Transform>>)
    | Failure(error: Error)
    | Stalled
    | ScriptExhausted

  /** The end of one iteration: stop with an outcome, or loop with a retry count. */
  datatype Decision = Stop(outcome: Outcome) | Again(retryCount: int)

  datatype StepResult = StepResult(decision: Decision, effects: seq<Effect>)

  /** A whole call: how it ended and everything it did on the way. */
  datatype Run = Run(outcome: Outcome, log: seq<Effect>)

  /** JavaScript's `x ??= y` on an optional error. */
  function NullishAssign(current: Option<Error>, incoming: Option<Error>): Option<Error>
  {
    if current.None? then incoming else current
  }

  /** The error an attempt keeps: `pipelineError` starts undefined, takes the
      pipeline's rejection, then `??=` the finalisation wait's rejection. */
  function Retained(pipelineError: Option<Error>, finalizeError: Option<Error>): (r: Option<Error>)
    ensures pipelineError.Some? ==> r == pipelineError
    ensures pipelineError.None? ==> r == finalizeError
    ensures r.None? <==> pipelineError.None? && finalizeError.None?
  {
    var afterPipeline := NullishAssign(None, pipelineError);
    NullishAssign(afterPipeline, finalizeError)
  }

  /** The log entry for the end of attempt `i`'s wait for its streams. */
  function WaitEnd(wait: Wait, a: Attempt, i: nat): Effect
  {
    Finalize(i, WaitFor(wait, a.finishes).unsettled == 0)
  }

  /** The effects of a prepared attempt up to the point where the decision is taken. */
  function Opening(wait: Wait, a: Attempt, i: nat, count: int): seq<Effect>
  {
    [Tag(i, count), Allocate(i, a.path), WaitEnd(wait, a, i)]
  }

  /** One iteration of the loop: attempt number `i`, its source tagged with `count`. */
  function Step(wait: Wait, a: Attempt, i: nat, count: int): (r: StepResult)
    // a preparation call that throws ends the call with its error before any file exists
    ensures !a.setup.Prepared? ==> r.decision == Stop(Failure(a.setup.error))
    ensures !a.setup.Prepared? ==> r.effects == if a.setup.TagsSource() then [Tag(i, count)] else []
    // otherwise the source is tagged, the file allocated, and the streams waited for before any decision
    ensures a.setup.Prepared? ==> |r.effects| >= 3 && r.effects[..3] == Opening(wait, a, i, count)
    ensures a.setup.Prepared? ==> |r.effects| == 3 || r.effects == Opening(wait, a, i, count) + [Delete(i, a.path)]
    // success exactly when the bridge said "no retry" and no error was retained; the file is kept
    ensures r.decision == Stop(Success(a.path, a.transforms))
      <==> a.setup.Prepared? && Watch(a.events) == Some(RetryOutcome(None)) && Retained(a.pipelineError, a.FinalizeError()).None?
    ensures r.decision.Stop? && r.decision.outcome.Success? ==> |r.effects| == 3
    // a retry request overrides any error and loops with the requested count
    ensures r.decision.Again?
      <==> a.setup.Prepared? && Watch(a.events).Some? && Watch(a.events).value.retryCount.Some? && a.unlinkError.None?
    ensures r.decision.Again? ==> r.decision.retryCount == Watch(a.events).value.retryCount.value
    // no retry and a retained error: delete the file, then fail with exactly that error
    ensures a.setup.Prepared? && Watch(a.events) == Some(RetryOutcome(None))
      && Retained(a.pipelineError, a.FinalizeError()).Some? && a.unlinkError.None?
      ==> r.decision == Stop(Failure(Retained(a.pipelineError, a.FinalizeError()).value)) && |r.effects| == 4
    // the file is deleted exactly when the attempt is left and the deletion succeeds
    ensures |r.effects| == 4
      <==> a.setup.Prepared? && (r.decision.Again? || (r.decision.Stop? && r.decision.outcome.Failure? && a.unlinkError.None?))
    // a failed deletion aborts the whole call with that error
    ensures a.setup.Prepared? && a.unlinkError.Some? && Watch(a.events).Some? && r.decision != Stop(Success(a.path, a.transforms))
      ==> r.decision == Stop(Failure(a.unlinkError.value))
    // a bridge that never settles leaves the call waiting forever
    ensures a.setup.Prepared? && Watch(a.events).None? ==> r.decision == Stop(Stalled) && |r.effects| == 3
  {
    match a.setup
    case TransformsThrew(e) => StepResult(Stop(Failure(e)), [])
    case RequestThrew(e) => StepResult(Stop(Failure(e)), [])
    case TempFileThrew(e) => StepResult(Stop(Failure(e)), [Tag(i, count)])
    case Prepared =>
      var prelude := Opening(wait, a, i, count);
      var error := Retained(a.pipelineError, a.FinalizeError());
      match Watch(a.events)
      case None => StepResult(Stop(Stalled), prelude)
      case Some(outcome) =>
        if outcome.retryCount.None? && error.None? then
          StepResult(Stop(Success(a.path, a.transforms)), prelude)
        else if a.unlinkError.Some? then
          StepResult(Stop(Failure(a.unlinkError.value)), prelude)
        else if outcome.retryCount.None? then
          StepResult(Stop(Failure(error.value)), prelude + [Delete(i, a.path)])
        else
          StepResult(Again(outcome.retryCount.value), prelude + [Delete(i, a.path)])
  }

  /** What the part of a prepared iteration before its decision contributes to the log's projections. */
  lemma OpeningProjections(wait: Wait, a: Attempt, i: nat, count: int)
    ensures Allocated(Opening(wait, a, i, count)) == [a.path]
    ensures Tags(Opening(wait, a, i, count)) == [count]
    ensures Deleted(Opening(wait, a, i, count)) == []
  {
    var e := Opening(wait, a, i, count);
    assert e[1..][1..][1..] == [];
    assert e[1..][1..] == [WaitEnd(wait, a, i)];
    assert Allocated(e[1..][1..]) == [] && Tags(e[1..][1..]) == [] && Deleted(e[1..][1..]) == [];
  }

  /** Every deletion is of a file its attempt allocated, and follows the end of
      that attempt's wait for its streams, as `WaitEnd` records it: whether
      any stream was still pending then follows from `WaitFor`. */
  predicate DeletesAfterWait(wait: Wait, script: seq<Attempt>, log: seq<Effect>)
  {
    forall k | 0 <= k < |log| && log[k].Delete? ::
      && log[k].attempt < |script|
      && WaitEnd(wait, script[log[k].attempt], log[k].attempt) in log[..k]
      && Allocate(log[k].attempt, log[k].path) in log[..k]
  }

  /** Appending a well-ordered log to a well-ordered log keeps it well ordered. */
  lemma DeletesAfterWaitAppend(wait: Wait, script: seq<Attempt>, a: seq<Effect>, b: seq<Effect>)
    requires DeletesAfterWait(wait, script, a)
    requires DeletesAfterWait(wait, script, b)
    ensures DeletesAfterWait(wait, script, a + b)
  {
    var ab := a + b;
    forall k | 0 <= k < |ab| && ab[k].Delete?
      ensures && ab[k].attempt < |script|
              && WaitEnd(wait, script[ab[k].attempt], ab[k].attempt) in ab[..k]
              && Allocate(ab[k].attempt, ab[k].path) in ab[..k]
    {
      if k < |a| {
        assert ab[..k] == a[..k];
        assert ab[k] == a[k];
      } else {
        var j := k - |a|;
        assert ab[k] == b[j];
        assert ab[..k] == a + b[..j];
      }
    }
  }

  /** What one iteration contributes to the projections of the log. */
  lemma StepProjections(wait: Wait, script: seq<Attempt>, i: nat, count: int)
    requires i < |script|
    ensures var a, e := script[i], Step(wait, script[i], i, count).effects;
      && Allocated(e) == (if a.setup.Prepared? then [a.path] else [])
      && Tags(e) == (if a.setup.TagsSource() then [count] else [])
      && Deleted(e) == (if |e| == 4 then [a.path] else [])
      && DeletesAfterWait(wait, script, e)
  {
    var a := script[i];
    var e := Step(wait, a, i, count).effects;
    if !a.setup.Prepared? {
      if a.setup.TagsSource() {
        assert e[1..] == [];
      }
    } else {
      var opening := Opening(wait, a, i, count);
      OpeningProjections(wait, a, i, count);
      if |e| == 3 {
        assert e == opening;
      } else {
        var deletion := [Delete(i, a.path)];
        assert e == opening + deletion;
        ProjectionsAppend(opening, deletion);
        assert Allocated(deletion) == [] && Tags(deletion) == [] && Deleted(deletion) == [a.path];
        assert e[..3] == opening;
      }
    }
  }

  /** The temp-file paths of a run of attempts, in order. */
  function Paths(attempts: seq<Attempt>): (r: seq<Path>)
    ensures |r| == |attempts|
  {
    if |attempts| == 0 then [] else [attempts[0].path] + Paths(attempts[1..])
  }

  /** The files a log allocated are those of consecutive attempts from `i` on, one each. */
  predicate OneFilePerAttempt(script: seq<Attempt>, i: nat, log: seq<Effect>)
    requires i <= |script|
  {
    && i + |Allocated(log)| <= |script|
    && Allocated(log) == Paths(script[i..i + |Allocated(log)|])
  }

  /** Every file a log allocated was deleted, except possibly the last one. */
  predicate AllButLastDeleted(log: seq<Effect>)
  {
    && |Allocated(log)| - 1 <= |Deleted(log)| <= |Allocated(log)|
    && Deleted(log) == Allocated(log)[..|Deleted(log)|]
  }

  /** An iteration that loops again, followed by a well-behaved rest of the run,
      gives a well-behaved run. */
  lemma AgainThenRest(wait: Wait, script: seq<Attempt>, i: nat, effects: seq<Effect>, rest: Run)
    requires i < |script|
    requires Allocated(effects) == [script[i].path] && Deleted(effects) == [script[i].path]
    requires DeletesAfterWait(wait, script, effects)
    requires DeletesAfterWait(wait, script, rest.log)
    requires OneFilePerAttempt(script, i + 1, rest.log)
    requires AllButLastDeleted(rest.log)
    requires rest.outcome.Success? ==> Allocated(rest.log) == Deleted(rest.log) + [rest.outcome.filePath]
    requires rest.outcome.ScriptExhausted? ==> Allocated(rest.log) == Deleted(rest.log)
    ensures DeletesAfterWait(wait, script, effects + rest.log)
    ensures OneFilePerAttempt(script, i, effects + rest.log)
    ensures AllButLastDeleted(effects + rest.log)
    ensures rest.outcome.Success? ==> Allocated(effects + rest.log) == Deleted(effects + rest.log) + [rest.outcome.filePath]
    ensures rest.outcome.ScriptExhausted? ==> Allocated(effects + rest.log) == Deleted(effects + rest.log)
  {
    DeletesAfterWaitAppend(wait, script, effects, rest.log);
    ProjectionsAppend(effects, rest.log);
    assert OneFilePerAttempt(script, i, effects + rest.log) by {
      var n := |Allocated(rest.log)|;
      assert script[i..i + 1 + n] == [script[i]] + script[i + 1..i + 1 + n];
      assert Paths([script[i]] + script[i + 1..i + 1 + n]) == [script[i].path] + Paths(script[i + 1..i + 1 + n]);
    }
  }

  /** `AgainThenRest`, stated with the cleanup invariant of both runs. */
  lemma AgainCleansUp(wait: Wait, script: seq<Attempt>, i: nat, count: int, next: int, effects: seq<Effect>, rest: Run)
    requires i < |script| && script[i].setup.Prepared?
    requires |effects| >= 3 && effects[0] == Tag(i, count) && effects[1] == Allocate(i, script[i].path)
    requires Allocated(effects) == [script[i].path] && Deleted(effects) == [script[i].path]
    requires DeletesAfterWait(wait, script, effects)
    requires CleansUp(wait, script, i + 1, next, rest)
    ensures CleansUp(wait, script, i, count, Run(rest.outcome, effects + rest.log))
  {
    AgainThenRest(wait, script, i, effects, rest);
  }

  /** The loop from attempt `i` on, the source of attempt `i` tagged with `count`. */
  function Loop(wait: Wait, script: seq<Attempt>, i: nat, count: int): Run
    requires i <= |script|
    decreases |script| - i
  {
    if i == |script| then Run(ScriptExhausted, [])
    else
      var step := Step(wait, script[i], i, count);
      match step.decision
      case Stop(outcome) => Run(outcome, step.effects)
      case Again(next) =>
        var rest := Loop(wait, script, i + 1, next);
        Run(rest.outcome, step.effects + rest.log)
  }

  /** The cleanup invariant of a run from attempt `i` on: one temp file per
      attempt, every one of them deleted except possibly the last, and never
      before its attempt's wait for its streams ended.  A successful run keeps
      exactly its own file; a run that ran out of attempts kept none.  The
      first attempt's source is tagged first, and its file allocated next. */
  predicate CleansUp(wait: Wait, script: seq<Attempt>, i: nat, count: int, r: Run)
    requires i <= |script|
  {
    && DeletesAfterWait(wait, script, r.log)
    && OneFilePerAttempt(script, i, r.log)
    && AllButLastDeleted(r.log)
    && (r.outcome.Success? ==> Allocated(r.log) == Deleted(r.log) + [r.outcome.filePath])
    && (r.outcome.ScriptExhausted? ==> Allocated(r.log) == Deleted(r.log))
    && (i < |script| && script[i].setup.TagsSource() ==> |r.log| >= 1 && r.log[0] == Tag(i, count))
    && (i < |script| && script[i].setup.Prepared? ==> |r.log| >= 3 && r.log[1] == Allocate(i, script[i].path))
  }

  /** An iteration that ends the call allocates at most its own file, so its
      files are those of the attempts from `i` on, all but possibly the last deleted. */
  lemma StopFiles(script: seq<Attempt>, i: nat, effects: seq<Effect>)
    requires i < |script|
    requires Allocated(effects) == [] || Allocated(effects) == [script[i].path]
    requires Deleted(effects) == [] || Deleted(effects) == Allocated(effects)
    ensures OneFilePerAttempt(script, i, effects)
    ensures AllButLastDeleted(effects)
  {
    if Allocated(effects) == [] {
      assert script[i..i] == [];
    } else {
      assert script[i..i + 1] == [script[i]];
    }
  }

  /** The effects of an iteration that ends the call, when they allocate at most
      the attempt's own file and delete only that, form a well-behaved run. */
  lemma StopThenDone(wait: Wait, script: seq<Attempt>, i: nat, count: int, outcome: Outcome, effects: seq<Effect>)
    requires i < |script|
    requires DeletesAfterWait(wait, script, effects)
    requires Allocated(effects) == if script[i].setup.Prepared? then [script[i].path] else []
    requires Deleted(effects) == [] || Deleted(effects) == Allocated(effects)
    requires outcome.Success? ==> Allocated(effects) == [outcome.filePath] && Deleted(effects) == []
    requires !outcome.ScriptExhausted?
    requires script[i].setup.TagsSource() ==> |effects| >= 1 && effects[0] == Tag(i, count)
    requires script[i].setup.Prepared? ==> |effects| >= 3 && effects[1] == Allocate(i, script[i].path)
    ensures CleansUp(wait, script, i, count, Run(outcome, effects))
  {
    StopFiles(script, i, effects);
  }

  /** An attempt that ends the call keeps the invariant. */
  lemma StopCleansUp(wait: Wait, script: seq<Attempt>, i: nat, count: int)
    requires i < |script|
    requires Step(wait, script[i], i, count).decision.Stop?
    ensures CleansUp(wait, script, i, count, Loop(wait, script, i, count))
  {
    var step := Step(wait, script[i], i, count);
    assert Loop(wait, script, i, count) == Run(step.decision.outcome, step.effects);
    StepProjections(wait, script, i, count);
    StopThenDone(wait, script, i, count, step.decision.outcome, step.effects);
  }

  /** An attempt that loops again, followed by a rest of the run that keeps the
      invariant, keeps the invariant. */
  lemma AgainKeepsCleanUp(wait: Wait, script: seq<Attempt>, i: nat, count: int)
    requires i < |script|
    requires Step(wait, script[i], i, count).decision.Again?
    requires var next := Step(wait, script[i], i, count).decision.retryCount;
      CleansUp(wait, script, i + 1, next, Loop(wait, script, i + 1, next))
    ensures CleansUp(wait, script, i, count, Loop(wait, script, i, count))
  {
    var step := Step(wait, script[i], i, count);
    var next := step.decision.retryCount;
    var rest := Loop(wait, script, i + 1, next);
    assert Loop(wait, script, i, count) == Run(rest.outcome, step.effects + rest.log);
    StepProjections(wait, script, i, count);
    AgainCleansUp(wait, script, i, count, next, step.effects, rest);
  }

  /** The loop keeps the cleanup invariant, whatever the attempts do. */
  lemma {:induction false} LoopCleansUp(wait: Wait, script: seq<Attempt>, i: nat, count: int)
    requires i <= |script|
    ensures CleansUp(wait, script, i, count, Loop(wait, script, i, count))
    decreases |script| - i
  {
    if i < |script| {
      var step := Step(wait, script[i], i, count);
      if step.decision.Again? {
        LoopCleansUp(wait, script, i + 1, step.decision.retryCount);
        AgainKeepsCleanUp(wait, script, i, count);
      } else {
        StopCleansUp(wait, script, i, count);
      }
    }
  }


  /** `downloadToTempFile`, with the code's fail-fast wait (`FailFast`) or a
      wait that lets every stream settle (`AllSettled`).  The first attempt's
      source is tagged 0 before its file is allocated.  Whatever happens, no
      file is deleted before its attempt's wait ended, the files allocated are
      the attempts' own in order, and all but possibly the last are deleted; a
      successful call returns the one file left. */
  function Download(wait: Wait, script: seq<Attempt>): (r: Run)
    ensures DeletesAfterWait(wait, script, r.log)
    ensures OneFilePerAttempt(script, 0, r.log)
    ensures AllButLastDeleted(r.log)
    ensures r.outcome.Success? ==> Allocated(r.log) == Deleted(r.log) + [r.outcome.filePath]
    ensures r.outcome.ScriptExhausted? ==> Allocated(r.log) == Deleted(r.log)
    ensures |script| > 0 && script[0].setup.TagsSource() ==> |r.log| >= 1 && r.log[0] == Tag(0, 0)
    ensures |script| > 0 && script[0].setup.Prepared? ==> |r.log| >= 3 && r.log[1] == Allocate(0, script[0].path)
  {
    LoopCleansUp(wait, script, 0, 0);
    Loop(wait, script, 0, 0)
  }

  /** As written, the wait is fail-fast: when one stream's `finished` rejects
      before the last one settles, the attempt can go on to delete its temp
      file without having waited for every stream, so another stream may still
      hold the file open. */
  lemma FailFastMayDeleteUnsettled(script: seq<Attempt>)
    requires |script| > 0 && script[0].setup.Prepared?
    requires exists k | 0 <= k < |script[0].finishes| - 1 :: script[0].finishes[k].Rejected?
    requires script[0].unlinkError.None?
    requires Watch(script[0].events).Some?
    ensures |Download(FailFast, script).log| >= 4
    ensures Download(FailFast, script).log[3] == Delete(0, script[0].path)
    ensures !SettledBeforeDeleted(Download(FailFast, script).log)
  {
    var a := script[0];
    WaitGuarantees(FailFast, a.finishes);
    var step := Step(FailFast, a, 0, 0);
    var log := Download(FailFast, script).log;
    assert |step.effects| == 4;
    assert log[..4] == step.effects by {
      if step.decision.Again? {
        assert log == step.effects + Loop(FailFast, script, 1, step.decision.retryCount).log;
      }
    }
    assert log[3] == Delete(0, a.path);
    assert log[..3] == [Tag(0, 0), Allocate(0, a.path), Finalize(0, false)];
    assert Finalize(0, true) !in log[..3];
  }

  /** With a wait that lets every stream settle, no temp file is deleted while
      one of its attempt's streams may still hold it open. */
  lemma AllSettledClosesBeforeDeleting(script: seq<Attempt>)
    ensures SettledBeforeDeleted(Download(AllSettled, script).log)
  {
    var log := Download(AllSettled, script).log;
    forall k | 0 <= k < |log| && log[k].Delete?
      ensures Finalize(log[k].attempt, true) in log[..k]
    {
      assert WaitEnd(AllSettled, script[log[k].attempt], log[k].attempt) == Finalize(log[k].attempt, true);
    }
  }
}
