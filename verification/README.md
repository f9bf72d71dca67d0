# got-to-temp: the retry-aware download loop, modelled in Dafny

`downloadToTempFile` streams a retryable request (a `got` stream) through
optional transform streams into a fresh temporary file. The stream may decide
on its own to restart. In that case it emits a `retry` event that carries the
next retry count. The function then throws the partial file away and starts
a new attempt. This project models the two decision rules inside that
function and proves what they promise:

- **Retry signal bridge** (`watchGotStreamRetry`, module `RetryBridge` in
  `retry_bridge.dfy`). The source's `retry`, `close` and `end` events are
  replayed in order through the listeners the code registers. These are
  `once` listeners, a `cleanup` that detaches all of them, and a promise whose
  `resolve` only counts the first time. `Watch` is that replay.
  `FirstEventOutcome` is the rule "the first event decides". A `retry`
  argument of `null` or `undefined` becomes "no retry" (`?? undefined`).
  Listing no events means the promise never settles.
- **Attempt loop** (`downloadToTempFile`, modules `AttemptLoop` in
  `attempt_loop.dfy` and `AttemptLoopProperties` in `attempt_properties.dfy`).
  Each attempt is scripted by what the outside world did: whether
  `createTransforms`, `createStreamRequest` or `temp.createWriteStream`
  threw, the source's events, the temp file's path, the pipeline's
  rejection, how each stream's `finished` settled (in settling order), and
  the rejection of the unlink. `Step` is one iteration. `Loop` / `Download` run
  a finite script of attempts. Both produce an effect log (module `EffectLog`
  in `effect_log.dfy`) with four kinds of entry: the retry count each source
  was tagged with, each temp file allocated, the end of an attempt's wait for
  its streams, and each temp file deleted. The wait entry records whether
  any stream's `finished` was still pending when the wait ended; this is
  derived from the settling order and the wait mode.
- **Wait mode.** The loop is parameterised by how it waits for its streams.
  `FailFast` is the code's `Promise.all` (src/index.ts:70-72): it ends at
  the first rejection, or after the last result when nothing rejects.
  `AllSettled` is a wait that always ends after the last result. Both
  report the first rejection to settle (`WaitFor`). The loop's properties are proved for both modes. The modes
  differ only in whether a temp file can be deleted while a stream may still
  hold it open (see "## Findings").

One might expect the bridge to detach every listener on whichever event
fires first. `onRetry` does not do this: it resolves without calling
`cleanup`, so the `close` and `end` listeners stay attached until the source
closes or ends. The model follows the code
(`RetryBridge.RetryLeavesCloseAndEndAttached`). The promise's value is the
same either way.

The loop passes `retryCount` to `watchGotStreamRetry`, whose parameter
defaults to 0. That default never takes effect, because the loop only goes
round again when the bridge returned a defined count. The model therefore
tags every source with the loop's integer count.

## Model

| member | source | states |
|---|---|---|
| RetryBridge.Coalesce | src/index.ts:110-113 | a retry argument gives a count exactly when it is a number, and then that number |
| RetryBridge.FirstEventOutcome | src/index.ts:108-128 | the reference rule: no event means no decision; a first `retry` decides its coalesced count; a first `close`/`end` decides "no retry" |
| RetryBridge.SettledIsFinal | src/index.ts:108-124 | once the promise has a value, no later event changes it (`resolve` counts only once) |
| RetryBridge.WatchIsFirstEvent | src/index.ts:106-130 | replaying the events through the registered listeners gives exactly the first-event rule |
| RetryBridge.LaterEventsIgnored | src/index.ts:108-128 | appending events after the first never changes the bridge's outcome |
| RetryBridge.NullishRetryMeansNoRetry | src/index.ts:110-113 | a `retry` with a `null`/`undefined` count gives "no retry", the same as a `close` or an `end` with the same continuation |
| RetryBridge.RetryBeforeCloseWins | src/index.ts:109-114 | a numeric `retry` emitted before the close yields that count, whatever follows |
| RetryBridge.CloseOrEndDetachesAll | src/index.ts:116-128 | a first `close` or `end` leaves no listener attached, whatever events follow |
| RetryBridge.NothingAttachedStays | src/index.ts:116-119 | once every listener is detached, further events change nothing |
| RetryBridge.RetryLeavesCloseAndEndAttached | src/index.ts:110-119 | after a `retry` only the retry listener is gone; a later `close` detaches the rest |
| AttemptLoop.Retained | src/index.ts:59-75 | the pipeline's error wins over the finalisation error; the finalisation error is kept only when the pipeline succeeded; no error only when neither failed |
| AttemptLoop.FirstRejectionIsFirst | src/index.ts:70-74 | the rejection found is one that occurred, with only resolutions before it; finding none means every `finished` resolved |
| AttemptLoop.WaitGuarantees | src/index.ts:66-75 | both waits reject exactly when some stream's `finished` rejected, with a rejection that occurred; a wait that resolves, and an all-settled wait, leave no stream pending; a rejecting fail-fast wait ends at the first rejection with every later result still pending; so a stream is left pending exactly when a fail-fast wait meets a rejection before the last result |
| AttemptLoop.Step | src/index.ts:37-94 | a throwing `createTransforms`/`createStreamRequest` fails with its error and does nothing else; a throwing `temp.createWriteStream` fails with its error after only tagging the source; otherwise an iteration tags, allocates and waits before it decides; it succeeds exactly on "no retry" with no retained error, keeping its file; a retry request loops with the requested count whatever the errors were; "no retry" plus an error deletes the file and fails with exactly that error; a failed unlink fails with the unlink's error and deletes nothing; a bridge that never settles stalls |
| AttemptLoop.StepProjections | src/index.ts:39-89 | one iteration allocates its own file exactly when its preparation succeeded, tags its count exactly when the source was created, deletes its file only when it leaves the attempt, and deletes only after its allocation and the end of its wait |
| AttemptLoop.StopCleansUp | src/index.ts:80-94 | an iteration that ends the call keeps the cleanup invariant |
| AttemptLoop.LoopCleansUp | src/index.ts:37-95 | for every script and wait mode: each deletion follows its attempt's allocation and the log entry for the end of its wait; the allocated files are the attempts' own, in order, one per attempt; all are deleted except possibly the last; success keeps exactly the returned file; an exhausted script keeps none |
| AttemptLoop.Download | src/index.ts:28-95 | the whole call keeps the cleanup invariant; its first attempt's source is tagged 0 unless a factory threw, and its file is allocated next when preparation succeeded |
| AttemptLoop.FailFastMayDeleteUnsettled | src/index.ts:66-89 | with the code's fail-fast wait, an attempt where some stream's `finished` rejects before the last one settles, and whose bridge settles, deletes its file without having waited for every stream to settle |
| AttemptLoop.AllSettledClosesBeforeDeleting | src/index.ts:66-89 | with a wait that lets every stream settle, every deletion comes after a wait that left none of that attempt's streams pending |
| AttemptLoopProperties.AgainUnfolds | src/index.ts:78-95 | an attempt whose source asked for a retry and whose file was deleted goes on to the next attempt with the requested count, whatever errors it had |
| AttemptLoopProperties.CleanRetriesLog | src/index.ts:37-95 | a run of clean retries contributes one block per attempt (tag, allocate, end of wait, delete), then hands over to the next attempt with the last requested count |
| AttemptLoopProperties.RetryLogFiles | src/index.ts:48-89 | those blocks allocate, and then delete, exactly the retried attempts' own files, in order |
| AttemptLoopProperties.RetryLogTags | src/index.ts:42-45 | those blocks tag each source with the count its predecessor asked for |
| AttemptLoopProperties.CleanRetries | src/index.ts:37-95 | a run of clean retries does not change how the call ends, and adds exactly its own allocated-and-deleted files and its tags |
| AttemptLoopProperties.SuccessAfterRetries | src/index.ts:35-89 | after N clean retries, a clean attempt returns its own path and transforms; N+1 files were allocated, exactly the first N deleted, each after its attempt's wait ended (and after every stream settled, for an all-settled wait); the tags are 0 and then the requested counts |
| AttemptLoopProperties.FailureAfterRetries | src/index.ts:88-94 | after N clean retries, "no retry" plus a retained error fails with exactly that error, and every allocated file has been deleted |
| AttemptLoopProperties.DeletionFailureAborts | src/index.ts:88-89 | a failing unlink ends the call with the unlink's error; no further attempt is started, and only the failed attempt's file is left |
| AttemptLoopProperties.SetupFailureAborts | src/index.ts:39-48 | a throwing preparation call ends the call with its error before that attempt allocates a file; every earlier file has been deleted |
| AttemptLoopProperties.FailsAfterRetries | src/index.ts:37-94 | after N clean retries, a failing attempt ends the call with its preparation error, else its unlink error, else its retained error |
| AttemptLoopProperties.SuccessOnlyAfterCleanRetriesFrom | src/index.ts:80-86 | from any attempt on, success is only reached through clean retries followed by a clean attempt, and returns that attempt's path and transforms |
| AttemptLoopProperties.SuccessOnlyAfterCleanRetries | src/index.ts:80-86 | the converse of `SuccessAfterRetries` for a whole call |
| AttemptLoopProperties.FailureOnlyAfterCleanRetriesFrom | src/index.ts:37-94 | from any attempt on, failure is only reached through clean retries followed by a failing attempt, and carries that attempt's preparation, unlink or retained error |
| AttemptLoopProperties.FailureOnlyAfterCleanRetries | src/index.ts:37-94 | the converse of `FailsAfterRetries` for a whole call: a caller only ever sees the last attempt's error or a deletion error |
| AttemptLoopProperties.RetryTagsNextAttempt | src/index.ts:42-45 | after a retry, the entry after the deletion of the attempt's file is the next source's tag, carrying the requested count |

## Left out

- Node streams, `stream.pipeline`, `stream.finished`, `temp.createWriteStream`,
  `fs.unlink` and `promisify` (src/index.ts:1-8, 48, 61, 71, 89) are foreign
  I/O. Each attempt's script entry stands for what they did: which errors
  occurred, which events were emitted, which path was allocated, and whether
  the unlink failed.
- Timing and concurrency: the events are an ordered list, and the first
  position wins the race. The bridge is read after the finalisation wait, as
  in the code.
- Byte contents and what transforms compute, including the claim that "no
  transforms" behaves like an identity transform. Transform handles are
  opaque and only passed through.
- The unbounded `while (true)`: the script is finite. `ScriptExhausted`
  stands for "the loop would start another attempt, but the script has none".
- A promise rejected with `null` or `undefined`: the code's `== null` tests
  would treat it as no error. Errors are modelled as non-nullish values.
- The TypeScript overload signatures (src/index.ts:14-26) and the `Buffer`
  path conversion (src/index.ts:49). Paths are strings.
- Calling `createTransforms` and `createStreamRequest` (src/index.ts:39, 43)
  is not logged as an effect. Whether they threw, and the transforms an
  attempt got, are part of its script entry. Streams left behind by a call
  that threw part-way through preparation are not modelled.
- Retry counts are JavaScript numbers, which may be fractional or `NaN`. The
  model uses `int` (`RetryBridge.Nullable.Number`, `EffectLog.Effect.Tag`).
  Nothing computes on a count: it is only passed on and compared with
  `null`.
- The corrected wait reports the first rejection to settle, as `Promise.all`
  does. Which JavaScript would implement it is not modelled.
- An attempt's `finished` results are listed one per settled stream. The
  model does not check that there is one per stream (the source, each
  transform and the temp file). A stream whose `finished` never settles,
  which would leave the wait pending, is not modelled.

## Findings

| source | as written | input that shows it | evidently intended | confidence | as-written member | corrected member |
|---|---|---|---|---|---|---|
| src/index.ts:66-75 | `Promise.all(streams.map(s => finished(s)))` rejects at the first rejected `finished` and does not wait for the other streams | the pipeline fails; `finished(downloadStream)` rejects at once with a premature close and only then does `finished(tempFileStream)` settle (settling order `[Rejected(e), Resolved]`); the source emits `close`, so the bridge says "no retry" and `unlink` runs before the temp file's stream has settled | the comment at lines 66-68 says this wait makes sure the file handles are closed before the temp file is deleted; a wait that lets every `finished` settle and then `??=` the first rejection keeps that promise | medium, not executed | AttemptLoop.FailFastMayDeleteUnsettled | AttemptLoop.AllSettledClosesBeforeDeleting |
