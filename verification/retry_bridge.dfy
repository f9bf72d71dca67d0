/** The retry signal bridge of `watchGotStreamRetry`: the data source's
    "retry", "close" and "end" events, delivered in emission order, are turned
    into a single promise outcome `{retryCount}`.

    Two definitions are given.  `Watch` replays the events through the
    listeners the source registers (`once` listeners, a `cleanup` that detaches
    them all, and a promise whose `resolve` only takes effect the first time).
    `FirstEventOutcome` is the first-event rule: whichever event comes first decides.
    `WatchIsFirstEvent` proves that they agree. */
module RetryBridge {
  import opened Wrappers

  /** A JavaScript value passed with a "retry" event: a number, `null` or `undefined`. */
  datatype Nullable = Number(n: int) | Null | Undefined

  /** An event emitted by the data source. */
  datatype SourceEvent = RetryEvent(arg: Nullable) | CloseEvent | EndEvent

  /** The value the bridge's promise resolves with; `None` means "no retry". */
  datatype RetryOutcome = RetryOutcome(retryCount: Option<int>)

  /** Which of the three listeners are still attached to the source. */
  datatype Listeners = Listeners(retry: bool, close: bool, end: bool)

  /** The listeners together with the promise: `settled` is `None` while it is pending. */
  datatype BridgeState = BridgeState(listening: Listeners, settled: Option<RetryOutcome>)

  /** Right after the bridge is created: all three listeners attached, promise pending. */
  const Attached: BridgeState := BridgeState(Listeners(true, true, true), None)

  /** `v ?? undefined`: a nullish retry count collapses to "no retry". */
  function Coalesce(v: Nullable): (r: Option<int>)
    ensures r.Some? <==> v.Number?
    ensures r.Some? ==> r.value == v.n
  {
    match v
    case Number(n) => Some(n)
    case Null => None
    case Undefined => None
  }

  /** A promise's `resolve`: only the first call fixes the value. */
  function Resolve(settled: Option<RetryOutcome>, o: RetryOutcome): (r: Option<RetryOutcome>)
    ensures r.Some?
    ensures settled.Some? ==> r == settled
    ensures settled.None? ==> r == Some(o)
  {
    if settled.None? then Some(o) else settled
  }

  /** `cleanup`: detach every listener and resolve with "no retry". */
  function Cleanup(s: BridgeState): BridgeState
  {
    BridgeState(Listeners(false, false, false), Resolve(s.settled, RetryOutcome(None)))
  }

  /** Deliver one event to whatever listeners are still attached.  A `once`
      listener detaches itself when it fires; `onRetry` does not detach the
      close and end listeners. */
  function Dispatch(s: BridgeState, e: SourceEvent): (r: BridgeState)
    ensures s.settled.Some? ==> r.settled == s.settled
  {
    match e
    case RetryEvent(arg) =>
      if s.listening.retry then
        BridgeState(s.listening.(retry := false), Resolve(s.settled, RetryOutcome(Coalesce(arg))))
      else s
    case CloseEvent => if s.listening.close then Cleanup(s) else s
    case EndEvent => if s.listening.end then Cleanup(s) else s
  }

  /** Deliver the events one after another. */
  function Replay(s: BridgeState, events: seq<SourceEvent>): BridgeState
    decreases |events|
  {
    if |events| == 0 then s else Replay(Dispatch(s, events[0]), events[1..])
  }

  /** What the bridge's promise holds once the source has emitted `events`;
      `None` when it is still pending (the source emitted nothing it listens to). */
  function Watch(events: seq<SourceEvent>): Option<RetryOutcome>
  {
    Replay(Attached, events).settled
  }

  /** Reference rule: the first event decides; a retry carries its coalesced
      count, a close or an end means "no retry"; no event means no decision. */
  function FirstEventOutcome(events: seq<SourceEvent>): (r: Option<RetryOutcome>)
    ensures r.None? <==> |events| == 0
    ensures |events| > 0 && events[0].RetryEvent? ==> r == Some(RetryOutcome(Coalesce(events[0].arg)))
    ensures |events| > 0 && !events[0].RetryEvent? ==> r == Some(RetryOutcome(None))
  {
    if |events| == 0 then None
    else
      match events[0]
      case RetryEvent(arg) => Some(RetryOutcome(Coalesce(arg)))
      case CloseEvent => Some(RetryOutcome(None))
      case EndEvent => Some(RetryOutcome(None))
  }

  /** Once the promise has settled, no later event changes its value. */
  lemma {:induction false} SettledIsFinal(s: BridgeState, events: seq<SourceEvent>)
    requires s.settled.Some?
    ensures Replay(s, events).settled == s.settled
    decreases |events|
  {
    if |events| > 0 {
      SettledIsFinal(Dispatch(s, events[0]), events[1..]);
    }
  }

  /** The listener mechanics implement the first-event rule. */
  lemma WatchIsFirstEvent(events: seq<SourceEvent>)
    ensures Watch(events) == FirstEventOutcome(events)
  {
    if |events| > 0 {
      var s := Dispatch(Attached, events[0]);
      SettledIsFinal(s, events[1..]);
    }
  }

  /** Events after the first one never change the outcome. */
  lemma LaterEventsIgnored(events: seq<SourceEvent>, later: seq<SourceEvent>)
    requires |events| > 0
    ensures Watch(events + later) == Watch(events)
  {
    WatchIsFirstEvent(events);
    WatchIsFirstEvent(events + later);
    assert (events + later)[0] == events[0];
  }

  /** A retry whose count is `null` or `undefined` is indistinguishable from a
      close or an end, whatever follows it. */
  lemma NullishRetryMeansNoRetry(arg: Nullable, later: seq<SourceEvent>)
    requires !arg.Number?
    ensures Watch([RetryEvent(arg)] + later) == Some(RetryOutcome(None))
    ensures Watch([RetryEvent(arg)] + later) == Watch([CloseEvent] + later)
    ensures Watch([RetryEvent(arg)] + later) == Watch([EndEvent] + later)
  {
    WatchIsFirstEvent([RetryEvent(arg)] + later);
    WatchIsFirstEvent([CloseEvent] + later);
    WatchIsFirstEvent([EndEvent] + later);
  }

  /** A retry emitted before the stream closes wins the race against the close. */
  lemma RetryBeforeCloseWins(n: int, later: seq<SourceEvent>)
    ensures Watch([RetryEvent(Number(n))] + later) == Some(RetryOutcome(Some(n)))
  {
    WatchIsFirstEvent([RetryEvent(Number(n))] + later);
  }

  /** A close or an end detaches every listener, so nothing of the bridge stays
      attached to the source afterwards. */
  lemma CloseOrEndDetachesAll(e: SourceEvent, events: seq<SourceEvent>)
    requires !e.RetryEvent?
    ensures Replay(Attached, [e] + events).listening == Listeners(false, false, false)
  {
    var s := Dispatch(Attached, e);
    assert s.listening == Listeners(false, false, false);
    NothingAttachedStays(s, events);
    assert ([e] + events)[1..] == events;
  }

  /** Events reach no listener once all are detached. */
  lemma {:induction false} NothingAttachedStays(s: BridgeState, events: seq<SourceEvent>)
    requires s.listening == Listeners(false, false, false)
    ensures Replay(s, events) == s
    decreases |events|
  {
    if |events| > 0 {
      NothingAttachedStays(Dispatch(s, events[0]), events[1..]);
    }
  }

  /** `onRetry` does not call `cleanup`: after a retry the close and end
      listeners stay attached until the source closes or ends. */
  lemma RetryLeavesCloseAndEndAttached(arg: Nullable)
    ensures Replay(Attached, [RetryEvent(arg)]).listening == Listeners(false, true, true)
    ensures Replay(Attached, [RetryEvent(arg), CloseEvent]).listening == Listeners(false, false, false)
  {
    var afterRetry := Dispatch(Attached, RetryEvent(arg));
    assert [RetryEvent(arg), CloseEvent][1..] == [CloseEvent];
    assert Replay(afterRetry, [CloseEvent]) == Replay(Dispatch(afterRetry, CloseEvent), []);
  }
}
