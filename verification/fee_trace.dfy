/**
 Sequences of calls into the fee service. The service's user thread runs its tasks
 one at a time in submission order, so any interleaving of requests and
 provider answers is a sequence of events applied left to right. A response
 event carries the handlers its request captured; answers may arrive in any
 order and need not match the requests one for one.
 */
module FeeTrace {
  import opened FeeService

  datatype Answer = Delivered(result: Option<FeeData>) | Failed

  datatype Event =
    | Request(now: int, handlers: Handlers)
    | Response(pending: Handlers, answer: Answer)

  function Step(s: FeeState, e: Event): FeeState {
    match e
    case Request(now, h) => RequestFees(s, now, h).state
    case Response(h, Delivered(result)) => OnSuccess(s, result, h).state
    case Response(h, Failed) => OnFailure(s, h).state
  }

  /** The state after applying every event in order. */
  function Run(s: FeeState, events: seq<Event>): FeeState
    decreases |events|
  {
    if |events| == 0 then s else Run(Step(s, events[0]), events[1..])
  }

  /** True iff the event is a provider answer the success callback completes. */
  predicate IsUpdate(e: Event) {
    e.Response? && e.answer.Delivered? && Complete(e.answer.result)
  }

  /** The number of completed updates among the events. */
  function Updates(events: seq<Event>): nat
    decreases |events|
  {
    if |events| == 0 then 0
    else (if IsUpdate(events[0]) then 1 else 0) + Updates(events[1..])
  }

  /** The request times the throttle accepted, in order. */
  function AcceptedTimes(s: FeeState, events: seq<Event>): seq<int>
    decreases |events|
  {
    if |events| == 0 then []
    else
      var rest := AcceptedTimes(Step(s, events[0]), events[1..]);
      if events[0].Request? && Accepts(s, events[0].now) then [events[0].now] + rest else rest
  }

  /** The rate stays at or above the floor. */
  predicate Floored(s: FeeState) {
    s.txFeePerByte >= s.minFeePerByte
  }

  /** Only `onAllServicesInitialized` writes the floor. */
  lemma {:induction false} RunKeepsFloorSetting(s: FeeState, events: seq<Event>)
    ensures Run(s, events).minFeePerByte == s.minFeePerByte
    decreases |events|
  {
    if |events| > 0 {
      RunKeepsFloorSetting(Step(s, events[0]), events[1..]);
    }
  }

  /** The counter advances by exactly one per completed update, wrapping as a
      Java `int`; requests, failures and defective answers leave it alone. */
  lemma {:induction false} CounterCountsUpdates(s: FeeState, events: seq<Event>)
    ensures Run(s, events).feeUpdateCounter == Wrap32(s.feeUpdateCounter + Updates(events))
    decreases |events|
  {
    if |events| == 0 {
      Wrap32Identity(s.feeUpdateCounter);
    } else {
      var s' := Step(s, events[0]);
      var k := if IsUpdate(events[0]) then 1 else 0;
      assert s'.feeUpdateCounter == Wrap32(s.feeUpdateCounter + k) by {
        Wrap32Identity(s.feeUpdateCounter);
      }
      CounterCountsUpdates(s', events[1..]);
      Wrap32Add(s.feeUpdateCounter + k, Updates(events[1..]));
    }
  }

  /** From a fresh service, fewer than 2^31 updates leave the counter equal to
      their number, whatever else happened in between. */
  lemma CounterFromStart(events: seq<Event>)
    requires Updates(events) <= INT32_MAX
    ensures FeeUpdateCounter(Run(NewFeeService(), events)) == Updates(events)
  {
    CounterCountsUpdates(NewFeeService(), events);
    Wrap32Identity(Updates(events));
  }

  /** Once the rate is at or above the floor, every later event keeps it so. */
  lemma {:induction false} RunKeepsFloor(s: FeeState, events: seq<Event>)
    requires Floored(s)
    ensures Floored(Run(s, events))
    decreases |events|
  {
    if |events| > 0 {
      RunKeepsFloor(Step(s, events[0]), events[1..]);
    }
  }

  /** Without a completed update the rate and the counter are never touched
      (a defective answer may still record its source timestamp). */
  lemma {:induction false} NoUpdateNoChange(s: FeeState, events: seq<Event>)
    requires Updates(events) == 0
    ensures Run(s, events).txFeePerByte == s.txFeePerByte
    ensures Run(s, events).feeUpdateCounter == s.feeUpdateCounter
    decreases |events|
  {
    if |events| > 0 {
      NoUpdateNoChange(Step(s, events[0]), events[1..]);
    }
  }

  /** Requests and failures alone change nothing but the throttle timestamp. */
  lemma {:induction false} FailuresIsolated(s: FeeState, events: seq<Event>)
    requires forall i :: 0 <= i < |events| ==> events[i].Request? || events[i].answer.Failed?
    ensures Run(s, events) == s.(lastRequest := Run(s, events).lastRequest)
    decreases |events|
  {
    if |events| > 0 {
      FailuresIsolated(Step(s, events[0]), events[1..]);
    }
  }

  /** Accepted requests are spaced by more than the throttle window: the
      first lies more than the window after the starting throttle timestamp,
      each later one more than the window after its predecessor, and the
      throttle timestamp ends at the last accepted time. */
  lemma {:induction false} AcceptedTimesSpaced(s: FeeState, events: seq<Event>)
    ensures var a := AcceptedTimes(s, events);
            && (|a| > 0 ==> a[0] > s.lastRequest + MIN_PAUSE_SECONDS)
            && (forall i :: 1 <= i < |a| ==> a[i] > a[i - 1] + MIN_PAUSE_SECONDS)
            && Run(s, events).lastRequest == (if |a| == 0 then s.lastRequest else a[|a| - 1])
    decreases |events|
  {
    if |events| > 0 {
      var s' := Step(s, events[0]);
      AcceptedTimesSpaced(s', events[1..]);
      var rest := AcceptedTimes(s', events[1..]);
      if events[0].Request? && Accepts(s, events[0].now) {
        assert s'.lastRequest == events[0].now;
        var a := [events[0].now] + rest;
        assert forall i :: 1 <= i < |a| ==> a[i] == rest[i - 1];
      } else {
        assert s'.lastRequest == s.lastRequest;
      }
    }
  }

  /** Hence within any window of the throttle's length at most one request
      reaches the provider: accepted requests k places apart lie more than k
      windows apart. */
  lemma AtMostOneFetchPerWindow(s: FeeState, events: seq<Event>, i: int, j: int)
    requires var a := AcceptedTimes(s, events); 0 <= i < j < |a|
    ensures AcceptedTimes(s, events)[j] - AcceptedTimes(s, events)[i] > (j - i) * MIN_PAUSE_SECONDS
  {
    AcceptedTimesSpaced(s, events);
    var a := AcceptedTimes(s, events);
    var k := i + 1;
    while k < j
      invariant i < k <= j
      invariant a[k] - a[i] > (k - i) * MIN_PAUSE_SECONDS
    {
      k := k + 1;
    }
  }

  /** When the network's floor does not exceed the start-up rate, the rate
      meets the floor from start-up on, through any later history. */
  lemma FloorFromStartUp(networkMinFeePerByte: int, now: int, events: seq<Event>)
    requires networkMinFeePerByte <= BTC_DEFAULT_TX_FEE
    ensures var s := OnAllServicesInitialized(NewFeeService(), networkMinFeePerByte, now).state;
            Run(s, events).txFeePerByte >= networkMinFeePerByte
  {
    var s := OnAllServicesInitialized(NewFeeService(), networkMinFeePerByte, now).state;
    RunKeepsFloor(s, events);
    RunKeepsFloorSetting(s, events);
  }

  /** Start-up never compares the cached rate with the floor it installs: a
      network floor above the start-up rate leaves the service below its floor
      until the first complete answer. */
  lemma StartUpRateBelowFloor(networkMinFeePerByte: int, now: int)
    requires networkMinFeePerByte > BTC_DEFAULT_TX_FEE
    ensures !Floored(OnAllServicesInitialized(NewFeeService(), networkMinFeePerByte, now).state)
  {
  }
}
