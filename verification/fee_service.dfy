/**
 The fee service as a sequential state machine. The asynchronous plumbing of
 the source (futures, the user thread, the periodic timer) is flattened into
 three synchronous transitions over an immutable state record:

 - `RequestFees`: the throttle accepts the call (and the caller must then
   deliver the provider's answer) or answers it from the cache;
 - `OnSuccess`: the provider delivered its two maps;
 - `OnFailure`: the provider failed.

 The wall clock is the parameter `now` (epoch seconds); the provider and the
 network configuration are parameters too.
 */
module FeeService {

  datatype Option<T> = None | Some(value: T)

  /** Network fee rate (satoshi per byte) served before any provider answer. */
  const BTC_DEFAULT_TX_FEE: int := 50
  const MIN_PAUSE_BETWEEN_REQUESTS_IN_MIN: int := 2
  /** The throttle window in seconds. */
  const MIN_PAUSE_SECONDS: int := MIN_PAUSE_BETWEEN_REQUESTS_IN_MIN * 60

  /** Key of the provider's source timestamp in the first map. */
  const TIMESTAMP_KEY: string := "bitcoinFeesTs"
  /** Key of the Bitcoin network fee rate in the second map. */
  const BTC_KEY: string := "BTC"

  // The update counter is a Java `int`: adding one to its largest value wraps
  // around to its smallest.
  const INT32_MIN: int := -0x8000_0000
  const INT32_MAX: int := 0x7fff_ffff
  const INT32_RANGE: int := 0x1_0000_0000
  type Int32 = x: int | -0x8000_0000 <= x <= 0x7fff_ffff

  /** Two's-complement reduction of an integer to 32 bits. */
  function Wrap32(x: int): Int32 {
    (x - INT32_MIN) % INT32_RANGE + INT32_MIN
  }

  lemma Wrap32Identity(x: int)
    requires INT32_MIN <= x <= INT32_MAX
    ensures Wrap32(x) == x
  {
  }

  /** Reducing early or late gives the same 32-bit value. */
  lemma Wrap32Add(x: int, k: int)
    ensures Wrap32(Wrap32(x) + k) == Wrap32(x + k)
  {
  }

  /**
   The fields of the service. `timeStampMap` is Java's `null` until the first
   provider answer (`None`); `minFeePerByte` and `lastRequest` start at Java's
   default of zero.
   */
  datatype FeeState = FeeState(
    txFeePerByte: int,
    timeStampMap: Option<map<string, int>>,
    epochInSecondAtLastRequest: int,
    lastRequest: int,
    minFeePerByte: int,
    feeUpdateCounter: Int32)

  /** The service as constructed, before `onAllServicesInitialized`: it
      serves the non-zero default rate, has seen no provider answer, has no
      floor yet, and has never accepted a request. */
  function NewFeeService(): (s: FeeState)
    ensures TxFeePerByte(s) == BTC_DEFAULT_TX_FEE > 0
    ensures FeeUpdateCounter(s) == 0
    ensures s.timeStampMap.None? && s.epochInSecondAtLastRequest == 0
    ensures s.minFeePerByte == 0 && s.lastRequest == 0
  {
    FeeState(BTC_DEFAULT_TX_FEE, None, 0, 0, 0, 0)
  }

  /** Which of the two optional callbacks the caller supplied. */
  datatype Handlers = Handlers(resultHandler: bool, faultHandler: bool)

  /** What a request leads to: a fetch whose answer will be handled with the
      captured handlers, or an immediate answer from the cache. */
  datatype Dispatch = Fetch(pending: Handlers) | AnswerFromCache(runsResultHandler: bool)

  datatype RequestStep = RequestStep(state: FeeState, dispatch: Dispatch)

  /** The throttle's test: strictly more than the window since the last
      accepted request. */
  predicate Accepts(s: FeeState, now: int) {
    now - s.lastRequest > MIN_PAUSE_SECONDS
  }

  /** `requestFees(resultHandler, faultHandler)`. */
  function RequestFees(s: FeeState, now: int, h: Handlers): (r: RequestStep)
    ensures r.dispatch.Fetch? <==> now > s.lastRequest + 120
    ensures r.dispatch.Fetch? ==> r.dispatch.pending == h
    ensures r.dispatch.Fetch? ==> r.state == s.(lastRequest := now)
    ensures r.dispatch.AnswerFromCache? ==> r.state == s
    ensures r.dispatch.AnswerFromCache? ==> (r.dispatch.runsResultHandler <==> h.resultHandler)
  {
    if Accepts(s, now) then
      RequestStep(s.(lastRequest := now), Fetch(h))
    else
      RequestStep(s, AnswerFromCache(h.resultHandler))
  }

  /** `requestFees()`: neither callback. */
  function RequestFeesPlain(s: FeeState, now: int): (r: RequestStep)
    ensures r.dispatch == (if now > s.lastRequest + 120 then Fetch(Handlers(false, false)) else AnswerFromCache(false))
    ensures r.state == (if now > s.lastRequest + 120 then s.(lastRequest := now) else s)
  {
    RequestFees(s, now, Handlers(false, false))
  }

  /** `requestFees(resultHandler)`: a result callback, no fault callback. */
  function RequestFeesWithResultHandler(s: FeeState, now: int): (r: RequestStep)
    ensures r.dispatch == (if now > s.lastRequest + 120 then Fetch(Handlers(true, false)) else AnswerFromCache(true))
    ensures r.state == (if now > s.lastRequest + 120 then s.(lastRequest := now) else s)
  {
    RequestFees(s, now, Handlers(true, false))
  }

  /** `onAllServicesInitialized`: install the network's floor, then request
      once without callbacks. The five-minute timer it arms is not modelled;
      its ticks are further `RequestFeesPlain` calls. */
  function OnAllServicesInitialized(s: FeeState, networkMinFeePerByte: int, now: int): (r: RequestStep)
    ensures r.state.minFeePerByte == networkMinFeePerByte
    ensures r.state.txFeePerByte == s.txFeePerByte
    ensures r.state.feeUpdateCounter == s.feeUpdateCounter
    ensures r.state.epochInSecondAtLastRequest == s.epochInSecondAtLastRequest
    ensures r.dispatch.Fetch? <==> now > s.lastRequest + 120
    ensures r.dispatch.Fetch? ==> r.dispatch.pending == Handlers(false, false)
    ensures !r.dispatch.Fetch? ==> r.dispatch == AnswerFromCache(false)
    ensures var installed := s.(minFeePerByte := networkMinFeePerByte);
            r.state == (if now > s.lastRequest + 120 then installed.(lastRequest := now) else installed)
  {
    RequestFeesPlain(s.(minFeePerByte := networkMinFeePerByte), now)
  }

  /** The provider's answer: `Tuple2<Map<String, Long>, Map<String, Long>>`. */
  datatype FeeData = FeeData(timeStamps: map<string, int>, fees: map<string, int>)

  /** The exceptions the success callback can throw on the user thread. */
  datatype Defect =
    | NullResult        // checkNotNull on the whole result
    | MissingTimestamp  // unboxing a null "bitcoinFeesTs"
    | MissingBtcFee     // unboxing a null "BTC"

  /** What the callback did besides updating state. */
  datatype Reaction = RanResultHandler | RanFaultHandler | Absorbed | Raised(defect: Defect)

  datatype ResponseStep = ResponseStep(state: FeeState, reaction: Reaction)

  /** The provider's rate raised to the floor when it is below it. */
  function Clamp(delivered: int, floor: int): int {
    if delivered < floor then floor else delivered
  }

  /** True iff the answer carries everything the success callback reads. */
  predicate Complete(result: Option<FeeData>) {
    result.Some? && TIMESTAMP_KEY in result.value.timeStamps && BTC_KEY in result.value.fees
  }

  /**
   The success callback. The assignments happen in the source's order, so an
   exception part-way leaves the assignments made before it: a missing
   timestamp leaves `timeStampMap` replaced, a missing BTC rate leaves
   `timeStampMap` and `epochInSecondAtLastRequest` replaced. Neither the fee
   nor the counter changes unless the answer is complete.
   */
  function OnSuccess(s: FeeState, result: Option<FeeData>, h: Handlers): (r: ResponseStep)
    ensures Complete(result) <==> !r.reaction.Raised?
    ensures result.None? ==> r == ResponseStep(s, Raised(NullResult))
    ensures r.state.lastRequest == s.lastRequest && r.state.minFeePerByte == s.minFeePerByte
    ensures r.reaction.Raised? ==> r.state.txFeePerByte == s.txFeePerByte && r.state.feeUpdateCounter == s.feeUpdateCounter
    ensures r.reaction == Raised(MissingTimestamp) ==> r.state.epochInSecondAtLastRequest == s.epochInSecondAtLastRequest
    ensures result.Some? ==> r.state.timeStampMap == Some(result.value.timeStamps)
    ensures result.Some? && TIMESTAMP_KEY !in result.value.timeStamps ==> r.reaction == Raised(MissingTimestamp)
    ensures result.Some? && TIMESTAMP_KEY in result.value.timeStamps && BTC_KEY !in result.value.fees ==>
              r.reaction == Raised(MissingBtcFee)
    ensures result.Some? && TIMESTAMP_KEY in result.value.timeStamps ==>
              r.state.epochInSecondAtLastRequest == result.value.timeStamps[TIMESTAMP_KEY]
    ensures Complete(result) ==>
              var delivered := result.value.fees[BTC_KEY];
              && r.state.txFeePerByte >= s.minFeePerByte
              && r.state.txFeePerByte >= delivered
              && (r.state.txFeePerByte == delivered || r.state.txFeePerByte == s.minFeePerByte)
              && r.state.feeUpdateCounter == Wrap32(s.feeUpdateCounter + 1)
              && (r.reaction == RanResultHandler <==> h.resultHandler)
              && (r.reaction == Absorbed <==> !h.resultHandler)
  {
    match result
    case None => ResponseStep(s, Raised(NullResult))
    case Some(data) =>
      var s1 := s.(timeStampMap := Some(data.timeStamps));
      if TIMESTAMP_KEY !in data.timeStamps then
        ResponseStep(s1, Raised(MissingTimestamp))
      else
        var s2 := s1.(epochInSecondAtLastRequest := data.timeStamps[TIMESTAMP_KEY]);
        if BTC_KEY !in data.fees then
          ResponseStep(s2, Raised(MissingBtcFee))
        else
          var s3 := s2.(txFeePerByte := Clamp(data.fees[BTC_KEY], s.minFeePerByte),
                        feeUpdateCounter := Wrap32(s.feeUpdateCounter + 1));
          ResponseStep(s3, if h.resultHandler then RanResultHandler else Absorbed)
  }

  /** The failure callback: the cache is left alone; only the fault handler,
      when one was given, is run. */
  function OnFailure(s: FeeState, h: Handlers): (r: ResponseStep)
    ensures r.state == s
    ensures r.reaction != RanResultHandler && !r.reaction.Raised?
    ensures r.reaction == RanFaultHandler <==> h.faultHandler
  {
    ResponseStep(s, if h.faultHandler then RanFaultHandler else Absorbed)
  }

  /** `getTxFeePerByte`: the cached rate, read without a fetch; it meets the
      floor whenever the cache does. */
  function TxFeePerByte(s: FeeState): (rate: int)
    ensures rate == s.txFeePerByte
    ensures s.txFeePerByte >= s.minFeePerByte ==> rate >= s.minFeePerByte
  {
    s.txFeePerByte
  }

  /** `getTxFee(sizeInBytes)`: the fee of a transaction of that size at the
      cached rate. */
  function TxFee(s: FeeState, sizeInBytes: int): (fee: int)
    ensures sizeInBytes == 0 ==> fee == 0
    ensures s.txFeePerByte >= 0 && sizeInBytes >= 0 ==> fee >= 0
    ensures s.txFeePerByte >= s.minFeePerByte && sizeInBytes >= 0 ==> fee >= s.minFeePerByte * sizeInBytes
  {
    TxFeePerByte(s) * sizeInBytes
  }

  /** The fee is linear in the size: the fee of a transaction is the sum of
      the fees of any split of its bytes. */
  lemma TxFeeAdditive(s: FeeState, a: int, b: int)
    ensures TxFee(s, a + b) == TxFee(s, a) + TxFee(s, b)
    ensures TxFee(s, 1) == TxFeePerByte(s)
  {
  }

  /** `feeUpdateCounterProperty().get()`: the number of completed updates,
      as the 32-bit counter holds it. */
  function FeeUpdateCounter(s: FeeState): (count: Int32)
    ensures count == s.feeUpdateCounter
  {
    s.feeUpdateCounter
  }

  /** Before any provider answer the service serves the non-zero default rate,
      the counter is zero, and the first request after a plausible clock
      reading is accepted. */
  lemma InitialReads(now: int)
    ensures TxFeePerByte(NewFeeService()) == BTC_DEFAULT_TX_FEE > 0
    ensures FeeUpdateCounter(NewFeeService()) == 0
    ensures NewFeeService().minFeePerByte == 0 && NewFeeService().lastRequest == 0
    ensures NewFeeService().timeStampMap.None?
    ensures TxFee(NewFeeService(), 250) == 12_500
    ensures RequestFeesPlain(NewFeeService(), now).dispatch.Fetch? <==> now > 120
  {
  }

  /** A successful answer leaves the rate at the larger of the delivered rate
      and the floor, so no fee computed afterwards falls below floor × size. */
  lemma SuccessSetsClampedRate(s: FeeState, data: FeeData, h: Handlers, sizeInBytes: int)
    requires Complete(Some(data))
    ensures var s' := OnSuccess(s, Some(data), h).state;
            var delivered := data.fees[BTC_KEY];
            && TxFeePerByte(s') == (if delivered >= s.minFeePerByte then delivered else s.minFeePerByte)
            && (sizeInBytes >= 0 ==> TxFee(s', sizeInBytes) >= s.minFeePerByte * sizeInBytes)
  {
  }

  /** Two requests within the window of an accepted one: the second is
      answered from the cache, and a gap of exactly the window is still too
      short. */
  lemma ThrottleWindow(s: FeeState, t1: int, t2: int, h1: Handlers, h2: Handlers)
    requires RequestFees(s, t1, h1).dispatch.Fetch?
    ensures var s1 := RequestFees(s, t1, h1).state;
            RequestFees(s1, t2, h2).dispatch.Fetch? <==> t2 >= t1 + MIN_PAUSE_SECONDS + 1
  {
  }
}
