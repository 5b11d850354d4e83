# Bisq fee service and vote item, modelled in Dafny

This project models two pieces of Bisq.

The first is the **fee service**. It caches the Bitcoin network fee rate, in satoshi per byte, that an external fee provider reports. It throttles requests to the provider to one per two minutes. It raises any reported rate below the network's floor up to that floor. It counts successful updates in an observable counter. It also serves a static table of maker and taker trade fees, in BTC or in BSQ.

The second is the **vote item**. This is a value holder with a fixed code and name, a one-byte value, and a `hasVoted` flag. Setting the value sets the flag, and nothing clears it.

Files:
- `fee_schedule.dfy`, module `FeeSchedule`: the trade-fee constants and the four static lookups.
- `fee_service.dfy`, module `FeeService`: the service state as an immutable record, with pure transitions.
  - `RequestFees` is the throttle.
  - `OnSuccess` and `OnFailure` are the provider callbacks.
  - `OnAllServicesInitialized` installs the network floor.
  - The file also holds the reads and the 32-bit update counter.
- `fee_trace.dfy`, module `FeeTrace`: any interleaving of requests and provider answers, as a sequence of events. The lemmas about whole histories live here: the counter, the floor and the spacing of accepted requests.
- `vote_item.dfy`, module `VoteItems`: the vote item, its two constructors, `setValue` and the `hasVoted` latch.

The service's single user thread runs tasks one at a time, in order. Each callback body is therefore one synchronous transition. The clock reading `now`, the network's floor and the provider's answer are all parameters.

The success callback can throw part-way, and the model keeps the updates made before the throw. Each throw is a `Raised` reaction, not a precondition:
- A `null` result throws before anything is assigned.
- A missing `"bitcoinFeesTs"` key throws after `timeStampMap` has been replaced.
- A missing `"BTC"` key throws after the source timestamp has also been replaced.

In none of these cases do the rate or the counter change.

Three details of the code that the model keeps exactly:
- Throttle boundary. The code accepts a request only when `now - lastRequest > 120` (FeeService.java:110). A gap of exactly 120 seconds is therefore throttled as well (`FeeService.ThrottleWindow`).
- Rate floor. The code clamps only the provider's answers (FeeService.java:124-127). The start-up rate of 50 sat/byte (FeeService.java:74) is never compared with the floor. Neither is the rate already cached when `onAllServicesInitialized` installs the floor (FeeService.java:91). The model proves that the floor, once met, is kept (`FeeTrace.RunKeepsFloor`). It also proves that the floor holds from start-up on when the network floor is at most 50 (`FeeTrace.FloorFromStartUp`). A larger network floor leaves the service below it until the first complete answer (`FeeTrace.StartUpRateBelowFloor`).
- Update counter. The code increments a Java `int` (FeeService.java:73, 129), which wraps after 2^31 - 1. The model proves "initial value plus the number of updates, modulo 2^32" (`FeeTrace.CounterCountsUpdates`). For fewer than 2^31 updates, that is exactly the number of updates (`FeeTrace.CounterFromStart`).

## Model

| member | source | states |
|---|---|---|
| FeeSchedule.MakerFeePerBtc | core/src/main/java/bisq/core/provider/fee/FeeService.java:160-162 | the BTC flag selects the default maker fee of the BTC column (200000), otherwise of the BSQ column (200); it is positive and at least the minimum maker fee |
| FeeSchedule.MinMakerFee | core/src/main/java/bisq/core/provider/fee/FeeService.java:164-166 | the BTC flag selects the minimum maker fee of the BTC column (5000), otherwise of the BSQ column (5); it is positive |
| FeeSchedule.TakerFeePerBtc | core/src/main/java/bisq/core/provider/fee/FeeService.java:168-170 | the BTC flag selects the default taker fee of the BTC column (200000), otherwise of the BSQ column (200); it is positive and at least the minimum taker fee |
| FeeSchedule.MinTakerFee | core/src/main/java/bisq/core/provider/fee/FeeService.java:172-174 | the BTC flag selects the minimum taker fee of the BTC column (5000), otherwise of the BSQ column (5); it is positive |
| FeeSchedule.ScheduleOrdered | core/src/main/java/bisq/core/provider/fee/FeeService.java:58-68 | in each currency the minimum maker fee is at most the default maker fee, and the same holds for taker fees; for every role the BTC and BSQ constants differ |
| FeeService.NewFeeService | core/src/main/java/bisq/core/provider/fee/FeeService.java:72-88 | the constructed service serves the non-zero default rate of 50 sat/byte, has counter 0, no timestamp map, source timestamp 0, floor 0 and throttle timestamp 0 |
| FeeService.InitialReads | core/src/main/java/bisq/core/provider/fee/FeeService.java:56-77 | a fresh service serves the non-zero default rate of 50 sat/byte and a counter of 0, with floor and throttle timestamp 0 and no timestamp map; a 250-byte transaction costs 12500; its first request is accepted iff the clock reads more than 120 |
| FeeService.TxFeePerByte | core/src/main/java/bisq/core/provider/fee/FeeService.java:156-158 | returns the cached rate without any fetch, so it meets the floor whenever the cache does |
| FeeService.FeeUpdateCounter | core/src/main/java/bisq/core/provider/fee/FeeService.java:176-178 | returns the 32-bit update counter as stored |
| FeeService.RequestFees | core/src/main/java/bisq/core/provider/fee/FeeService.java:107-150 | a request is accepted iff `now` is strictly more than 120 s after the last accepted request; an accepted request sets only the throttle timestamp to `now` and hands both handlers to the fetch; a throttled one changes no field and runs the result handler iff one was given |
| FeeService.RequestFeesPlain | core/src/main/java/bisq/core/provider/fee/FeeService.java:99-101 | the no-argument request fetches with no handlers when accepted and runs nothing when throttled; an accepted call sets only the throttle timestamp to `now`, a throttled one changes nothing |
| FeeService.RequestFeesWithResultHandler | core/src/main/java/bisq/core/provider/fee/FeeService.java:103-105 | the one-handler request fetches with only a result handler when accepted and runs that handler when throttled; an accepted call sets only the throttle timestamp to `now`, a throttled one changes nothing |
| FeeService.ThrottleWindow | core/src/main/java/bisq/core/provider/fee/FeeService.java:108-111 | after an accepted request at t1, a request at t2 reaches the provider iff t2 >= t1 + 121, so a gap of exactly two minutes is throttled |
| FeeService.OnAllServicesInitialized | core/src/main/java/bisq/core/provider/fee/FeeService.java:90-97 | start-up installs the network's floor and then makes one handler-less request under the same throttle; the resulting state is the old one with the new floor and, iff the request was accepted, the throttle timestamp set to `now`; a throttled start-up request runs no handler |
| FeeService.OnSuccess | core/src/main/java/bisq/core/provider/fee/FeeService.java:116-134 | a null result raises `NullResult` and changes nothing; any non-null result replaces the timestamp map; a missing timestamp raises `MissingTimestamp` and keeps the old source timestamp; a missing BTC rate raises `MissingBtcFee` after the source timestamp is recorded; every defect leaves the rate and the counter unchanged; a complete answer sets the source timestamp, sets the rate to the delivered rate or to the floor, whichever is larger, adds one to the counter (32-bit), and runs the result handler iff one was given; the throttle timestamp and the floor never change |
| FeeService.SuccessSetsClampedRate | core/src/main/java/bisq/core/provider/fee/FeeService.java:122-127 | after a complete answer the served rate is max(delivered, floor), so no fee of a non-negative size falls below floor × size |
| FeeService.OnFailure | core/src/main/java/bisq/core/provider/fee/FeeService.java:136-141 | a failed fetch leaves the whole state, including the throttle timestamp, unchanged; it never runs the result handler and runs the fault handler iff one was given |
| FeeService.TxFee | core/src/main/java/bisq/core/provider/fee/FeeService.java:152-154 | a zero-byte transaction costs nothing; with a non-negative rate and size the fee is non-negative; when the rate meets the floor, the fee is at least floor × size |
| FeeService.TxFeeAdditive | core/src/main/java/bisq/core/provider/fee/FeeService.java:152-158 | the fee is linear in size: splitting the bytes splits the fee, and one byte costs exactly the served rate |
| FeeTrace.CounterCountsUpdates | core/src/main/java/bisq/core/provider/fee/FeeService.java:129 | over any interleaving of requests and answers, the counter ends at its start value plus the number of complete answers, wrapped to 32 bits; requests, failures and defective answers never move it |
| FeeTrace.CounterFromStart | core/src/main/java/bisq/core/provider/fee/FeeService.java:73-129 | from a fresh service, N < 2^31 complete answers among any other events leave the counter at exactly N |
| FeeTrace.RunKeepsFloor | core/src/main/java/bisq/core/provider/fee/FeeService.java:124-127 | once the rate is at or above the floor, every later request, failure or answer keeps it so |
| FeeTrace.RunKeepsFloorSetting | core/src/main/java/bisq/core/provider/fee/FeeService.java:90-92 | requests and answers never change the floor; only start-up writes it |
| FeeTrace.NoUpdateNoChange | core/src/main/java/bisq/core/provider/fee/FeeService.java:116-141 | without a complete answer, no history changes the rate or the counter |
| FeeTrace.FailuresIsolated | core/src/main/java/bisq/core/provider/fee/FeeService.java:136-148 | a history of only requests and failed fetches changes nothing but the throttle timestamp |
| FeeTrace.AcceptedTimesSpaced | core/src/main/java/bisq/core/provider/fee/FeeService.java:107-111 | the accepted request times of any history are each more than 120 s after the previous one (the first after the starting throttle timestamp), and the throttle timestamp ends at the last of them |
| FeeTrace.AtMostOneFetchPerWindow | core/src/main/java/bisq/core/provider/fee/FeeService.java:108-111 | any two accepted requests of a history that are k places apart lie more than k × 120 s apart, so no two fall within one two-minute window |
| FeeTrace.StartUpRateBelowFloor | core/src/main/java/bisq/core/provider/fee/FeeService.java:74-97 | a network floor above 50 leaves the service, right after start-up, with a rate below its floor |
| FeeTrace.FloorFromStartUp | core/src/main/java/bisq/core/provider/fee/FeeService.java:90-127 | when the network floor is at most the start-up rate of 50, the served rate meets the floor from start-up on, through any history of requests and answers |
| VoteItems.GetValue | core/src/main/java/io/bitsquare/dao/vote/VoteItem.java:36-38 | returns the stored value |
| VoteItems.HasVoted | core/src/main/java/io/bitsquare/dao/vote/VoteItem.java:66-68 | returns the stored latch |
| VoteItems.NewVoteItem | core/src/main/java/io/bitsquare/dao/vote/VoteItem.java:42-46 | the three-argument constructor stores the code, the name and the value, and the item has not been voted on |
| VoteItems.NewVoteItemUnset | core/src/main/java/io/bitsquare/dao/vote/VoteItem.java:48-50 | the two-argument constructor equals the three-argument one with value 0 |
| VoteItems.SetValue | core/src/main/java/io/bitsquare/dao/vote/VoteItem.java:61-64 | after `setValue(v)`, `getValue()` returns v and `hasVoted()` is true; the code and the name are unchanged |
| VoteItems.SetValueIdempotent | core/src/main/java/io/bitsquare/dao/vote/VoteItem.java:61-64 | setting the same value twice gives the same item as setting it once |
| VoteItems.ApplyAllEffect | core/src/main/java/io/bitsquare/dao/vote/VoteItem.java:32-68 | after any sequence of sets and reads, the code and the name are as constructed and the value is the one set last (or the start value); `hasVoted` is true iff it already was or some operation set a value |
| VoteItems.HasVotedLatches | core/src/main/java/io/bitsquare/dao/vote/VoteItem.java:61-68 | once `hasVoted` is true, no sequence of operations makes it false again |

## Left out

- Asynchrony is not modelled: the futures, the `UserThread` dispatch and the callback threads. Each callback body is one atomic transition, which the single user thread guarantees.
- The five-minute periodic timer armed at start-up is left out. Its ticks are further handler-less `Request` events in `FeeTrace`.
- The `FeeRequest`/`FeeProvider` network fetch is left out. Its answer, or its failure, is a parameter of the response event. `FeeProvider` and `FeeRequest` are not part of this model.
- The clock (`Instant.now()`) and the network floor (`BisqEnvironment.getBaseCurrencyNetwork().getDefaultMinFeePerByte()`) are parameters, because both live outside this code.
- Logging is left out, and so are the text and `Throwable` that the fault handler receives. Only whether each handler runs is modelled.
- The JavaFX `IntegerProperty` and its listeners are not modelled. The counter is a plain 32-bit integer, and observers re-read it.
- FeeService.TxFee: does not model bitcoinj's `Coin.multiply` overflow exception, because `Coin` is a library type. Fees, rates and timestamps are unbounded integers, and so is the throttle's `now - lastRequest` subtraction on Java `long`s.
- FeeService.OnSuccess: does not model a `null` map inside a non-null result, or a key that maps to `null`. A key mapped to `null` fails exactly as a missing key does. A `null` first map would fail like a missing timestamp but would also store `null` as `timeStampMap`.
- The BTC trade-fee constants are non-final static fields that are never reassigned, so they are modelled as constants.
- The `VoteItem` extras are left out: `toString`, the logger, `Persistable` and `serialVersionUID`. `VotingCodes.Code` is not part of this model, so the code's type is a type parameter.
- `VoteItem.hasVoted` is `protected`. Subclasses could write it, but none belongs to this model.
- The GUI crypto-currency address form is presentation code and is not modelled.
