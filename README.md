# Matching engine and staking bookkeeping, modelled in Dafny

This project models two Solana programs and proves properties about them.

The first is a perpetuals-style matching engine. The model covers:

- its account records and their Borsh byte layouts;
- its instruction set and `unpack`;
- `match_orders`, which walks maker accounts and their eight order slots, filling a taker order against resting orders on the opposite side;
- the event queue, a ring buffer of fixed-width slots behind a 24-byte header, with 64-bit wrapping `head`/`tail` counters;
- the oracle price read and write;
- the seven instruction handlers and the dispatcher.

The second is the staking part of the `vuln_dapp` Anchor program: `initialize_pool`, `set_lock_seconds`, `stake` and `unstake` on a `Pool` and a `UserState` account.

Layout:

| file | module | contents |
|---|---|---|
| `borsh.dfy` | `Borsh` | byte and integer types, little-endian codecs, two's-complement `i64` |
| `errors.dfy` | `Errors` | `EngineError`, `ProgramError`, `Result` |
| `state.dfy` | `State` | `Market`, `UserAccount`, `Order`, `OraclePrice`, `Event` and their encodings |
| `instruction.dfy` | `Instruction` | `EngineInstruction`, `Encode`, `Unpack` |
| `matching.dfy` | `Matching` | `match_orders` as a method over an array of makers, proved against the two-level function `Match` |
| `queue.dfy` | `Queue` | the header class, `push_event` as a method over a byte array, ring-buffer arithmetic |
| `runtime.dfy` | `Runtime` | accounts, the byte store (class `Ledger`), serialization into an account |
| `oracle.dfy` | `Oracle` | `read_price`, `write_price` |
| `processor.dfy` | `Processor` | each handler as a specification function on the store, and as a method that updates a `Ledger` in place and is proved equal to it |
| `processor_facts.dfy` | `ProcessorFacts` | properties of the handlers |
| `staking.dfy` | `Staking` | the staking handlers on values, the `Pool`/`UserState` classes and methods |

Conventions:

- **Store.** Accounts are a `map` from address to bytes, plus, per passed account, its owner and whether it is rent exempt. The same address passed twice shares its bytes.
- **Errors.** A handler's result is `Ok(())` or a `ProgramError`. A Rust panic is `Panic(kind)`.
- **Arithmetic.** The source's unchecked `i64` `+=`, `-=` and `*` are modelled as a checked failure, `Panic(ArithmeticOverflow)`, and never as wrapping. `amount as i64` is a two's-complement reinterpretation (`FromBits64`), so it never fails.
- **Queue counters.** The `wrapping_add`/`wrapping_sub` counters are arithmetic modulo 2^64.
- **Clock.** The clock is a parameter: `unix_timestamp` for `Deposit`, `Withdraw` and `PlaceOrder`, `slot` for `UpdateOracle`.
- **Rent.** Rent exemption is a boolean on each account.

## Model

| member | source | states |
|---|---|---|
| `Borsh.I64RoundTrip` | program/src/state.rs:21-22 | an `i64` survives its two's-complement little-endian encoding |
| `Borsh.I64Canonical` | program/src/state.rs:21-22 | every 8 bytes encode exactly one `i64` |
| `State.MarketRoundTrip` | program/src/state.rs:4-14 | decoding an encoded `Market` gives it back |
| `State.MarketCanonical` | program/src/state.rs:4-14 | bytes that decode as a `Market` are its encoding, so a decode-encode cycle changes nothing |
| `State.OrderRoundTrip` | program/src/state.rs:27-35 | decoding an encoded `Order` gives it back |
| `State.OrderCanonical` | program/src/state.rs:27-35 | bytes that decode as an `Order` are its encoding; bools other than 0 or 1 are refused |
| `State.DefaultOrderIsZero` | program/src/state.rs:28 | `Order::default()` is inactive with no lots and encodes as 34 zero bytes |
| `State.OrdersRoundTrip` | program/src/state.rs:24 | the eight-slot order array survives its encoding |
| `State.OrdersCanonical` | program/src/state.rs:24 | bytes that decode as an order array are its encoding |
| `State.UserRoundTrip` | program/src/state.rs:16-25 | decoding an encoded `UserAccount` (360 bytes) gives it back |
| `State.UserCanonical` | program/src/state.rs:16-25 | bytes that decode as a `UserAccount` are its encoding |
| `State.OracleRoundTrip` | program/src/state.rs:37-43 | decoding an encoded `OraclePrice` (24 bytes) gives it back |
| `State.OracleCanonical` | program/src/state.rs:37-43 | bytes that decode as an `OraclePrice` are its encoding |
| `State.EventRoundTrip` | program/src/state.rs:45-58 | both `Event` variants survive their tagged encoding |
| `State.EventCanonical` | program/src/state.rs:45-58 | bytes that decode as an `Event` are its encoding; tags other than 0 or 1 are refused |
| `State.EventSizes` | program/src/state.rs:45-58 | a `FundingUpdate` is 41 bytes, a `Trade` 81 bytes, and 81 is the largest event encoding |
| `Instruction.Encode` | program/src/instruction.rs:6-32 | an instruction is its variant tag byte followed by its fields |
| `Instruction.Unpack` | program/src/instruction.rs:36-38 | every decoding failure is the engine's `InvalidInstruction` |
| `Instruction.UnpackRoundTrip` | program/src/instruction.rs:36-38 | `unpack` of an encoded instruction gives it back |
| `Instruction.UnpackCanonical` | program/src/instruction.rs:36-38 | input that unpacks is exactly the encoding of what it unpacks to, with no trailing bytes |
| `Instruction.UnpackFailsExactly` | program/src/instruction.rs:36-38 | `unpack` fails if and only if the input encodes no instruction, and then with `InvalidInstruction` |
| `Instruction.EncodedSizes` | program/src/instruction.rs:7-32 | the encoded length of each variant, 3 to 18 bytes |
| `Instruction.PlaceOrderRoundTripExample` | program/tests/engine.rs:9-32 | the `PlaceOrder { 100, 10, true }` round trip the test checks |
| `Matching.Abs` | program/src/matching.rs:48 | `abs` gives the value or its negation, never negative |
| `Matching.FillSlotFilled` | program/src/matching.rs:24-56 | a fillable slot moves base and quote between taker and maker in the taker's direction, drops the order's lots by the fill and deactivates it at 0, adds the absolute quote to `max_quote_change`, and appends one `Trade` |
| `Matching.FillSlotOutcome` | program/src/matching.rs:20-49 | a slot is left alone exactly when it is inactive, same-side or gives a fill ≤ 0; otherwise 0 < fill ≤ min(remaining, order lots), remaining drops by the fill, and the order goes inactive exactly when its lots reach 0 |
| `Matching.FillSlotFrame` | program/src/matching.rs:19-57 | one step changes only the current maker and, within it, only the current slot |
| `Matching.MatchOrders` | program/src/matching.rs:6-59 | the method over an array of makers succeeds exactly when the specification `Match` has no overflow, and its taker, makers, `max_quote_change` and events are `Match`'s |
| `Matching.MatchMaker` | program/src/matching.rs:19-57 | the inner loop over one maker's eight slots equals `SlotsFrom` |
| `Matching.FindUser` | program/src/matching.rs:61-63 | `find_user` returns the first user with the given owner, or none when no user has it |
| `Matching.SumOfUpdate` | program/src/matching.rs:31-41 | replacing one maker changes a sum over makers by the difference |
| `Matching.OrderLotsUpdate` | program/src/matching.rs:43 | replacing one slot changes a maker's resting lots by the difference |
| `Matching.SumsAppend` | program/src/matching.rs:51-56 | lots and notional over events add up across an appended event |
| `Matching.FillSlotProgress` | program/src/matching.rs:24-56 | one fill is zero-sum in base and in quote; remaining, resting lots and the emitted `Trade` lots agree; `max_quote_change` grows by the trade's absolute notional |
| `Matching.SlotsFromProgress` | program/src/matching.rs:19-57 | the zero-sum and accounting facts hold across one maker's slots |
| `Matching.MatchFromProgress` | program/src/matching.rs:14-58 | the zero-sum and accounting facts hold across the remaining makers |
| `Matching.MatchProgress` | program/src/matching.rs:6-59 | a whole match is zero-sum in base and in quote. Remaining decreases by the emitted lots, and so does the makers' resting total. `max_quote_change` grows by the total absolute notional. Events are appended and never removed; each is a positive `Trade` against the taker. Remaining stays ≥ 0 when it starts ≥ 0. Only positions and slots change |
| `Matching.ProgressRefl` | program/src/matching.rs:6-59 | no step at all satisfies the progress relation |
| `Matching.AccountsTrans` | program/src/matching.rs:6-59 | the accounting relation composes across consecutive steps |
| `Matching.EvolvesTrans` | program/src/matching.rs:6-59 | the "only positions and active opposite-side slots change" relation composes |
| `Matching.ProgressTrans` | program/src/matching.rs:6-59 | the whole progress relation composes |
| `Matching.MatchSkipsUntouchable` | program/src/matching.rs:20-22 | an inactive or same-side slot is unchanged by the whole match |
| `Matching.FilledStops` | program/src/matching.rs:15-17 | with remaining ≤ 0 nothing changes, neither in the rest of a maker's slots nor in the remaining makers |
| `Matching.SlotsFromFrame` | program/src/matching.rs:19-57 | the inner loop changes neither other makers nor the slots it has passed |
| `Matching.SlotsFromRemaining` | program/src/matching.rs:49 | remaining never grows in the inner loop |
| `Matching.MatchFromRemaining` | program/src/matching.rs:49 | remaining never grows in the outer loop |
| `Matching.SlotsFromExhausts` | program/src/matching.rs:19-27 | if remaining is still positive after a maker, none of its slots is left fillable |
| `Matching.MatchFromStep` | program/src/matching.rs:14-18 | with positive remaining, the outer loop is the inner loop on this maker followed by the outer loop on the next |
| `Matching.ExhaustsNext` | program/src/matching.rs:14-57 | slots found unfillable stay unfillable after the next maker is processed |
| `Matching.MatchFromExhaustsAt` | program/src/matching.rs:14-58 | when the match ends with positive remaining, a given slot is unfillable |
| `Matching.MatchExhausts` | program/src/matching.rs:6-59 | when a match ends with quantity still unfilled, no maker slot is left that could have filled it |
| `Matching.SimpleMatchingFlow` | program/tests/engine.rs:34-78 | the scenario the test checks: taker base 10, quote -500; maker base 90, quote 500; one event |
| `Matching.InactiveSlotsSkip` | program/src/matching.rs:20-22 | slots that hold no active order leave the match state unchanged |
| `Matching.PartialFillFlow` | program/src/matching.rs:24-56 | a 25-lot bid against a single 20-lot ask at 50 fills 20 lots, empties and deactivates the ask, emits one `Trade`, and leaves 5 lots unfilled |
| `Queue.SerializedSize` | program/src/queue.rs:40-52 | the slot width the source computes is the 41-byte encoding of a sample `FundingUpdate` |
| `Queue.EventQueueHeader.Init` | program/src/queue.rs:14-18 | `init` zeroes head and tail and sets the capacity |
| `Queue.HeaderRoundTrip` | program/src/queue.rs:5-11 | the 24-byte header survives its encoding |
| `Queue.HeaderAlwaysDecodes` | program/src/queue.rs:5-11 | any 24 bytes decode as a header, and re-encode to themselves |
| `Queue.WrappingAdd` | program/src/queue.rs:33 | `wrapping_add` is addition modulo 2^64 |
| `Queue.WrappingSub` | program/src/queue.rs:34 | `wrapping_sub` is subtraction modulo 2^64 |
| `Queue.WriteAtFrame` | program/src/queue.rs:30-31 | writing into a slot puts the bytes there, keeps the length, and leaves every other byte alone |
| `Queue.PushEvent` | program/src/queue.rs:22-38 | the method on a header object and a byte array leaves head, tail and buffer as the specification `Push` says, and never changes the capacity |
| `Queue.PushRejects` | program/src/queue.rs:27-30 | capacity 0 is a divide-by-zero panic, a slot end of 2^64 or more an overflow panic of the `usize` offset arithmetic, and a slot past the end of the buffer an index panic; none of them changes anything |
| `Queue.PushWritesSlot` | program/src/queue.rs:27-37 | a successful push writes the event's encoding at slot `tail % capacity`, where it decodes back to the event. Nothing else in the buffer changes. `tail` advances by one modulo 2^64, and `head` advances exactly when the occupancy would exceed the capacity |
| `Queue.PushKeepsOccupancyBound` | program/src/queue.rs:33-36 | a push keeps `tail - head` within the capacity |
| `Queue.AdvanceKeepsBound` | program/src/queue.rs:33-36 | the counter update alone keeps `tail - head` within the capacity |
| `Queue.TradeOverflowsSourceSlot` | program/src/queue.rs:28-31 | with the source's slot width, a `Trade` (81 bytes) never fits: the push fails with a Borsh I/O error and the counters stay put |
| `Queue.EveryEventFitsSlot` | program/src/queue.rs:28-31 | with the largest event size as the slot width, every event fits and a push into an in-bounds slot succeeds |
| `Queue.ModShift` | program/src/queue.rs:33 | two successive wrapping additions are one wrapping addition |
| `Queue.AdvanceNTail` | program/src/queue.rs:33 | after n pushes, `tail` is the old tail plus n modulo 2^64 |
| `Queue.AdvanceStep` | program/src/queue.rs:33-36 | one push on a full queue moves head and keeps the occupancy; on a non-full queue it keeps head and adds one |
| `Queue.AdvanceNHead` | program/src/queue.rs:33-36 | after n pushes the occupancy is min(old + n, capacity), and head moves by exactly the overflow |
| `Queue.FillingDropsOldest` | program/src/queue.rs:33-36 | pushing capacity + k events into an empty queue leaves it full, with the k oldest dropped |
| `Queue.PushAllSucceeds` | program/src/queue.rs:22-38 | on a buffer with room for every slot, any sequence of pushes succeeds with counters as `AdvanceN` |
| `Queue.PushAllStep` | program/src/queue.rs:27-37 | on a buffer with room for every slot, the first push of a run succeeds, writes the first event into slot `tail % capacity` and nowhere else, and the run continues from the counters it leaves |
| `Queue.PushAllKeepsSlot` | program/src/queue.rs:27-31 | a slot that no push of a run writes to keeps its bytes |
| `Queue.PushAllRetains` | program/src/queue.rs:27-31 | after a run of pushes, an event's encoding is still in its slot when no later push of the run lands in the same slot |
| `Queue.ModDistinct` | program/src/queue.rs:27 | counters less than `capacity` apart designate different slots |
| `Queue.NewestRetained` | program/src/queue.rs:27-37 | when tail does not wrap during the run, each of the newest `capacity` events sits in slot `(tail + j) % capacity` and decodes from there: the ring buffer keeps the last `capacity` events |
| `Queue.WrapSharesSlot` | program/src/queue.rs:27-34 | once tail wraps past 2^64, two consecutive pushes can land in the same slot (capacity 3, tail 2^64 - 1) while the counters still count both as retained |
| `Runtime.SerializeInto` | program/src/processor.rs:96-98 | Borsh serialization into an account writes the encoding over its front and keeps the rest; it fails exactly when the encoding is longer than the account, after writing what fits |
| `Runtime.SerializeTwice` | program/src/processor.rs:96-98 | serializing twice is serializing once |
| `Runtime.SerializeExact` | program/src/processor.rs:138-139 | a record of the account's exact size replaces all its bytes |
| `Runtime.Ledger.Put` | program/src/processor.rs:240-249 | a write through a mutable borrow replaces one account's bytes |
| `Runtime.Ledger.Serialize` | program/src/processor.rs:96-98 | serializing into an account changes only that account, as `SerializeInto` says |
| `Oracle.ReadPrice` | program/src/oracle.rs:10-13 | `read_price` fails exactly when the bytes are not one `OraclePrice`, with the engine's `InvalidAccountData`; on success the bytes are the record's encoding |
| `Oracle.WritePriceTo` | program/src/oracle.rs:16-36 | the read-modify-write on a ledger account equals `WritePrice` |
| `Oracle.WritePriceReadsBack` | program/src/oracle.rs:16-36 | `write_price` succeeds exactly when the account holds at least 24 bytes, and then the record reads back as exactly the given price, confidence and slot; otherwise the engine's `InvalidAccountData` |
| `Oracle.WritePriceForgetsOld` | program/src/oracle.rs:21-30 | the written bytes do not depend on the record already present: no validation, no memory of the old record |
| `Processor.Save` | program/src/processor.rs:138-139 | writing a record keeps the set of accounts, succeeds exactly when it fits, and fails with the given error |
| `Processor.LoadUsers` | program/src/processor.rs:203-209 | decoding the remaining accounts gives one user per account, or fails |
| `Processor.SaveUsers` | program/src/processor.rs:227-230 | writing the makers back keeps the set of accounts; every failure is the runtime's `InvalidAccountData` |
| `Processor.QueueEvents` | program/src/processor.rs:232-249 | pushing events, on a given slot width, keeps the set of accounts |
| `Processor.CancelSlots` | program/src/processor.rs:271-276 | each slot is cleared exactly when its id matches, and the order array keeps its length |
| `Processor.SaveBoth` | program/src/processor.rs:338-341 | the two liquidation writes keep the set of accounts |
| `Processor.ProcessInitializeMarket` | program/src/processor.rs:61-99 | the handler on the ledger equals the specification `InitializeMarket` |
| `Processor.ProcessDeposit` | program/src/processor.rs:101-140 | the handler on the ledger equals the specification `Deposit` |
| `Processor.CreditUser` | program/src/processor.rs:121-136 | the lazily created or decoded user, credited, equals `Credit` |
| `Processor.ProcessWithdraw` | program/src/processor.rs:142-167 | the handler on the ledger equals the specification `Withdraw` |
| `Processor.DebitUser` | program/src/processor.rs:156-163 | the decoded user, debited, equals `Debit` |
| `Processor.LoadMakers` | program/src/processor.rs:203-209 | the loop decoding the remaining accounts equals `LoadUsers` |
| `Processor.LoadUsersNext` | program/src/processor.rs:203-209 | loading one more account extends the loaded prefix by its decoding, or fails |
| `Processor.LoadUsersFailure` | program/src/processor.rs:209 | a failure on a prefix is a failure of the whole collection |
| `Processor.SaveMakers` | program/src/processor.rs:227-230 | the write-back loop equals `SaveUsers` |
| `Processor.PushEvents` | program/src/processor.rs:232-249 | reading the header, pushing each event into the region behind it, and writing the header back equals `QueueEvents` |
| `Processor.PushAllNext` | program/src/processor.rs:243-245 | the push loop is one push followed by the rest, stopping at the first error |
| `Processor.SettleMatch` | program/src/processor.rs:222-249 | the taker, maker and queue writes equal `Settle` |
| `Processor.ProcessPlaceOrder` | program/src/processor.rs:169-250 | the handler on the ledger equals the specification `PlaceOrder` |
| `Processor.CancelMatching` | program/src/processor.rs:271-276 | the slot loop leaves the user as with `CancelSlots` on its orders and nothing else changed |
| `Processor.ProcessCancelOrder` | program/src/processor.rs:252-280 | the handler on the ledger equals the specification `CancelOrder` |
| `Processor.ProcessUpdateOracle` | program/src/processor.rs:282-291 | the handler on the ledger equals the specification `UpdateOracle` |
| `Processor.ProcessLiquidate` | program/src/processor.rs:293-342 | the handler on the ledger equals the specification `Liquidate` |
| `Processor.LiquidatePositions` | program/src/processor.rs:330-336 | the four position updates, each checked, equal `Liquidation` |
| `Processor.ProcessInstruction` | program/src/processor.rs:22-59 | `process` on the ledger equals the specification `Process` |
| `ProcessorFacts.ProcessRoutes` | program/src/processor.rs:22-59 | an encoded instruction reaches the handler of its variant with its fields |
| `ProcessorFacts.ProcessRejectsGarbage` | program/src/processor.rs:27 | input that encodes no instruction is `InvalidInstruction`, with no account changed |
| `ProcessorFacts.SaveChangesOnly` | program/src/processor.rs:96-98 | a record write changes at most the written account |
| `ProcessorFacts.SaveFits` | program/src/processor.rs:138-139 | a record of the account's size is written whole and succeeds |
| `ProcessorFacts.KeysOfSuffix` | program/src/processor.rs:180 | the remaining accounts are among the passed accounts |
| `ProcessorFacts.SaveUsersChangesOnly` | program/src/processor.rs:227-230 | writing the makers back changes only maker accounts |
| `ProcessorFacts.SettleChangesOnly` | program/src/processor.rs:222-249 | settling a match changes only the taker, the makers and the queue |
| `ProcessorFacts.PlaceOrderSettles` | program/src/processor.rs:169-250 | `place_order` either changes nothing, or it decoded taker and makers, its match did not overflow, and what it writes is that match settled |
| `ProcessorFacts.PlaceOrderChangesOnly` | program/src/processor.rs:169-250 | `place_order` changes only passed accounts |
| `ProcessorFacts.LiquidateChangesOnly` | program/src/processor.rs:293-342 | `liquidate` changes only passed accounts |
| `ProcessorFacts.SingleWriteChangesOnly` | program/src/processor.rs:61-291 | the remaining handlers change only passed accounts |
| `ProcessorFacts.ProcessChangesOnly` | program/src/processor.rs:22-59 | no instruction changes an account that was not passed to it, nor adds or removes any |
| `ProcessorFacts.ProcessRejectsForeignAccounts` | program/src/processor.rs:67-308 | every instruction but `update_oracle`, given enough accounts, fails with `InvalidOwner` and changes nothing when the market, the user record, or for `liquidate` either user record, is not owned by the program |
| `ProcessorFacts.InitializeRejectsForeignMarket` | program/src/processor.rs:71-73 | a market account not owned by the program is `InvalidOwner`, with nothing changed |
| `ProcessorFacts.InitializeCreates` | program/src/processor.rs:77-98 | on an all-zero market account of the right size, `initialize_market` writes a new market: admin and oracle from the passed accounts, default mints, the fee, active |
| `ProcessorFacts.InitializeOverwrites` | program/src/processor.rs:87-98 | on an existing market, it overwrites only fee, oracle and the active flag; with no admin or signer check, any caller can re-initialize a market |
| `ProcessorFacts.CreditAdds` | program/src/processor.rs:130-136 | crediting an existing account succeeds exactly when the new quote fits an `i64`, otherwise panics. It adds `amount as i64` to the quote, stamps the time, and changes nothing else |
| `ProcessorFacts.CreditOpens` | program/src/processor.rs:121-136 | crediting an all-zero account opens a new one for the owner and market, holding `amount as i64` |
| `ProcessorFacts.LargeDepositDebits` | program/src/processor.rs:135 | a deposit of 2^63 or more lowers the quote position, since `amount as i64` is negative |
| `ProcessorFacts.DebitSubtracts` | program/src/processor.rs:156-163 | a debit has no balance check: it succeeds exactly when the new quote fits an `i64`. It subtracts `amount as i64`, stamps the time, and changes nothing else |
| `ProcessorFacts.DepositSaves` | program/src/processor.rs:101-140 | past its checks, `deposit` is the write of the credited user |
| `ProcessorFacts.DepositCredits` | program/src/processor.rs:101-140 | `deposit` into an existing account writes the user with `amount` added and the time stamped, and nothing else |
| `ProcessorFacts.DepositOpens` | program/src/processor.rs:121-129 | `deposit` into an all-zero 360-byte account creates the user for the owner and market, holding the deposit |
| `ProcessorFacts.WithdrawSaves` | program/src/processor.rs:142-167 | past its checks, `withdraw` is the write of the debited user |
| `ProcessorFacts.WithdrawDebits` | program/src/processor.rs:142-167 | `withdraw` writes the user with `amount` subtracted and the time stamped, whatever the balance, and nothing else |
| `ProcessorFacts.PlaceOrderInactive` | program/src/processor.rs:192-194 | an inactive market is `MarketInactive`, before any account is changed |
| `ProcessorFacts.PlaceOrderIgnoresPrice` | program/src/processor.rs:169-250 | the taker's `price_lots` has no effect at all: fills happen at the makers' prices |
| `ProcessorFacts.HeaderFallbackUnused` | program/src/processor.rs:232-238 | the `{0, 0, 64}` fallback header is never used: any 24 bytes decode as a header |
| `ProcessorFacts.QueueEventsAdvances` | program/src/processor.rs:232-249 | on a queue region with room for every slot, all pushes succeed and the written header holds the counters after that many pushes |
| `ProcessorFacts.QueueEventsSourceWidth` | program/src/processor.rs:232-249 | on the source's slot width, queueing a run that starts with a `Trade` into a region holding its slot fails with a Borsh I/O error, and the stored header keeps its old counters |
| `ProcessorFacts.CancelSlotsIdempotent` | program/src/processor.rs:271-276 | clearing the same id twice is clearing it once |
| `ProcessorFacts.CancelOrderClears` | program/src/processor.rs:252-280 | `cancel_order` writes the user with every slot of the id deactivated and zeroed, and nothing else. There is no signer check |
| `ProcessorFacts.CancelOrderIdempotent` | program/src/processor.rs:252-280 | cancelling the same id again changes nothing |
| `ProcessorFacts.UpdateOracleReadsBack` | program/src/processor.rs:282-291 | any caller can set any price: the first account reads back the given price, confidence and slot |
| `ProcessorFacts.LiquidationConserves` | program/src/processor.rs:330-336 | liquidation is zero-sum in base and in quote. The liquidator gains `max_liq_amount as i64` base. The liquidatee's quote rises by that times the oracle price. No other field changes |
| `ProcessorFacts.LiquidationExample` | program/src/processor.rs:330-336 | at price 50, liquidating 10 lots moves 10 base to the liquidator and 500 quote to the liquidatee; an amount of 2^64 - 10 is read as -10 lots and moves them the other way |
| `ProcessorFacts.LiquidateSaves` | program/src/processor.rs:293-342 | past its checks, `liquidate` is the two writes of the new positions |
| `ProcessorFacts.LiquidateStores` | program/src/processor.rs:338-341 | `liquidate` writes both new positions. When liquidator and liquidatee are the same account, the second write wins: base falls by the amount and quote rises by amount × price |
| `Staking.Initialized` | programs/vuln_dapp/src/lib.rs:19-26 | `initialize_pool` sets the admin to the argument, total staked 0 and lock 60 seconds |
| `Staking.LockSet` | programs/vuln_dapp/src/lib.rs:28-33 | `set_lock_seconds` replaces the lock with any value and changes nothing else |
| `Staking.Committed` | programs/vuln_dapp/src/lib.rs:35-106 | a model of the runtime, not of the handler code: Anchor writes the in-memory accounts back at instruction exit only on `Ok`, and a failed instruction leaves the old contents. What this buys is stated by `Staking.BackedPreserved` |
| `Staking.StakeAdds` | programs/vuln_dapp/src/lib.rs:52-65 | `stake` succeeds exactly when neither checked addition overflows, and fails only with `MathOverflow`. It adds `amount` to both the position and the pool total and stamps the client time. The signer is recorded only on an empty position. Admin and lock are untouched |
| `Staking.StakeKeepsOwner` | programs/vuln_dapp/src/lib.rs:52-54 | a position that holds a stake keeps its recorded user on every stake. The account derivation that ties a position to its signer is not modelled |
| `Staking.UnstakeGates` | programs/vuln_dapp/src/lib.rs:70-88 | `unstake` fails with `InvalidUser` unless the position's user is the signer. It fails with `MathOverflow` if the time difference overflows, `StillLocked` if less than the lock has passed, and `InsufficientStake` if the amount exceeds the stake. It succeeds exactly when all gates pass and the pool total covers the amount, and then subtracts `amount` from both |
| `Staking.InitializedBacks` | programs/vuln_dapp/src/lib.rs:19-26 | a new pool covers an empty position |
| `Staking.BackedPreserved` | programs/vuln_dapp/src/lib.rs:28-88 | `stake`, `unstake` and `set_lock_seconds`, as committed, keep a position's stake covered by the pool total |
| `Staking.BackedNeverUnderflows` | programs/vuln_dapp/src/lib.rs:87-88 | while the stake is covered, the unchecked subtraction from the pool total cannot underflow |
| `Staking.StakeThenUnstakeRestores` | programs/vuln_dapp/src/lib.rs:35-88 | a stake followed, once the lock has passed, by an unstake of the same amount by the same signer restores the staked amount and the pool |
| `Staking.MinimalLockNeverLocks` | programs/vuln_dapp/src/lib.rs:28-33 | since anyone may set the lock, setting it to the smallest `i64` disables `StillLocked` |
| `Staking.InitializePool` | programs/vuln_dapp/src/lib.rs:19-26 | the pool object holds `Initialized` |
| `Staking.SetLockSeconds` | programs/vuln_dapp/src/lib.rs:28-33 | the pool object holds `LockSet` of its old value |
| `Staking.Stake` | programs/vuln_dapp/src/lib.rs:35-68 | the field-by-field updates of pool and user state leave them, and the result, as `StakeStep` |
| `Staking.Unstake` | programs/vuln_dapp/src/lib.rs:70-106 | the gated updates leave pool, user state and result as `UnstakeStep` |

## Left out

- The clock (`Clock::get`) and rent (`Rent::get`, `assert_rent_exempt`) are parameters. The failure of those system calls is not modelled.
- Borrow failures of `try_borrow_data` and `try_borrow_mut_data` are not modelled.
- `place_order` writes the header back while its mutable borrow of the whole queue account (program/src/processor.rs:240) is still live. In the runtime the second borrow at line 248 would fail. The model performs the intended header write instead.
- When a handler fails, the model's store holds the bytes as they were when it failed, including earlier writes. The Solana runtime discards them with the failed instruction. Staking states the committed result through `Committed`.
- `i64` overflow in `match_orders`, `deposit`, `withdraw` and `liquidate` is a checked failure (`Panic(ArithmeticOverflow)`). So is `usize` overflow of the slot offset computed by `push_event` (program/src/queue.rs:28,30). Whether the real build wraps or panics depends on build flags the repository does not show.
- The queue lemmas that need a push to succeed assume the region is shorter than 2^64 bytes. Any Rust slice is.
- `msg!` logging is not modelled; it has no effect on state.
- The SPL token transfers in `stake` and `unstake` are not modelled; they are cross-program calls. The model assumes they succeed.
- The Anchor account constraints, PDA seeds and bumps are not modelled; a bump is a parameter.
- The other `vuln_dapp` instructions are not modelled: `emergency_drain`, `create_escrow`, `cancel_escrow` and `withdraw_sol_from_treasury`.
- Staking.Unstake: the unchecked `u64` subtraction from the pool total is modelled as a failure (`Underflow`), not a wrap.
- Queue.FillingDropsOldest: requires `capacity < 2^64 - 1`, because with a larger capacity the occupancy wraps.
- Queue.NewestRetained: requires that tail does not pass 2^64 during the run. After a wrap, `tail % capacity` no longer cycles through the slots in order, and `Queue.WrapSharesSlot` shows two retained entries sharing one slot. The stated retention is on the corrected slot width.
- `Processor.PlaceOrder` and the queue lemmas about it use the corrected slot width (see Findings). The source's width is modelled in `Queue.SerializedSize`, and what it does is shown by `Queue.TradeOverflowsSourceSlot` and, at the queue account, by `ProcessorFacts.QueueEventsSourceWidth`.
- Oracle.ReadPrice: an account longer than 24 bytes can be written by `write_price` but does not read back, because Borsh's `try_from_slice` refuses trailing bytes. `Oracle.WritePriceReadsBack` states the read-back on the first 24 bytes.
- `program/src/error.rs` is reused only as the error datatypes. `program/src/ids.rs` and `program/src/lib.rs` are not part of this model.

## Findings

| source | as written | input that shows it | evidently intended | confidence | as-written member | corrected member |
|---|---|---|---|---|---|---|
| program/src/queue.rs:28-31 | the slot width is the encoded size of a sample `FundingUpdate` (41 bytes), but a `Trade` encodes to 81 bytes, so serializing a `Trade` into its slot always fails | any `place_order` that fills at least one lot, on a queue with capacity > 0 and room for the slot: the push returns a Borsh I/O error and the counters do not advance | the slot width is the largest encoding of any event variant (81 bytes), so every event fits | not executed | `Queue.TradeOverflowsSourceSlot` | `Queue.EveryEventFitsSlot` |
