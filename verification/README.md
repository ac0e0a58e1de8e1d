# Sleipnir: a verified model of the order gateway

Sleipnir takes execution intents from a broker, checks them, submits them to an exchange, publishes the
fills and commits the intents. A serial intent worker and a fills worker share an in-memory tracker that
mirrors a SQL table; a boot pass reconciles that table with the exchange.

The project has four layers.

- **Components in their own form.** `Limiter`, `Tracker`, `Reconcile`, `Algo`, `Sse`, `Ids` and the retry
  loop in `GatewayLoops` model the objects and loops of the source as classes and methods, each proved
  against a small specification function; the laws are then proved of those functions. `Risk`, `Symbols`,
  `Text`, `Sums`, `Consumer` (which drops repeated execution IDs) and `Ledger` (an order's quantity as
  executed, recorded and consumed, over trades, reports and restarts) are pure.
- **The gateway as a transition system.** `Gateway` has one step per shared access: a tracker update changes
  memory in one step and the table in a later one, as the source does by releasing its lock in between.
  Broker, exchange, clock, operator, drain and shutdown act through labels, and `Run` over any label sequence
  is any interleaving. The transition system calls the same specification functions the classes are
  proved against, and `GatewayLoops` shows that its publishing and slicing steps are the source's loops.
- **What one step can do.** `GatewayFlow` states once the control flow of a step (`Flow`) and its effect on
  switches, clock, limiter, memory and table (`Effect`). All whole-run proofs rest on it but those of
  `GatewayTrace` and `GatewayFate`, which follow the word a delivery leaves in the log.
- **Whole-run theorems.** `GatewayTrace`, `GatewayFate`, `GatewayRefusals`, `GatewayOnce`, `GatewayCaps`, `GatewayRate`,
  `GatewayQuiesce`, `GatewayDrain`, `GatewayLate` and `GatewayCoherence` hold for every label sequence from a boot with any
  tracker and table; those on coherence take a tracker that mirrors its table, which is what loading and
  reconciliation leave (`Reconcile.PrepareTracker`). `GatewayLives` strings processes together.
  `GatewayWitness` holds the common start of the concrete runs, `LedgerWitness` short lives of one order.

Quantities, prices and tokens are reals; time is integer nanoseconds. Statements about rates, caps, columns, formats
and decisions are written out in the settings' and the table's own terms, not through the function that computes them.

## Where the code and its documentation differ

The model follows the code. Each item names the lemma that shows it and, where the promise holds
sometimes, the exact condition.

- A filled order is to be committed only once its fill is on the broker
  (`internal/gateway/gateway.go:565-570`). Of a delivery the exchange filled that holds exactly when its
  submission did not fail, and it fails only for a sliced order cut off between slices: it is recorded as
  rejected and committed, and the slices already filled are never published
  (`GatewayFate.CommittedFillsArePublishedIff`, with a run in `GatewayFate.FilledSliceIsCommittedAway`).
- Terminal states are not absorbing: a finished row comes back exactly by a late SUBMITTED, by admitting a
  stored order again, or by a streamed non-terminal status (`GatewayCoherence.TerminalAbsorbingIff`). A
  state-only update of a finished row resets its quantity (`Tracker.StateOnlyUpdateKeepsQtyIff`,
  `Tracker.LateSubmittedErasesFill`), although `internal/gateway/tracker.go:58-65` says it is preserved.
- Streamed fills overwrite the recorded quantity, although `CHANGELOG.md:44` says they accumulate: the record
  becomes the last one, which is the sum exactly when what was recorded and all but the last add up to zero
  (`Ledger.StreamedFillsAccumulateIff`). A boot that finds such an order still active backfills what was
  already streamed. A consumer that drops repeated IDs ends with what the exchange executed exactly when
  reports and backfills exceed it by what was dropped (`Ledger.ConsumerIsRightIff`); with every trade reported
  once and distinct IDs, exactly when no boot found the order active and under-recorded
  (`Ledger.ReportedOnceIsRightIff`). Two errors can cancel (`LedgerWitness.ErrorsCanCancel`), and in the most
  ordinary life the consumer is right although the record is not (`LedgerWitness.OrdinaryLifeIsRight`).
- `internal/gateway/gateway.go:543` expects a fill reported both with the submission and on the stream to be
  deduplicated downstream; the two IDs never coincide, and it counts twice
  (`LedgerWitness.AnsweredAndStreamedCountsTwice`).
- An immediate fill marks its order filled in full, even a partial one. A finished order is beyond
  backfilling at every later point exactly when nothing revives it (`Ledger.FinishedForGoodIff`), so the rest
  can be lost (`LedgerWitness.PartialImmediateFillLosesTheRest`).
- Memory and table can part when both workers write one row: once settled they agree exactly when the
  worker that was last into memory was last into the table too, or both asked for the same state
  (`GatewayCoherence.SettledRowAgreesIff`, with a run in `GatewayCoherence.RaceHappens`).
- An intent left uncommitted so that it is redelivered is swallowed as a duplicate by the same process
  (`GatewayOnce.RedeliveryIsSwallowed`), although `internal/gateway/gateway.go:568-570` relies on redelivery.
- Zero active orders is documented as a fully clean drain, with late fills published before teardown. But an
  order in the limiter is not yet active and can still go out (`GatewayDrain.ZeroActiveIsNotDrained`), and a
  filled order is no longer active before its fill is published (`GatewayLate.ZeroActiveMayOweAFill`). No
  further order goes out exactly under `GatewayDrain.DrainIsOverIff`, and no fill already known is left to
  publish exactly under `GatewayLate.NothingLateIff`.
- A halt records any order as rejected, before its ID is validated or found to be known
  (`GatewayFate.HaltRecordsAnything`); no other path saves an invalid ID (`GatewayFate.InvalidIdSavedOnlyByHalt`).
  If the order was live on the exchange, its row is finished and no boot reconciles it any more
  (`GatewayFate.HaltOrphansLiveOrder`).
- Reconciliation records the new quantity even if the publish failed, so that fill is never made up for
  (`Reconcile.DeliveredInFullIff`, `Reconcile.RefusedBackfillIsLost`), and two boots that miss the same amount
  share an execution ID (`Reconcile.EqualDeltasAreLost`, `Reconcile.ConsumerIsExactIff`).
- A finished order stored before a boot is no longer known to the duplicate check and does not count toward
  the daily cap when it comes again (`Tracker.RestartForgetsFinishedOrders`, `GatewayCaps.AdmissionCountsIffNew`);
  only such an order is ever submitted by two processes (`GatewayLives.ResubmittedOnlyIfFinished`), and it can be
  whenever it passes the checks (`GatewayLives.ProcessCanSendIff`). In direct mode the row is marked FILLED before
  the publish, so an intent whose fill was given up on, redelivered to the next process, is submitted again
  (`GatewayLives.GivenUpIsSubmittedAgain`).
- Simulator execution IDs collide with REST ones for an order whose own ID ends in "-sim"
  (`Ids.SimulatorCollidesWithRestIff`).
- The minimum quantity of an instrument does not survive slicing (`GatewayCaps.MinimumSurvivesTwapIff`,
  `GatewayCaps.MinimumSurvivesVwapIff`, with parents in `GatewayCaps.ThinSlices` and `GatewayCaps.ThinVwapSlices`).
- The aggregate fill of a sliced order carries the last slice's cost (`Algo.AggregateCostIsTotalIff`) and ID, so
  the intent worker never marks the parent filled (`GatewayFate.SliceIsFilledNotParent`).
- A limiter configured below one request per second never lets anything through (`Limiter.SubUnitRateNeverGrants`).

## Model

| member | source | states |
|---|---|---|
| `Limiter.TokenBucketLimiter.constructor` | internal/gateway/tracker.go:171-178 | a new bucket holds rps tokens, its capacity and its refill per second |
| `Limiter.TokenBucketLimiter.TryTake` | internal/gateway/tracker.go:191-207 | one locked round adds rate times the seconds elapsed, caps at capacity, and takes a token exactly if there is a whole one |
| `Limiter.TokenBucketLimiter.Wait` | internal/gateway/tracker.go:181-220 | every round but the last was refused, each refusal slept the truncated wait (no number at a zero rate), success is the last round's grant, cancellation leaves the refills in place |
| `Limiter.Exact` | internal/gateway/tracker.go:171-220 | after any history the token count is the minimum, over all earlier check points including construction, of rps * (1 + seconds since then) less grants since then |
| `Limiter.GrantedIffRoom` | internal/gateway/tracker.go:196-207 | a request is granted exactly when one more grant keeps every window within rps * (1 + T), T in seconds |
| `Limiter.TokensStayNonNegative` | internal/gateway/tracker.go:197-204 | the token count stays between zero and capacity |
| `Limiter.LimiterObeys` | internal/gateway/tracker.go:181-220 | every stretch of every history keeps to rps * (1 + T) grants, T in seconds |
| `Limiter.LimiterIsOptimal` | internal/gateway/tracker.go:181-220 | no schedule at the same request times that keeps the bound has granted more by any point |
| `Limiter.WindowBound` | internal/gateway/tracker.go:170-220 | any time window of T seconds, wherever it starts, holds at most rps * (1 + T) grants |
| `Limiter.SubUnitRateNeverGrants` | internal/gateway/tracker.go:196-203 | with rps below 1 no call is ever granted |
| `Limiter.GrantedByThirdCheck` | internal/gateway/tracker.go:209-219 | with rps at least 1 a lone waiter that sleeps the truncated wait is granted by its third check |
| `Limiter.GrantsExactlyWhen` | internal/gateway/tracker.go:193-203 | with rps at least 1 a request is granted exactly when rps times the nanoseconds since the last look reaches a thousand million times what is missing of a token |
| `Limiter.SleepIsWhatRemains` | internal/gateway/tracker.go:209-211 | the sleep is the wait that remains, not longer and less than a nanosecond shorter |
| `Tracker.OrderStore.SaveOrder` | internal/gateway/store.go:136-161 | upsert: a new row with zero filled quantity created now, or only the state of an existing one; no other row changes |
| `Tracker.OrderStore.UpdateOrderState` | internal/gateway/store.go:164-175 | state and quantity of an existing row, nothing for an absent one |
| `Tracker.OrderStore.GetActiveOrders` | internal/gateway/store.go:178-221 | each row that is not FILLED, CANCELED, REJECTED or EXPIRED exactly once, with its state and filled quantity, and no other |
| `Tracker.OrderStore.GetDailyOrderCount` | internal/gateway/store.go:224-249 | walking the table and testing each row once counts exactly the rows created since midnight, of one side or all |
| `Tracker.OrderTracker.WithStore` | internal/gateway/tracker.go:29-41 | every active row is copied over memory, the rest of memory kept, the table untouched |
| `Tracker.OrderTracker.AddOrder` | internal/gateway/tracker.go:44-53 | memory holds the order and its state, the row has the state |
| `Tracker.OrderTracker.UpdateOrderState` | internal/gateway/tracker.go:66-115 | reports whether the state changed; the row is written only then, with the quantity found among active rows or the full quantity on FILLED |
| `Tracker.OrderTracker.UpdateOrderStateAndQty` | internal/gateway/tracker.go:118-128 | always writes state and quantity, reports whether the state changed |
| `Tracker.OrderTracker.GetAllActiveOrders` | internal/gateway/tracker.go:147-159 | each order not known to be terminal exactly once |
| `Tracker.BootMirrors` | internal/gateway/tracker.go:29-41 | a fresh tracker mirrors any table, and its active set is the table's |
| `Tracker.TrackerRefinesStore` | internal/gateway/tracker.go:29-159 | after any operations and restarts every known row has the tracker's state, every unknown row is terminal, and tracker-active IDs are table-active |
| `Tracker.RestartLosesNoActiveOrder` | internal/gateway/tracker.go:28-41 | a restart after any operations keeps every active order and its state |
| `Tracker.RestartForgetsFinishedOrders` | internal/gateway/tracker.go:29-41 | after a restart an ID is known exactly if its row is active |
| `Tracker.AgreementKeptIff` | internal/gateway/tracker.go:66-159 | one operation keeps the two active sets equal exactly when it does not revive a stored order missing from memory |
| `Tracker.ActiveSetsAgreeIff` | internal/gateway/tracker.go:29-159 | over any run the active sets agree throughout exactly when no operation does that |
| `Tracker.StateOnlyUpdateKeepsQtyIff` | internal/gateway/tracker.go:55-94 | a state-only update keeps the recorded quantity exactly when nothing changes, the row is active, or it is zero |
| `Tracker.LateSubmittedErasesFill` | internal/gateway/gateway.go:537-537 | a late SUBMITTED after a streamed FILLED revives the row and zeroes its quantity |
| `Reconcile.ReconcileAtBoot` | cmd/sleipnir/main.go:134-203 | exactly the active rows the exchange answers for take its state and quantity, in table and tracker, whether or not the publish succeeds; each order of which more was executed than recorded gets one fill, for exactly the difference, with the row's instrument and side, the exchange's status, price and time, zero cost and the reconcile ID, and no other order gets any |
| `Reconcile.PrepareTracker` | cmd/sleipnir/main.go:91-203 | loading and then reconciling a new tracker publishes the same fills and leaves it mirroring the table, knowing exactly the orders active before |
| `Reconcile.PreparedMirrors` | cmd/sleipnir/main.go:134-203 | such a tracker mirrors its table, has its active set, and knows exactly the orders active before the pass |
| `Reconcile.Balance` | cmd/sleipnir/main.go:151-199 | over any restarts, backfills add up to the growth of the record plus what the exchange took back |
| `Reconcile.RecordIsLastReconciled` | cmd/sleipnir/main.go:198-199 | the record is the executed quantity at the last pass that reconciled the order |
| `Reconcile.ReconciliationConserves` | cmd/sleipnir/main.go:138-200 | with executed quantities that never decrease, backfills sum to the last reconciled quantity less the initial record, over unbounded restarts |
| `Reconcile.PublishedFillsConserve` | cmd/sleipnir/main.go:176-199 | the quantities of the fills the passes actually published for an order add up to the growth of its record, over unbounded restarts |
| `Reconcile.SecondPassIsSilent` | cmd/sleipnir/main.go:151-199 | a second pass against an unchanged exchange publishes and changes nothing |
| `Reconcile.DeliveredInFullIff` | cmd/sleipnir/main.go:191-199 | everything backfilled arrives exactly when no publish with something to send failed |
| `Reconcile.DedupKeepsAllIffDistinct` | docs/adr/0004-idempotent-fill-backfill-execution-id.md:37-43 | a consumer that drops repeated IDs keeps the full sum of an order's backfills exactly when no two amounts print alike |
| `Reconcile.ConsumerIsExactIff` | docs/adr/0004-idempotent-fill-backfill-execution-id.md:51-64 | over unbounded boots the consumer holds the reconciled quantity exactly when no publish failed and no two backfilled amounts print alike |
| `Reconcile.EqualDeltasAreLost` | cmd/sleipnir/main.go:178-181 | two boots missing 0.5 each: the consumer keeps 0.5 of 1 |
| `Reconcile.RefusedBackfillIsLost` | cmd/sleipnir/main.go:191-199 | a refused backfill of 0.5, then one of 0.5: the record is 1, the consumer has 0.5 |
| `Consumer.HeardPlusDropped` | docs/adr/0004-idempotent-fill-backfill-execution-id.md:37-43 | every message is heard or dropped |
| `Consumer.DroppedIffRepeated` | docs/adr/0004-idempotent-fill-backfill-execution-id.md:51-56 | of positive amounts nothing is dropped exactly when no ID comes twice |
| `Ledger.StreamedFillsAccumulateIff` | internal/gateway/gateway.go:293-304 | after any streamed fills the record is the last one, which is what was recorded plus their sum exactly when the record and all but the last add up to zero |
| `Ledger.ConsumerIsRightIff` | docs/adr/0004-idempotent-fill-backfill-execution-id.md:51-64 | over any trades, streamed and immediate fills, other writes and boots, the consumer's total is reports plus backfills less repeats, and is the executed quantity exactly when those balance |
| `Ledger.ReportedOnceIsRightIff` | cmd/sleipnir/main.go:151-181 | with every trade reported once and distinct IDs the consumer is right exactly when no boot found the order active with less recorded than executed |
| `Ledger.PublishedBalance` | internal/gateway/store.go:164-175 | over any such history what was published is the growth of the record plus every record overwritten |
| `Ledger.ReconciledIsRightIff` | cmd/sleipnir/main.go:151-199 | from an exact record to a boot that reconciled the order, the consumer is right exactly when the repeats dropped make up for the records overwritten |
| `Ledger.StreamedAndReconciledIsRightIff` | internal/gateway/gateway.go:293-304 | on a stream alone, with distinct IDs, exactly when every streamed fill met an empty record |
| `Ledger.StreamedThenRestarted` | cmd/sleipnir/main.go:151-181 | after streamed fills and a boot that finds the row active the messages sum to the executed quantity plus all streamed fills but the last |
| `Ledger.AnsweredIsSetState` | internal/gateway/tracker.go:66-94 | the ledger's immediate fill does to the table what the tracker's update does |
| `Ledger.FinishedForGoodIff` | cmd/sleipnir/main.go:138-199 | a finished row is backfilled by no boot at any later point, whatever the exchange answers, exactly when no write makes it active again |
| `LedgerWitness.OrdinaryLifeIsRight` | internal/gateway/gateway.go:293-304 | 0.5 partial, 0.5 final, boot: the record is 0.5, the consumer has 1 |
| `LedgerWitness.ErrorsCanCancel` | cmd/sleipnir/main.go:176-181 | a fill backfilled again and a missed one dropped as its repeat leave the total right |
| `LedgerWitness.AnsweredAndStreamedCountsTwice` | internal/gateway/gateway.go:542-544 | a trade reported in the answer and on the stream counts twice |
| `LedgerWitness.PartialImmediateFillLosesTheRest` | internal/gateway/gateway.go:545-554 | after an immediate fill of part of an order, what is traded and missed later is not backfilled |
| `Algo.Normalise` | internal/algo/algo.go:112-119 | the two in-place loops leave each weight divided by the total, and tell a zero total apart |
| `Algo.NormalisedSumsToOne` | internal/algo/algo.go:112-119 | normalised weights sum to one |
| `Algo.NormaliseIdempotent` | internal/algo/algo.go:107-119 | normalising a shared array again changes nothing, so every order gets the same proportions |
| `Algo.DefaultVwapProfile` | internal/algo/algo.go:226-234 | the loop fills a fresh array with the U-shaped curve: slot i and its mirror hold 1 - i / (n - 1) up to the centre, except for a single slice |
| `Algo.ProfileShape` | internal/algo/algo.go:224-234 | a palindrome that falls from 1 at the edges in steps of 1 / (n - 1) to the centre, 0.5 there for odd n, so values lie in [0.5, 1] and none is more than twice another |
| `Algo.SlicingConserves` | internal/algo/algo.go:68-133 | the slices of any parent sum to it exactly; every prefix and every slice of a non-negative parent stays within it |
| `Algo.TwapSlicesAre` | internal/algo/algo.go:68-102 | TWAP has the configured number of slices, or five, all alike |
| `Algo.VwapSlicesAre` | internal/algo/algo.go:106-133 | VWAP slices are in proportion to the configured weights if there is one per slice, else to the default curve |
| `Algo.ExecuteSlices` | internal/algo/algo.go:135-222 | fills, totals and counts of the slices sent before any cancellation; executed, failed and skipped add up to the slices seen; the price is the volume-weighted mean |
| `Algo.AggregatePreservesValue` | internal/gateway/gateway.go:502-510 | the published fill has the slices' total quantity and notional, at a price between the cheapest and dearest fill that moved quantity |
| `Algo.AggregateCostIsTotalIff` | internal/gateway/gateway.go:507-509 | the published cost is the slices' total exactly when all but the last cost nothing in sum |
| `Ids.SliceIdInjective` | internal/algo/algo.go:165-166 | distinct (parent, slice) pairs get distinct client order IDs, dashes in parents included |
| `Ids.SliceIdIs` | internal/algo/algo.go:165-166 | the slice ID is the parent, "-slice-" and the number counted from one |
| `Ids.ExecutionIdsAre` | internal/exchange/connector.go:54-60 | the texts of the REST, trade, fallback, reconcile and simulator forms |
| `Ids.ExecutionIdRoundTrip` | internal/exchange/binance.go:522-529 | every REST, trade, fallback and reconcile ID can be parsed back to its parts, for all order IDs, signed numbers, and quantity texts such as 1e-05 |
| `Ids.ExecutionIdsCollisionFree` | internal/exchange/connector.go:54-60 | the four forms are injective and pairwise disjoint |
| `Ids.SimulatorCollidesWithRestIff` | internal/exchange/simulator.go:115-115 | a simulator ID equals a REST ID exactly when the REST order's ID is the simulator order's with "-sim" appended and the numbers agree |
| `Ids.SimIdInjective` | internal/exchange/simulator.go:113-116 | simulator IDs determine order and counter |
| `Ids.Simulator.SubmitOrder` | internal/exchange/simulator.go:99-155 | unless cancelled while waiting out its latency it fills the whole order at its price or the configured one, counts it, records it as filled, and if configured emits it to the stream subscribers that have room |
| `Ids.Simulator.SubmitAll` | internal/exchange/simulator.go:113-116 | execution IDs are distinct within a run, even for a repeated order, cancelled ones using up no number |
| `Text.DecimalRoundTrip` | internal/algo/algo.go:166-166 | a printed number reads back as itself |
| `Text.DecimalIs` | internal/algo/algo.go:166-166 | numerals are positional, with digits 0 to 9 |
| `Text.UpperIs` | internal/exchange/binance.go:50-50 | the 26 small letters become the capitals, everything else stays |
| `Symbols.ToExchangeIdempotent` | internal/exchange/binance.go:49-55 | translating twice is translating once, for every string |
| `Symbols.ToExchangeNeverEndsInUsd` | internal/exchange/binance.go:49-66 | no result ends in USD, so the BUSD branch is dead on it |
| `Symbols.DownstreamAndBack` | internal/exchange/binance.go:49-66 | exchange(downstream(exchange(x))) = exchange(x) for every string |
| `Symbols.UsdPairRoundTrip` | internal/exchange/binance.go:49-66 | every upper-case dash-free base makes BASE-USD round-trip |
| `Symbols.DashesAndCaseDoNotMatter` | internal/exchange/binance.go:49-55 | dashes and case make no difference to the exchange symbol |
| `Symbols.PlainSymbolIs` | internal/exchange/binance.go:49-55 | and nothing else is changed but a T after a final USD |
| `Symbols.DownstreamSymbolIs` | internal/exchange/binance.go:58-66 | a USDT or BUSD symbol becomes its base with -USD, any other stays |
| `Sse.Decoder.Push` | internal/feed/sse.go:220-246 | one line's effect on the two fields, and the frame it completes |
| `Sse.Decoder.PushAll` | internal/feed/sse.go:215-246 | a fresh decoder fed any lines yields the block-wise reading of them |
| `Sse.DecoderRefinesBlocks` | internal/feed/sse.go:210-246 | line by line equals: split at blank lines, drop blocks without data, last event value or "message", data joined by newlines (section 9.2.6 of the WHATWG HTML Standard, event and data fields) |
| `Sse.DecodePrint` | internal/feed/sse.go:204-246 | printing any frames with named events and decoding returns them, multi-line data included |
| `Sse.FieldReads` | internal/feed/sse.go:237-244 | a field reads as the text after its first colon, less one leading space |
| `Sse.BareFieldReads` | internal/feed/sse.go:237-238 | a line without a colon is a field with an empty value |
| `Sse.DecodeUnnamed` | internal/feed/sse.go:226-232 | data without an event line makes a frame named "message" |
| `Sse.CommentsAreInvisible` | internal/feed/sse.go:234-236 | comment lines change nothing wherever they stand |
| `Sse.StreamRoundTrip` | internal/feed/sse.go:204-246 | the round trip holds with comments interleaved anywhere |
| `Risk.AcceptedIdsAre` | internal/gateway/risk.go:217-235 | accepted IDs are exactly 1 to 64 letters, digits, underscores and dashes; an empty and an over-long one are called so |
| `Risk.AllowedIff` | internal/gateway/risk.go:113-139 | an intent passes exactly when it is within both ceilings and above the floor of its instrument, and each refusal names the first limit broken |
| `Risk.LimitsAre` | internal/gateway/risk.go:117-125 | a listed instrument, in any case, has its own limits, any other the two defaults and no minimum |
| `Risk.SmallerOrdersStayWithinCaps` | internal/gateway/risk.go:129-137 | both ceilings pass to any smaller order of the same instrument and price |
| `GatewayFlow.StepFlows` | internal/gateway/gateway.go:220-591 | whatever the label, a step logs at most one event, gives a refusal only for the reason that holds, and moves each stage only from the stage, and under the guard, the source has before it |
| `GatewayFlow.StepEffect` | internal/gateway/tracker.go:43-128 | only the operator moves the switches; a worker changes memory by starting one table write and the table by completing it; only the limiter stage touches the bucket |
| `GatewayLoops.PublishFillWithRetry` | internal/gateway/gateway.go:134-159 | at most retries + 1 attempts; delivered exactly when an attempt that is made succeeds; exhausted and aborted told apart; each wait is twice the one before |
| `GatewayLoops.PublishLoopIsTheTransitions` | internal/gateway/gateway.go:571-591 | the publishing steps of the transition system end in exactly the state the loop's result says, failures logged in order |
| `GatewayLoops.StreamLoopIsTheTransitions` | internal/gateway/gateway.go:326-333 | the fills worker's publishing steps are the same loop: its attempts in the log, nothing else changed, then free for the next fill |
| `GatewayLoops.SliceLoopIsTheTransitions` | internal/gateway/gateway.go:502-510 | the sending steps collect exactly the fills the slice loop collects, and accept the order with their aggregate, or fail it if the loop was cut short |
| `GatewayTrace.DeliveryGrammar` | internal/gateway/gateway.go:344-591 | in every interleaving each finished delivery left one of a fixed set of words: a refusal commits once without submit or publish and names an ID or limit exactly if the order breaks it; only vetted orders are sent; an accepted order called exactly the positive slices of its plan in order, a failed one its only call in vain or the slices before a cut; the commit of an accepted order with a positive fill follows its confirmed publish within retries + 1 attempts; a publish given up on has no commit |
| `GatewayFate.CommittedFillsArePublishedIff` | internal/gateway/gateway.go:502-591 | in every run, of a finished delivery the exchange filled at all: a commit implies a confirmed publish exactly when its submission did not fail, it has no commit exactly when the publish was given up, and it fails only when sliced and cut short |
| `GatewayFate.FilledSliceIsCommittedAway` | internal/algo/algo.go:150-158 | from a boot: the first of two slices filled, then cancelled, is committed and never published |
| `GatewayFate.SliceIsFilledNotParent` | internal/gateway/gateway.go:502-554 | in every run of a slicing gateway whose exchange echoes order IDs, each FILLED the intent worker writes is for the last answered slice of its parent, never for the parent |
| `GatewayFate.HaltRecordsAnything` | internal/gateway/gateway.go:391-407 | under a halt any order ends rejected in memory and table, whatever its ID and whatever was known of it |
| `GatewayFate.HaltOrphansLiveOrder` | internal/gateway/gateway.go:391-407 | after that no boot, whatever the exchange answers, backfills, updates or loads it |
| `GatewayFate.InvalidIdSavedOnlyByHalt` | internal/gateway/gateway.go:409-432 | in every run a row for an invalid ID is written only by a halt refusal |
| `GatewayRefusals.ScreenDecides` | internal/gateway/gateway.go:391-446 | a halt, a bad ID and a known ID are found in this order, and each decides the outcome alone |
| `GatewayRefusals.RiskDecides` | internal/gateway/gateway.go:608-623 | then the policy, then whether the count can be read, then today's count against the daily cap |
| `GatewayRefusals.SideDecides` | internal/gateway/gateway.go:625-645 | a buy is held to a positive buy cap, a sell to a positive sell cap, and nothing else to either |
| `GatewayRefusals.RefusedAreRecorded` | internal/gateway/gateway.go:391-469 | in every run a finished delivery refused by a halt, a limit, a count or an unreadable count has its ID in memory and in the table |
| `GatewayRefusals.RecordedIffReason` | internal/gateway/gateway.go:391-469 | from a refusal to the end of its delivery, over any interleaving that brings no fill for the order, it ends rejected in memory and table, unless the ID was bad or known, and then nothing about it changes |
| `GatewayRefusals.FailureIsRecorded` | internal/gateway/gateway.go:519-533 | a failed submission ends rejected in memory and table, its recorded quantity kept while it was active |
| `GatewayRefusals.StreamedFillIsRecorded` | internal/gateway/gateway.go:293-304 | a streamed fill sets the state it reports, FILLED if none, and the quantity it carries, before it is published |
| `GatewayOnce.AtMostOncePerOrderId` | internal/gateway/gateway.go:433-513 | in every interleaving no client order ID, direct or slice, is submitted twice within a process |
| `GatewayOnce.RedeliveryIsSwallowed` | internal/gateway/gateway.go:433-446 | once an order was admitted, no other delivery of its ID gets past the duplicate check |
| `GatewayLives.ResubmittedOnlyIfFinished` | internal/gateway/gateway.go:483-513 | over any sequence of processes on one table, an order sent in one and again in a later one had a finished row when the later one booted |
| `GatewayLives.SameClientIdIff` | internal/algo/algo.go:165-174 | two processes send one client order ID exactly when they send the same order or slice, whose row was then finished, or one slices and the other sends an order named after the slice |
| `GatewayLives.ProcessCanSendIff` | internal/gateway/gateway.go:433-513 | over any table a process can send an order exactly when the table does not hold its ID as active and some order of that ID passes every check and has a slice to send |
| `GatewayLives.FirstLifeGivesUp` | internal/gateway/gateway.go:545-582 | from a boot: an order is submitted, marked filled, and its fill given up on |
| `GatewayLives.GivenUpIsSubmittedAgain` | internal/gateway/gateway.go:565-582 | the next process over that table can submit it again |
| `GatewayCaps.DailyCapsHold` | internal/gateway/gateway.go:608-649 | in every interleaving, orders not stored at boot that were submitted and created on a day number at most maxDailyOrders, the buys at most a positive maxDailyBuys, the sells at most a positive maxDailySells, across midnight too |
| `GatewayCaps.AdmissionCountsIffNew` | internal/gateway/store.go:136-161 | saving an order raises today's count by one exactly if its ID had no row |
| `GatewayCaps.PlanWithinCaps` | internal/algo/algo.go:87-174 | every order a plan sends keeps to the parent's ceilings |
| `GatewayCaps.LimitsSurviveSlicing` | internal/gateway/gateway.go:448-513 | in every interleaving each order reaching the exchange is within its instrument's ceilings, and slices are positive |
| `GatewayCaps.MinimumSurvivesTwapIff` | internal/gateway/risk.go:126-128 | TWAP slices meet the minimum exactly when the parent holds that many minimums, or is not positive |
| `GatewayCaps.MinimumSurvivesVwapIff` | internal/algo/algo.go:106-133 | VWAP slices meet it exactly when minimum times total weight is at most parent times weight, for each positive weight |
| `GatewayCaps.ThinSlices` | internal/algo/algo.go:87-102 | a parent of exactly the minimum passes the checks and has TWAP slices below it |
| `GatewayCaps.ThinVwapSlices` | internal/algo/algo.go:106-133 | and VWAP slices below it, as soon as two carry weight |
| `GatewayRate.SubmissionRate` | internal/gateway/gateway.go:472-513 | in every interleaving a window of T seconds sees at most 1 + rps * (1 + T) exchange calls in direct mode, and that many times the slice count when slicing |
| `GatewayQuiesce.DrainLetsOneThrough` | internal/gateway/gateway.go:191-217 | once intake is closed, in every continuation all grants, admissions and exchange calls belong to one delivery and one parent order |
| `GatewayDrain.DrainIsOverIff` | internal/gateway/gateway.go:184-217 | in every reachable state with intake closed, no continuation grants, admits or sends anything exactly when the worker's stage, its order, the known IDs and the settings rule it out |
| `GatewayDrain.ZeroActiveIsNotDrained` | internal/gateway/gateway.go:203-209 | from a boot: a drain finds no active order while one in the limiter can still go out |
| `GatewayLate.NothingLateIff` | internal/gateway/gateway.go:184-190 | in any state, as long as nothing new is heard, no continuation publishes anything exactly when neither worker holds a positive answer or a streamed fill it may still publish |
| `GatewayLate.ZeroActiveMayOweAFill` | internal/gateway/gateway.go:203-209 | from a boot: a drain finds no active order while a fill is unpublished, and the shutdown that follows lets it be lost |
| `GatewayQuiesce.HaltLetsOneThrough` | internal/gateway/risk.go:156-179 | while a halt stands, in every continuation all grants, admissions and exchange calls belong to the delivery at work when it was set |
| `GatewayCoherence.CoherentWithoutRaces` | internal/gateway/tracker.go:43-128 | in every interleaving where the workers' outstanding writes never meet on a row, memory and table agree on all rows not being written, and with none outstanding a restart keeps every active order |
| `GatewayCoherence.SettledRowAgreesIff` | internal/gateway/tracker.go:66-128 | over every run, a row with no write outstanding is as booted if untouched, and otherwise agrees with memory exactly when the last worker into memory was the last into the table, or both asked for the same state |
| `GatewayCoherence.RaceHidesActiveOrder` | internal/gateway/gateway.go:293-304 | a streamed FILLED racing SUBMITTED leaves an order active in memory and finished in the table |
| `GatewayCoherence.RaceHappens` | internal/gateway/gateway.go:511-537 | that race is reached from a boot |
| `GatewayCoherence.FinishedRowRevivedIff` | internal/gateway/tracker.go:43-128 | one step makes a finished row active exactly when it completes a SUBMITTED, a re-admission or a streamed non-terminal status for it |
| `GatewayCoherence.TerminalAbsorbingIff` | internal/gateway/gateway.go:293-304 | over any run a finished row stays finished exactly when no step is one of those |

## Left out

- Broker, HTTP, WebSocket and SQL mechanics: they appear as labels, append-only logs and a map of rows; database writes succeed, a failed count query appears as a refusal.
- A gateway without a store: the transition system always has a table; `Tracker.OrderTracker` covers the missing store.
- Broker redelivery and cumulative offsets: any intent may be delivered at any time, and commits are stated per delivery.
- Float rounding, NaN, infinities and duration overflow: VWAP runs need non-negative weights with a positive sum, or at least two slices for the default curve, whose single-slice form divides by zero.
- Algo.Normalise: says nothing of the weights over a zero total, where the source's quotients are not numbers.
- Algo.DefaultVwapProfile: says nothing of the weight of a single slice, which the source computes as zero over zero.
- Limiter.TokenBucketLimiter.Wait: gives no sleep at a zero rate, where the source converts an infinity to a duration.
- Local time zones and daylight saving: a day is 24 hours of the model's clock.
- Ids.ExecutionIdRoundTrip: takes quantity texts to be those of positive numbers, which have a dash only before a negative exponent.
- Reconcile.ConsumerIsExactIff: speaks of backfills alone, for an exchange that never takes quantity back; `Ledger` adds trades and reports. How a quantity is printed is a parameter.
- A consumer whose memory of execution IDs is bounded.
- The drain's polling loop and its deadline.
- Slice pacing and submit deadlines: a cancellation may come between any two slices instead.
- Commission, slippage and update-time columns, cost recording, the halt's reason text.
- Reconnect and stream backoff, request signing, JSON decoding, policy loading from YAML, upper-casing beyond ASCII.
- Telemetry, tracing, health and admin endpoints, the latest-feature store, mock binaries: they would add only easy members.
