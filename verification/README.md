# Verification of the execution engine's state machines

A Dafny model of the parts of the multi-venue execution engine that carry whole-run
guarantees: bounded caches that must not forget too early, handlers that interleave,
persisted state that must survive a restart, and exact decimal rounding. `dafny verify
dfyconfig.toml` checks everything.

| file | what it models |
|---|---|
| `Common.dfy` | option and result types, order statuses |
| `RecencyQueue.dfy` | bounded recency-ordered id sets, behind five caches of the Hyperliquid, IBKR and Bybit adapters |
| `Decimals.dfy`, `HyperliquidPrices.dfy` | decimal values, the Hyperliquid tick rule, tick rounding, the derived tick |
| `HyperliquidFills.dfy` | fill dedupe, parking, deadlines, REST gap cover, shutdown |
| `HyperliquidAccount.dfy` | heartbeat snapshots diffed into position and balance events, replayed by the engine |
| `HyperliquidSnapshots.dfy` | order snapshots that thin pushes and REST results race on |
| `HyperliquidRates.dfy` | the pruned sliding request window |
| `IbkrRefs.dfy`, `IbkrProtection.dfy` | order references; cancel-confirm-replace of a protective pair under interleaving |
| `IbkrStatus.dfy` | three sources of order status behind one suppression rule |
| `IbkrFillJoin.dfy` | executions and commissions joined in either order |
| `IbkrBalances.dfy` | streamed and polled balances from account-value tags |
| `EngineFillWindow.dfy` | the reconciliation watermark and the surgical fill repair |
| `EngineHalts.dfy` | the halt state machine, its persisted table, halt management after a pass |
| `BybitOrders.dfy` | live and finished order ids standing in for full order history |
| `BinanceRates.dfy` | the multi-bucket request budget |

Handlers that run without suspending are atomic steps. Code that updates objects in
place is a class whose methods are proved equal to a step function on the abstract
state; whole-run theorems are lemmas about runs of that function. Calls that suspend
(`IbkrProtection`) are a state machine with one transition per poll. Venue replies,
clocks, iteration orders and made-up ids are arbitrary inputs.

## Where the code and its documentation part

- Hyperliquid fills without an id are documented to publish raw; translation needs the
  same fields, so they never publish (`IdlessFillsNeverPublish`).
- Stopping is documented never to drop a parked fill; `disconnect` clears what was
  parked after its flush (`TeardownWindowLosesAFill`).
- A malformed push is documented to change nothing; a malformed leg inside a well-formed
  push closes its position (`MalformedLegCloses`) and a malformed balance row publishes a
  zero balance (`MalformedRowZeroes`), exactly when no other entry of the push stands for
  the same coin or currency.
- The snapshot fill is documented to be monotone. It is sure to be exactly when no orphan
  query is in flight at the placement (`MaximumSurvivesIff`); one that is can lower the
  fill (`LateAnswerLowersFill`). The status can go back (`LateAckReopens`).
- Tick rounding is optimal among five-figure prices; the validator also accepts prices off
  that grid, such as longer integers, and rounding moves them (`RoundingFixesTheGrid`).
- A commission is attached once per execution; a second sighting of the execution can
  drop it (`ResightingForgetsFee`).
- Streamed and polled balances are documented never to disagree. They read the same tags
  exactly when no tag's latest value is empty or unreadable after a usable one
  (`SameTagIffFresh`): the stream keeps the old value, the poll drops the tag
  (`EmptyTotalDiverges`). The mirror's rows carry no account (`ForeignAccountLeaks`).
- A clear that returned can be undone by a modify that read the side back earlier
  (`LostClear`); it cannot exactly when every waiting call that read it is out of time
  (`ClearedStaysGoneIff`).
- The instant of the first watermark is compared only by the second clean pass unless the
  lag is zero (`EveryInstantIsCompared`).
- The fill repair converges when both sides agree on the owner of every fill id
  (`RepairConverges`).
- The halt table's key is narrower than an instrument (`SharedRowForgetsAHalt`), and an
  account change is persisted with automatic halts off (`DisabledHaltReturns`).
- A malformed definition list in a successful exchange-info response loses that response's
  counter headers and its raw request (`MalformedLosesCounters`).

## Model

| member | source | states |
|---|---|---|
| RecencyQueue.ForgottenNeedsCap | packages/adapter-ibkr/src/unified_trading_execution/ibkr/adapter.py:2418-2423 | An id that entered a bounded recency container and is no longer held was displaced by at least `cap` pairwise distinct other ids inserted since; every suppression window below uses this. |
| RecencyQueue.ReentryNeedsCap | packages/adapter-hyperliquid/src/unified_trading_execution/hyperliquid/adapter.py:588-606 | When ids enter only while absent, two entries of the same id are separated by at least `cap` pairwise distinct other ids. |
| RecencyQueue.StaysHeldThroughout | packages/adapter-hyperliquid/src/unified_trading_execution/hyperliquid/adapter.py:781-787 | While fewer than `cap` distinct other ids are inserted, however often and in whatever order, an id is never displaced. |
| RecencyQueue.TouchAllIsWindow | packages/adapter-hyperliquid/src/unified_trading_execution/hyperliquid/adapter.py:781-787 | Inserting a whole log into an empty container gives the window of the log. |
| RecencyQueue.SilencedUntilForgotten | packages/adapter-ibkr/src/unified_trading_execution/ibkr/adapter.py:2418-2423 | A finished id that the bounded memory no longer holds was displaced by at least `cap` distinct others that finished after it. |
| HyperliquidFills.PublishedAtMostOnce | packages/adapter-hyperliquid/src/unified_trading_execution/hyperliquid/adapter.py:588-619 | Over any run of pushes, snapshots, deadlines, REST pages, index writes and shutdowns, two publications of one fill id are separated by at least 10000 pairwise distinct other ids entering the seen-window. |
| HyperliquidFills.AreasStayBounded | packages/adapter-hyperliquid/src/unified_trading_execution/hyperliquid/adapter.py:955-1021 | Over any run the window is duplicate-free and at most 10000 long, at most 1000 fills are parked, each once, and every parked fill has a deadline task. |
| HyperliquidFills.DuplicatePushIsSilent | packages/adapter-hyperliquid/src/unified_trading_execution/hyperliquid/adapter.py:895-953 | Delivering an entry twice, as the two subscribed channels do, is the same as delivering it once. |
| HyperliquidFills.PushIsAccounted | packages/adapter-hyperliquid/src/unified_trading_execution/hyperliquid/adapter.py:895-953 | After a push every keyed, translatable fill is published, parked or already in the seen history. |
| HyperliquidFills.NoLiveFillIsDropped | packages/adapter-hyperliquid/src/unified_trading_execution/hyperliquid/adapter.py:895-1021 | At the end of any run after the push the fill is still accounted for, unless a disconnect clearing met that very fill parked and unseen, whatever becomes of other fills. |
| HyperliquidFills.StepKeepsAccounts | packages/adapter-hyperliquid/src/unified_trading_execution/hyperliquid/adapter.py:403-425 | Every step but the clearing that ends `disconnect` keeps a fill accounted for; the clearing keeps it exactly if it already entered the history. |
| HyperliquidFills.TeardownWindowLosesAFill | packages/adapter-hyperliquid/src/unified_trading_execution/hyperliquid/adapter.py:403-425 | A fill pushed after the shutdown flush and before the clearing is neither published nor remembered (the code comment says stopping never drops one). |
| HyperliquidFills.LeavesOnlyPublished | packages/adapter-hyperliquid/src/unified_trading_execution/hyperliquid/adapter.py:979-1009 | A fill leaves the parking area only by being published in that very step or because the window already held it. |
| HyperliquidFills.FlushPublishes | packages/adapter-hyperliquid/src/unified_trading_execution/hyperliquid/adapter.py:979-1009 | Flushing a key publishes the parked entry with the attribution known at that moment, exactly when the window does not hold it, and touches no other parked fill. |
| HyperliquidFills.FlushAllValid | packages/adapter-hyperliquid/src/unified_trading_execution/hyperliquid/adapter.py:1011-1021 | The shutdown flush empties the parking area, ends every deadline and keeps the invariant. |
| HyperliquidFills.TeardownSteps | packages/adapter-hyperliquid/src/unified_trading_execution/hyperliquid/adapter.py:403-425 | Shutting down is that flush; the clearing that ends `disconnect` forgets what still waits and the order index, and nothing else. |
| HyperliquidFills.DeadlineEndsOneTask | packages/adapter-hyperliquid/src/unified_trading_execution/hyperliquid/adapter.py:968-977 | An elapsed deadline ends one task, whether or not its fill still waits; without a running task nothing changes. |
| HyperliquidFills.IdlessSnapshotIsIgnored | packages/adapter-hyperliquid/src/unified_trading_execution/hyperliquid/adapter.py:588-606 | An entry without an id leaves no trace in a snapshot. |
| HyperliquidFills.StartupPageIsSilent | packages/adapter-hyperliquid/src/unified_trading_execution/hyperliquid/adapter.py:621-639 | A page read at startup publishes nothing. |
| HyperliquidFills.GapPagePublishes | packages/adapter-hyperliquid/src/unified_trading_execution/hyperliquid/adapter.py:621-639 | A page read after a gap publishes the first record of every id the window did not hold, and nothing that is not on the page. |
| HyperliquidFills.PageIsRemembered | packages/adapter-hyperliquid/src/unified_trading_execution/hyperliquid/adapter.py:621-639 | Either way every id of the page has entered the seen history. |
| HyperliquidFills.SnapshotIsSilent | packages/adapter-hyperliquid/src/unified_trading_execution/hyperliquid/adapter.py:588-606 | A snapshot entry publishes nothing. |
| HyperliquidFills.SnapshotIsRemembered | packages/adapter-hyperliquid/src/unified_trading_execution/hyperliquid/adapter.py:588-606 | An entry with an id has entered the seen history afterwards. |
| HyperliquidFills.KnownFillPublishes | packages/adapter-hyperliquid/src/unified_trading_execution/hyperliquid/adapter.py:895-953 | A live fill of an order the index knows is published at once, with its own id, coin and terms and the name and reason of the index. |
| HyperliquidFills.LateNameReachesTheFill | packages/adapter-hyperliquid/src/unified_trading_execution/hyperliquid/adapter.py:955-1009 | A fill that came before its order was known is published at its deadline under the name learned meanwhile, and not before. |
| HyperliquidFills.NamelessFillPublishes | packages/adapter-hyperliquid/src/unified_trading_execution/hyperliquid/adapter.py:955-1009 | If the order is never learned the deadline publishes the fill under its raw order id, else its hash, with no reason. |
| HyperliquidFills.IdlessFillsNeverPublish | packages/adapter-hyperliquid/src/unified_trading_execution/hyperliquid/adapter.py:895-953 | An entry without hash or tid is never published: the documented raw fallback is unreachable because translation needs the same fields. |
| HyperliquidFills.FillPublisher.PublishFillEntry | packages/adapter-hyperliquid/src/unified_trading_execution/hyperliquid/adapter.py:895-953 | The in-place handler reaches exactly the state of the model step for a push. |
| HyperliquidFills.FillPublisher.ParkFill | packages/adapter-hyperliquid/src/unified_trading_execution/hyperliquid/adapter.py:955-966 | In place: flush the oldest when full, then park and start a deadline. |
| HyperliquidFills.FillPublisher.Flush | packages/adapter-hyperliquid/src/unified_trading_execution/hyperliquid/adapter.py:979-1009 | In place: the flush of one key equals the model step. |
| HyperliquidFills.FillPublisher.HoldElapsed | packages/adapter-hyperliquid/src/unified_trading_execution/hyperliquid/adapter.py:968-977 | A deadline flushes its key with the attribution known then. |
| HyperliquidFills.FillPublisher.FillSeen | packages/adapter-hyperliquid/src/unified_trading_execution/hyperliquid/adapter.py:588-606 | Reports whether the id was known and remembers it without publishing when it was not. |
| HyperliquidFills.FillPublisher.AbsorbFills | packages/adapter-hyperliquid/src/unified_trading_execution/hyperliquid/adapter.py:621-639 | The loop over a REST page equals the fold of the model over its records. |
| HyperliquidFills.FillPublisher.FlushAllParked | packages/adapter-hyperliquid/src/unified_trading_execution/hyperliquid/adapter.py:1011-1021 | The shutdown loop flushes every parked key and cancels all deadlines. |
| HyperliquidAccount.SnapshotDiff.Absorb | packages/adapter-hyperliquid/src/unified_trading_execution/hyperliquid/adapter.py:1023-1102 | Diffing a snapshot announces exactly the keys that changed or vanished, each once, with their new values, and rebases the baseline; the first snapshot announces nothing. |
| HyperliquidAccount.ReplayReachesPush | packages/adapter-hyperliquid/src/unified_trading_execution/hyperliquid/adapter.py:1023-1102 | Applying the published position events with the engine rule turns any mirror equal to the old legs into exactly the new legs. |
| HyperliquidAccount.PositionMirrorFollows | packages/core/src/unified_trading_execution/engine.py:1578-1588 | After any run of pushes, malformed ones included, the mirror equals the legs of the latest well-formed push. |
| HyperliquidAccount.HandleClearinghouse | packages/adapter-hyperliquid/src/unified_trading_execution/hyperliquid/adapter.py:1023-1102 | One push: malformed changes nothing; otherwise the baseline becomes the translated legs and the published updates replay the difference. |
| HyperliquidAccount.PushShowsLeg | packages/adapter-hyperliquid/src/unified_trading_execution/hyperliquid/adapter.py:1047-1066 | A push shows a coin with the signed size and entry price of its last usable leg. |
| HyperliquidAccount.PushShowsOnlyLegs | packages/adapter-hyperliquid/src/unified_trading_execution/hyperliquid/adapter.py:1047-1066 | And shows no coin without a one-way leg of nonzero size. |
| HyperliquidAccount.HeartbeatIsSilent | packages/adapter-hyperliquid/src/unified_trading_execution/hyperliquid/adapter.py:1023-1102 | A push publishes nothing if and only if it repeats the baseline. |
| HyperliquidAccount.MalformedLegCloses | packages/adapter-hyperliquid/src/unified_trading_execution/hyperliquid/adapter.py:1023-1102 | The protection of malformed pushes stops at the list: a close of a coin is published exactly when the coin was published before and no leg of the push translates to it, so a leg that is there but malformed closes its position. |
| HyperliquidAccount.MalformedRowZeroes | packages/adapter-hyperliquid/src/unified_trading_execution/hyperliquid/adapter.py:1104-1188 | Balances alike: a zero balance is published exactly when the currency was held and no row of the push translates to it, a malformed row included. |
| HyperliquidAccount.ReplayReachesRows | packages/adapter-hyperliquid/src/unified_trading_execution/hyperliquid/adapter.py:1104-1188 | Applying the published balance events to a mirror equal to the old rows, absence meaning zero, gives the new rows. |
| HyperliquidAccount.BalanceMirrorFollows | packages/adapter-hyperliquid/src/unified_trading_execution/hyperliquid/adapter.py:1104-1188 | After any run of pushes the balance mirror equals the rows of the latest well-formed push, absence meaning zero. |
| HyperliquidAccount.HandleSpot | packages/adapter-hyperliquid/src/unified_trading_execution/hyperliquid/adapter.py:1104-1188 | One spot push, in the same terms as a position push. |
| HyperliquidAccount.PushShowsRow | packages/adapter-hyperliquid/src/unified_trading_execution/hyperliquid/adapter.py:1134-1149 | A push shows a currency as its last usable row has it: what is held is used, the rest of the total is free, and a hold above the total raises the total. |
| HyperliquidAccount.PushShowsOnlyRows | packages/adapter-hyperliquid/src/unified_trading_execution/hyperliquid/adapter.py:1134-1149 | And shows no currency whose rows are all dust or unusable. |
| HyperliquidAccount.TranslateRows | packages/adapter-hyperliquid/src/unified_trading_execution/hyperliquid/adapter.py:1104-1188 | Every kept row is nonzero, splits its total into free and used, and has free at or above zero. |
| HyperliquidSnapshots.SnapshotRace | packages/adapter-hyperliquid/src/unified_trading_execution/hyperliquid/adapter.py:1616-1660 | From placement on, while no rich push replaces the snapshot, no orphan query from before is still to be answered and fewer than 10000 other orders are touched, any interleaving of thin pushes, acknowledgement, amendments and cancels leaves the filled quantity at the largest value reported, the status at the last one, and the terms unchanged. |
| HyperliquidSnapshots.MaximumSurvivesIff | packages/adapter-hyperliquid/src/unified_trading_execution/hyperliquid/adapter.py:847-857 | Every undisturbed run after a placement, late answers included, is sure to leave the order held at the largest reported fill exactly when no orphan query for it is in flight at the placement. |
| HyperliquidSnapshots.FillAfterLastAnswer | packages/adapter-hyperliquid/src/unified_trading_execution/hyperliquid/adapter.py:847-857 | In a run with answers the fill is the largest of the last stored answer and the reports that followed it, the status the last one. |
| HyperliquidSnapshots.SnapshotFields | packages/adapter-hyperliquid/src/unified_trading_execution/hyperliquid/adapter.py:789-804 | In the race that follows a placement the average price and the venue's id are the last ones told, and price and quantity the last ones asked for. |
| HyperliquidSnapshots.DroppedOrReplaced | packages/adapter-hyperliquid/src/unified_trading_execution/hyperliquid/adapter.py:836-846 | A rejected submit drops the snapshot; a rich push replaces it unless it names no order. |
| HyperliquidSnapshots.UnheldReport | packages/adapter-hyperliquid/src/unified_trading_execution/hyperliquid/adapter.py:847-860 | A report on an order that is not held adds nothing; a thin push starts a query whose answer is stored and ends it. |
| HyperliquidSnapshots.UnheldResult | packages/adapter-hyperliquid/src/unified_trading_execution/hyperliquid/adapter.py:1646-1717 | An acknowledgement of an order that is not held tells the intent; an amendment changes the live record it read. |
| HyperliquidSnapshots.LateAnswerLowersFill | packages/adapter-hyperliquid/src/unified_trading_execution/hyperliquid/adapter.py:847-857 | Such a run is reachable from the empty store: a push before placement starts the query, and its answer lowers a fill pushed meanwhile. |
| HyperliquidSnapshots.StepKeepsHeld | packages/adapter-hyperliquid/src/unified_trading_execution/hyperliquid/adapter.py:789-804 | One report on a held order: the fill is the maximum of old and reported, the status the reported one, the terms stay. |
| HyperliquidSnapshots.StoreStaysBounded | packages/adapter-hyperliquid/src/unified_trading_execution/hyperliquid/adapter.py:781-787 | Over any run at most 10000 snapshots are held, and keys and rows agree. |
| HyperliquidSnapshots.LateAckReopens | packages/adapter-hyperliquid/src/unified_trading_execution/hyperliquid/adapter.py:1616-1660 | Only the fill is protected: an acknowledgement that lost the race against the push of the complete fill reopens the snapshot. |
| HyperliquidSnapshots.EvictOldest | packages/adapter-hyperliquid/src/unified_trading_execution/hyperliquid/adapter.py:781-787 | The eviction loop keeps exactly the newest 10000 keys and their rows. |
| HyperliquidSnapshots.OrderSnapshots.OnSubmit | packages/adapter-hyperliquid/src/unified_trading_execution/hyperliquid/adapter.py:1614-1616 | The intent is stored before the submit, without fill. |
| HyperliquidSnapshots.OrderSnapshots.OnAck | packages/adapter-hyperliquid/src/unified_trading_execution/hyperliquid/adapter.py:1646-1660 | The acknowledgement in place: the intent's terms, the larger fill, equal to the model step. |
| HyperliquidSnapshots.OrderSnapshots.OnAmended | packages/adapter-hyperliquid/src/unified_trading_execution/hyperliquid/adapter.py:1696-1717 | The amendment in place: onto the snapshot, else onto the live record read before. |
| HyperliquidSnapshots.OrderSnapshots.OnCancelDone | packages/adapter-hyperliquid/src/unified_trading_execution/hyperliquid/adapter.py:1746-1759 | The cancel result in place: onto a held snapshot only. |
| HyperliquidSnapshots.OrderSnapshots.OnThinPush | packages/adapter-hyperliquid/src/unified_trading_execution/hyperliquid/adapter.py:847-854 | A thin push in place: merged onto the snapshot, or suspended in an orphan query when there is none and the id is known. |
| HyperliquidSnapshots.OrderSnapshots.OnOrphanAnswer | packages/adapter-hyperliquid/src/unified_trading_execution/hyperliquid/adapter.py:852-860 | The answer in place: stored whatever happened meanwhile, nothing on failure. |
| HyperliquidSnapshots.OrderSnapshots.OnRichPush | packages/adapter-hyperliquid/src/unified_trading_execution/hyperliquid/adapter.py:841-846 | A rich push in place becomes the next merge base. |
| HyperliquidSnapshots.OrderSnapshots.ForgetSnapshot | packages/adapter-hyperliquid/src/unified_trading_execution/hyperliquid/adapter.py:1640-1645 | A rejected submit drops the speculative snapshot and nothing else. |
| HyperliquidSnapshots.OrderSnapshots.RememberSnapshot | packages/adapter-hyperliquid/src/unified_trading_execution/hyperliquid/adapter.py:781-787 | Inserting moves the order to the newest place and evicts the oldest. |
| HyperliquidPrices.RoundPriceToTick | packages/adapter-hyperliquid/src/unified_trading_execution/hyperliquid/orders.py:173-211 | For every positive price the loop terminates and returns the best value on its side with at most five significant figures and `cap - szDecimals` decimals; it raises exactly when rounding down a price below the first tick (or on bad arguments); the result passes the validator and is within one first tick or price/10^4. |
| HyperliquidPrices.QuantizeAcceptsExactly | packages/adapter-hyperliquid/src/unified_trading_execution/hyperliquid/orders.py:142-170 | The validator accepts exactly the positive integers and the prices with five significant figures and few enough decimals, with the errors of each other case. |
| HyperliquidPrices.RoundingFixesTheGrid | packages/adapter-hyperliquid/src/unified_trading_execution/hyperliquid/orders.py:142-211 | A best rounding leaves a price alone exactly when it is on the grid, so of the accepted prices it moves those off the grid. |
| HyperliquidPrices.CandidateIsBest | packages/adapter-hyperliquid/src/unified_trading_execution/hyperliquid/orders.py:200-211 | The first coarsening that has five significant figures beats every grid value on that side of the price. |
| HyperliquidPrices.CandidateIsNear | packages/adapter-hyperliquid/src/unified_trading_execution/hyperliquid/orders.py:200-211 | Its error is under one first tick or under price/10^4. |
| HyperliquidPrices.DerivedTickIsLegal | packages/adapter-hyperliquid/src/unified_trading_execution/hyperliquid/adapter.py:1915-1927 | Every positive multiple of the derived tick up to the top of the mark's decade passes the validator. |
| HyperliquidPrices.DerivedTickIsFineEnough | packages/adapter-hyperliquid/src/unified_trading_execution/hyperliquid/adapter.py:1921-1926 | Every price on the grid at or above the mark's decade is a multiple of the derived tick. |
| HyperliquidPrices.FallbackTick | packages/adapter-hyperliquid/src/unified_trading_execution/hyperliquid/adapter.py:1915-1928 | Without a usable mark the tick is itself a legal price and every price on the grid is a multiple of it. |
| HyperliquidPrices.MarkBelowDecadeTop | packages/adapter-hyperliquid/src/unified_trading_execution/hyperliquid/adapter.py:1915-1927 | The mark itself lies below the top of its decade, so the guarantee covers prices around it. |
| HyperliquidRates.RateBudget.Spent | packages/adapter-hyperliquid/src/unified_trading_execution/hyperliquid/rates.py:140-144 | With a monotone clock the pruned list answers the sum over the complete record history of weights newer than `now - window`, however pruning interleaved. |
| HyperliquidRates.RateBudget.Prune | packages/adapter-hyperliquid/src/unified_trading_execution/hyperliquid/rates.py:136-138 | Pruning leaves exactly the live part of the whole history. |
| HyperliquidRates.RateBudget.Record | packages/adapter-hyperliquid/src/unified_trading_execution/hyperliquid/rates.py:127-134 | Recording appends to the history and moves the clock no further than its instant; non-positive weights are ignored. |
| HyperliquidRates.ServeAll | packages/adapter-hyperliquid/src/unified_trading_execution/hyperliquid/rates.py:127-162 | Over any sequence of recordings and questions at non-decreasing instants, every answer of the pruned tracker is the function of the complete record history. |
| HyperliquidRates.RateBudget.Remaining | packages/adapter-hyperliquid/src/unified_trading_execution/hyperliquid/rates.py:146-148 | What is left is positive exactly when the window sum is below the budget, and then completes it. |
| HyperliquidRates.RateBudget.ResetsIn | packages/adapter-hyperliquid/src/unified_trading_execution/hyperliquid/rates.py:150-162 | Answers the delay of the whole history. |
| HyperliquidRates.ResetIsTheFirstRecovery | packages/adapter-hyperliquid/src/unified_trading_execution/hyperliquid/rates.py:150-162 | With no new records the spend is constant until the delay elapses and, if anything was spent, strictly smaller from that instant on; the delay is never negative and zero exactly when nothing is spent. |
| HyperliquidRates.PrunedIsEnough | packages/adapter-hyperliquid/src/unified_trading_execution/hyperliquid/rates.py:136-138 | Pruning at an earlier cutoff loses nothing a later one keeps. |
| IbkrRefs.PrefixesAreDisjoint | packages/adapter-ibkr/src/unified_trading_execution/ibkr/adapter.py:191-195 | With digits-only position ids no reference carries the prefix of two positions or of two sides. |
| IbkrRefs.OwnRefsAreRecognised | packages/adapter-ibkr/src/unified_trading_execution/ibkr/adapter.py:177-188 | Every reference the adapter writes is recognised as a protective one. |
| IbkrRefs.DigitsAreTen | packages/adapter-ibkr/src/unified_trading_execution/ibkr/adapter.py:184-187 | Position ids are told by the ten ASCII digits and no other character. |
| IbkrRefs.FirstIndex | packages/adapter-ibkr/src/unified_trading_execution/ibkr/adapter.py:184-187 | The split is at the first occurrence of the infix. |
| IbkrRefs.SiblingIsMutual | packages/adapter-ibkr/src/unified_trading_execution/ibkr/adapter.py:2460-2463 | The other leg of a bracket is a different reference whose other leg is the first one. |
| IbkrRefs.SiblingOfLeg | packages/adapter-ibkr/src/unified_trading_execution/ibkr/adapter.py:2458-2463 | `<parent>:tp` and `<parent>:sl` are each other's siblings. |
| IbkrRefs.OnlyLegsHaveSiblings | packages/adapter-ibkr/src/unified_trading_execution/ibkr/adapter.py:2458-2463 | No other reference has a sibling. |
| IbkrStatus.FinalStatusIsFinal | packages/adapter-ibkr/src/unified_trading_execution/ibkr/adapter.py:2402-2434 | Across the status stream, 201/202 stamps and sibling inference, no event of any kind follows an order's final event until at least 1000 other orders became final. |
| IbkrStatus.ProtectiveOrdersStayPrivate | packages/adapter-ibkr/src/unified_trading_execution/ibkr/adapter.py:2402-2434 | No run publishes an event for a protective order, and the set of remembered final ids stays duplicate-free and bounded. |
| IbkrStatus.SiblingCancelIsTheOtherLeg | packages/adapter-ibkr/src/unified_trading_execution/ibkr/adapter.py:2436-2487 | A filled leg cancels its sibling, never itself, whatever manual orders are in the session. |
| IbkrStatus.PublishIsExact | packages/adapter-ibkr/src/unified_trading_execution/ibkr/adapter.py:2402-2434 | A report is published exactly when its order is neither protective nor remembered as final, and remembered exactly when its status is filled, cancelled, rejected or expired. |
| IbkrStatus.StatusEventIsExact | packages/adapter-ibkr/src/unified_trading_execution/ibkr/adapter.py:2370-2400 | A status event of an order that is not protective is published as translated, any other not at all. |
| IbkrStatus.ErrorEventIsExact | packages/adapter-ibkr/src/unified_trading_execution/ibkr/adapter.py:1989-2013 | Error 201 publishes the order of that number as rejected, 202 as cancelled unless it is protective, and no other error publishes anything. |
| IbkrStatus.UnknownErrorIsSilent | packages/adapter-ibkr/src/unified_trading_execution/ibkr/adapter.py:2039-2075 | An error about no order or an unknown one publishes nothing. |
| IbkrStatus.FilledLegIsExact | packages/adapter-ibkr/src/unified_trading_execution/ibkr/adapter.py:2436-2487 | A completely filled bracket exit publishes its sibling as cancelled; a partial fill, a fill that is no exit and an untranslatable sibling publish nothing. |
| IbkrStatus.LegWithoutSiblingIsSilent | packages/adapter-ibkr/src/unified_trading_execution/ibkr/adapter.py:2436-2487 | Without a live sibling nothing is published. |
| IbkrStatus.StatusPublisher.PublishStatusEvent | packages/adapter-ibkr/src/unified_trading_execution/ibkr/adapter.py:2402-2434 | The in-place choke point equals the model step and reports whether it published. |
| IbkrStatus.StatusPublisher.Handle | packages/adapter-ibkr/src/unified_trading_execution/ibkr/adapter.py:2039-2075 | Each source goes through the choke point. |
| IbkrFillJoin.FillCommissionJoin | packages/adapter-ibkr/src/unified_trading_execution/ibkr/adapter.py:2242-2368 | In a run of any length and any interleaving, with one execution per id and fewer than 5000 other ids mentioned between two mentions of an id, the engine's rows equal the executions joined with the last nonzero commission of their id, else with the fee they carried. |
| IbkrFillJoin.RowShowsExecution | packages/adapter-ibkr/src/unified_trading_execution/ibkr/adapter.py:2242-2368 | The engine's row of an execution shows its shares, price, time, instrument and reference, with the last nonzero commission of its id in its currency, or else the commission it came with. |
| IbkrFillJoin.UselessOpsAreSilent | packages/adapter-ibkr/src/unified_trading_execution/ibkr/adapter.py:2242-2368 | An execution without instrument, size, price or reference, a report about no execution and a zero commission change nothing. |
| IbkrFillJoin.JoinPerId | packages/adapter-ibkr/src/unified_trading_execution/ibkr/adapter.py:2311-2368 | The same for a single id, whatever the run does with the others. |
| IbkrFillJoin.FewAreHeld | packages/adapter-ibkr/src/unified_trading_execution/ibkr/adapter.py:2311-2351 | That condition on the input is enough for every late commission to find its record and every execution to find the commission that came before it. |
| IbkrFillJoin.RecordStays | packages/adapter-ibkr/src/unified_trading_execution/ibkr/adapter.py:2311-2316 | A record is held while fewer than 5000 other executions are sighted after it. |
| IbkrFillJoin.EarlyFeeStays | packages/adapter-ibkr/src/unified_trading_execution/ibkr/adapter.py:2347-2351 | An early commission waits while fewer than 5000 other ids are reported after it. |
| IbkrFillJoin.Confluence | packages/adapter-ibkr/src/unified_trading_execution/ibkr/adapter.py:2326-2368 | Two runs of the same executions in any order, with the same last nonzero commission per id, give the same rows. |
| IbkrFillJoin.RecordsDifferOnlyInFee | packages/adapter-ibkr/src/unified_trading_execution/ibkr/adapter.py:2311-2324 | In a run of any length, evictions included, records handed out for an id sighted once differ in nothing but the fee. |
| IbkrFillJoin.RepeatedReportIsSilent | packages/adapter-ibkr/src/unified_trading_execution/ibkr/adapter.py:2352-2356 | Repeating a commission report hands out nothing, in any reachable state. |
| IbkrFillJoin.JoinStaysBounded | packages/adapter-ibkr/src/unified_trading_execution/ibkr/adapter.py:2311-2316 | Over any run both dictionaries hold at most 5000 ids. |
| IbkrFillJoin.ResightingForgetsFee | packages/adapter-ibkr/src/unified_trading_execution/ibkr/adapter.py:1886-1896 | A second sighting of an execution hands it out as it came; the join survives it exactly when no commission was reported or the execution carries the last one. |
| IbkrFillJoin.FillJoin.OnExecDetails | packages/adapter-ibkr/src/unified_trading_execution/ibkr/adapter.py:2242-2309 | The in-place handler equals the model step for a sighting. |
| IbkrFillJoin.FillJoin.OnCommissionReport | packages/adapter-ibkr/src/unified_trading_execution/ibkr/adapter.py:2326-2368 | The in-place handler equals the model step for a commission. |
| IbkrFillJoin.PutAndTrim | packages/adapter-ibkr/src/unified_trading_execution/ibkr/adapter.py:2314-2316 | Assigning keeps a present key's place; the loop pops the oldest keys beyond the cap. |
| IbkrFillJoin.Translate | packages/adapter-ibkr/src/unified_trading_execution/ibkr/adapter.py:2249-2293 | An execution is usable exactly with an instrument, positive size and price, and an order reference. |
| IbkrBalances.StreamedEqualsPolled | packages/adapter-ibkr/src/unified_trading_execution/ibkr/adapter.py:252-279 | After the seed and any events, the last streamed balance of a currency of an account none of whose tags is stale equals what a poll of that account returns then, and exists exactly when the poll's does. |
| IbkrBalances.SameTagIffFresh | packages/adapter-ibkr/src/unified_trading_execution/ibkr/adapter.py:2203-2211 | Poll and stream read the same value of a tag exactly when it is not stale, that is when its latest value is usable or it never had a usable one. |
| IbkrBalances.SummaryShowsLatest | packages/adapter-ibkr/src/unified_trading_execution/ibkr/adapter.py:1744-1760 | On the summary, one row per account, currency and tag, a poll reads the latest value of a tag if it is usable and nothing otherwise. |
| IbkrBalances.PollLosesBalanceIff | packages/adapter-ibkr/src/unified_trading_execution/ibkr/adapter.py:252-279 | A balance the stream still shows is gone from the poll exactly when every total tag that was ever usable is stale. |
| IbkrBalances.EmptyTotalDiverges | packages/adapter-ibkr/src/unified_trading_execution/ibkr/adapter.py:2203-2211 | Such a run: the only total turns empty; the stream keeps the old balance and the poll has none. |
| IbkrBalances.SeedIsFresh | packages/adapter-ibkr/src/unified_trading_execution/ibkr/adapter.py:2144-2186 | In a seed with one row per account, currency and tag no tag is stale. |
| IbkrBalances.MirrorEqualsPoll | packages/adapter-ibkr/src/unified_trading_execution/ibkr/adapter.py:2188-2240 | With one account on the stream, a mirror that starts from a poll at the seed equals a poll at any later moment at which no tag is stale. |
| IbkrBalances.PublishesOnlyChanges | packages/adapter-ibkr/src/unified_trading_execution/ibkr/adapter.py:2217-2240 | An event publishes exactly when it changed the balance of its own account and currency, and changes no other. |
| IbkrBalances.ForeignAccountLeaks | packages/adapter-ibkr/src/unified_trading_execution/ibkr/adapter.py:2212-2240 | Whenever an event changes a balance, the currency's row of the mirror is an account's own balance exactly when the event was of that account or both accounts hold equal balances. |
| IbkrBalances.BalanceFromTags | packages/adapter-ibkr/src/unified_trading_execution/ibkr/adapter.py:252-279 | A balance exists exactly when one of the three total tags is known; free and used add up to total and free is at most total. |
| IbkrBalances.RuleReadsFourTags | packages/adapter-ibkr/src/unified_trading_execution/ibkr/adapter.py:119-124 | The rule depends on the four tags only, so a poll that stores every tag gets the same balance. |
| IbkrBalances.RuleReadsInOrder | packages/adapter-ibkr/src/unified_trading_execution/ibkr/adapter.py:252-279 | The total is the first known of net liquidation, total cash and cash balance, and what is free the first known of available funds, total cash and cash balance, never more than the total. |
| IbkrBalances.ValueIsFiled | packages/adapter-ibkr/src/unified_trading_execution/ibkr/adapter.py:2196-2217 | A usable value of the four tags is filed by both views under its currency, or US dollars, and by the stream under its account, or the managed one. |
| IbkrBalances.RollupIsIgnored | packages/adapter-ibkr/src/unified_trading_execution/ibkr/adapter.py:1745-1747 | A row of the rollup pseudo-currency, in any case, changes neither view. |
| IbkrBalances.UselessValue | packages/adapter-ibkr/src/unified_trading_execution/ibkr/adapter.py:2197-2211 | An empty or unreadable value changes neither view; the stream reads the four tags only. |
| IbkrBalances.FetchBalances | packages/adapter-ibkr/src/unified_trading_execution/ibkr/adapter.py:1727-1768 | The two loops of the poll compute the balances of the grouped summary. |
| IbkrBalances.BalanceAccumulator.SeedBalanceTags | packages/adapter-ibkr/src/unified_trading_execution/ibkr/adapter.py:2144-2186 | The two seeding loops give the state of the seed, publishing nothing. |
| IbkrBalances.BalanceAccumulator.OnAccountValue | packages/adapter-ibkr/src/unified_trading_execution/ibkr/adapter.py:2188-2240 | The in-place handler equals the model step. |
| IbkrProtection.PairsNeverStack | packages/adapter-ibkr/src/unified_trading_execution/ibkr/adapter.py:1516-1573 | From at most one take-profit and one stop-loss per position, every interleaving of modify and clear calls at their sleep points keeps at most one of each, whatever cancels the broker delays, refuses or ignores. |
| IbkrProtection.StuckCancelRaises | packages/adapter-ibkr/src/unified_trading_execution/ibkr/adapter.py:1564-1573 | While an order the call asked to cancel stays live, the call waits and never places; polled past its deadline it raises. |
| IbkrProtection.PollDecides | packages/adapter-ibkr/src/unified_trading_execution/ibkr/adapter.py:1564-1573 | A poll times out exactly at the deadline, waits exactly while a named side is live before it, and places only over nothing. |
| IbkrProtection.CancelsStayHome | packages/adapter-ibkr/src/unified_trading_execution/ibkr/adapter.py:1534-1562 | No run ever requests the cancel of a protective order of another position. |
| IbkrProtection.BeginCancelsOwn | packages/adapter-ibkr/src/unified_trading_execution/ibkr/adapter.py:1534-1562 | A call requests cancels of the sides it names only. |
| IbkrProtection.BeginAsksAll | packages/adapter-ibkr/src/unified_trading_execution/ibkr/adapter.py:1553-1562 | A call that goes on to wait has asked for the cancel of every live protective order of the sides it is about. |
| IbkrProtection.BeginOutcome | packages/adapter-ibkr/src/unified_trading_execution/ibkr/adapter.py:1529-1562 | A call is refused exactly when it names no side or its take-profit has a limit price; it raises exactly when the session takes fewer cancels than there are orders in the way; otherwise it has asked for exactly that many and waits five seconds about its sides. |
| IbkrProtection.ConfirmedOutcome | packages/adapter-ibkr/src/unified_trading_execution/ibkr/adapter.py:1423-1504 | At the poll that finds nothing in the way a clear returns, a modify of a flat or absent position raises and places nothing, and one of an open position writes one order per wanted side or stops at the one the venue refuses. |
| IbkrProtection.FailedPollRaises | packages/adapter-ibkr/src/unified_trading_execution/ibkr/adapter.py:1534-1573 | A poll that cannot list the open orders raises, as not confirmed once the deadline has passed, and changes nothing else. |
| IbkrProtection.OthersShowAtOnce | packages/adapter-ibkr/src/unified_trading_execution/ibkr/adapter.py:1534-1573 | Foreign orders, removals and position updates show in the state the next poll or call reads. |
| IbkrProtection.ModifyMerges | packages/adapter-ibkr/src/unified_trading_execution/ibkr/adapter.py:1423-1446 | When a modify completes, however long it waited and whatever ran in between, each side of the position is the requested one, else the one it read back, at the quantity it read. |
| IbkrProtection.ClearedStaysGoneIff | packages/adapter-ibkr/src/unified_trading_execution/ibkr/adapter.py:1575-1607 | A side that is gone at an instant is sure to stay gone from then on, until somebody asks for it, exactly when every waiting call that has read it back is out of time. |
| IbkrProtection.LostClear | packages/adapter-ibkr/src/unified_trading_execution/ibkr/adapter.py:1423-1446 | A reachable run: the clear of a stop-loss returns with nothing live, and then a modify of the take-profit, which read the stop-loss before its sleep, writes it again. |
| IbkrProtection.SettledStays | packages/adapter-ibkr/src/unified_trading_execution/ibkr/adapter.py:1516-1573 | The outcome of a finished call never changes. |
| IbkrProtection.ReplacementLegs | packages/adapter-ibkr/src/unified_trading_execution/ibkr/adapter.py:1465-1504 | The replacement holds one order per planned side, for its own position only. |
| IbkrProtection.ListMatching | packages/adapter-ibkr/src/unified_trading_execution/ibkr/adapter.py:1541-1556 | The listing loop returns the live orders of the named sides. |
| IbkrProtection.GetPositionTpSl | packages/adapter-ibkr/src/unified_trading_execution/ibkr/adapter.py:1609-1667 | Nothing for a flat or absent position; else for each side its last live order with a trigger price. |
| EngineFillWindow.EveryInstantIsCompared | packages/core/src/unified_trading_execution/engine.py:716-792 | Over any clean, dirty and aborted passes every instant from the first persisted watermark to the current one lies in the compared window of a clean pass; the first instant itself exactly when the lag is zero or two passes were clean. |
| EngineFillWindow.EveryInstantAgreed | packages/core/src/unified_trading_execution/engine.py:709-792 | When each pass visits exactly the disagreeing orders, every later instant up to the watermark lies in the window of a clean pass at which store and platform agreed on the total of every order. |
| EngineFillWindow.WatermarkNeverMovesBack | packages/core/src/unified_trading_execution/engine.py:788-792 | With a non-decreasing clock and fixed lag no pass moves the watermark back. |
| EngineFillWindow.WindowsChain | packages/core/src/unified_trading_execution/engine.py:716-792 | Windows of clean passes join end to start, and the watermark is the last end. |
| EngineFillWindow.RepairConverges | packages/core/src/unified_trading_execution/engine.py:984-998 | After the repair, over the same window, an order is discrepant exactly when it was not before and the snapshot files one of its fills under a rewritten order; where both sides agree on owners none is. |
| EngineFillWindow.RepairIsOrderIndependent | packages/core/src/unified_trading_execution/engine.py:984-998 | The final store does not depend on the iteration order of the discrepant set. |
| EngineFillWindow.RepairIsSurgical | packages/core/src/unified_trading_execution/engine.py:984-998 | Rows outside the window and of other orders are untouched, unless the snapshot files their very id under a rewritten order. |
| EngineFillWindow.RewrittenSlice | packages/core/src/unified_trading_execution/engine.py:984-998 | A rewritten order's window sums to the snapshot's fills of it. |
| EngineFillWindow.RewrittenRow | packages/core/src/unified_trading_execution/engine.py:984-998 | A rewritten order's row is the snapshot's fill, under the correlation id of its stored order, or its own when the order is not stored. |
| EngineFillWindow.StreamedIsStored | packages/core/src/unified_trading_execution/engine.py:1558-1577 | A live fill is stored under its id, and neither other rows nor the watermark change. |
| EngineFillWindow.GroupedTotals | packages/core/src/unified_trading_execution/engine.py:732-741 | The sums over the grouped query equal the sums over the stored rows of the window. |
| EngineFillWindow.FillDiscrepantOrderIds | packages/core/src/unified_trading_execution/engine.py:111-125 | The loop returns each order whose totals differ, once, and no other. |
| EngineFillWindow.FillReconciler.ReconcileFills | packages/core/src/unified_trading_execution/engine.py:709-792 | One pass in place: it rewrites exactly the orders on which the two sides disagree and moves the watermark only when clean. |
| EngineFillWindow.FillReconciler.RewriteOrder | packages/core/src/unified_trading_execution/engine.py:988-996 | Deletes the order's window, then upserts the snapshot's stamped fills. |
| EngineFillWindow.SettleSnapshot | packages/core/src/unified_trading_execution/engine.py:749-757 | Both sides are bounded by the same settle boundary; orders left without fills disappear. |
| EngineFillWindow.KeptCounts | packages/core/src/unified_trading_execution/engine.py:749-757 | Exactly the fills up to the settle boundary are kept, each as often as it was listed. |
| EngineFillWindow.KeptConcat | packages/core/src/unified_trading_execution/engine.py:749-757 | Settling works fill by fill, so the order of what is kept is that of the list. |
| EngineFillWindow.SettledHas | packages/core/src/unified_trading_execution/engine.py:749-757 | An order's settled fills are its fetched ones up to the boundary, and no order is left empty. |
| EngineFillWindow.LateFillsWait | packages/core/src/unified_trading_execution/engine.py:749-757 | A fill later than now minus the lag, wherever the platform lists it, changes neither the orders a pass finds nor the state it leaves. |
| EngineFillWindow.PassFindsMissingFills | packages/core/src/unified_trading_execution/engine.py:709-792 | Where the platform lists every stored fill of the window, a pass finds exactly the orders with a settled fill the store misses; one in which none is missing changes no row and moves the watermark if nothing else was amiss. |
| EngineFillWindow.SumOfPart | packages/core/src/unified_trading_execution/engine.py:116-124 | With positive quantities a part has the total of the whole only if it is the whole. |
| EngineHalts.ManageIsExact | packages/core/src/unified_trading_execution/engine.py:1000-1047 | After a pass in automatic mode with automatic halts on, exactly the instruments with a position mismatch are halted and the account halt survives exactly when the pass was not clean; in manual mode no pass clears anything; kept halts keep their entry. |
| EngineHalts.ManageKeepsSyncIff | packages/core/src/unified_trading_execution/engine.py:1000-1047 | A pass keeps the persisted table equal to the active halts exactly when the halts it ends with have rows of their own. |
| EngineHalts.HaltsSurviveRestarts | packages/core/src/unified_trading_execution/engine.py:1049-1226 | Over any run of enter, clear, account-change and restart steps, with automatic halts on and no two instruments sharing a row, persisted and active halts agree, so a restart at any point rebuilds them. |
| EngineHalts.RestartRebuildsIffInSync | packages/core/src/unified_trading_execution/engine.py:1139-1150 | A restart rebuilds the active halts exactly when the table was in sync. |
| EngineHalts.EnterKeepsSyncIff | packages/core/src/unified_trading_execution/engine.py:1094-1137 | Entering keeps the table in sync exactly when no other active halt shares the row. |
| EngineHalts.ClearKeepsSync | packages/core/src/unified_trading_execution/engine.py:1049-1092 | Clearing, manual or automatic, keeps the table in sync. |
| EngineHalts.AccountChangeKeepsSyncIff | packages/core/src/unified_trading_execution/engine.py:1484-1522 | An account change keeps the table in sync exactly when automatic halts are on or the account was already halted. |
| EngineHalts.SharedRowForgetsAHalt | packages/core/src/unified_trading_execution/state/store.py:1239-1292 | Two instruments equal in symbol, quote and class, such as two expiries, share a row: after a restart the first one trades again. |
| EngineHalts.DisabledHaltReturns | packages/core/src/unified_trading_execution/engine.py:1484-1522 | With automatic halts off an account change halts nothing until the next restart, which restores the row it wrote. |
| EngineHalts.StepEffects | packages/core/src/unified_trading_execution/engine.py:1049-1150 | Entering halts its target when automatic halts are on, a clear after a clean pass releases it in automatic mode only, a requested clear in either mode, and no other halt changes. |
| EngineHalts.EntrySurvivesRestart | packages/core/src/unified_trading_execution/engine.py:1049-1150 | A new halt keeps its reason and detail through a restart; a halt that was there keeps the ones it had. |
| EngineHalts.AccountChangeIsTold | packages/core/src/unified_trading_execution/engine.py:1484-1521 | The row of an account change carries its reason and detail, and so does the halt if it is new. |
| EngineHalts.NewHaltTellsTheMismatch | packages/core/src/unified_trading_execution/engine.py:1000-1047 | A new instrument halt carries the reason "position_quantity" and the detail of a mismatch of that instrument. |
| EngineHalts.HaltStateMachine.EnterHalt | packages/core/src/unified_trading_execution/state/halt.py:107-132 | Adds a halt unless present or automatic halts are off, and says whether it did. |
| EngineHalts.HaltStateMachine.RestoreHalt | packages/core/src/unified_trading_execution/state/halt.py:134-160 | Adds a halt whatever the configuration. |
| EngineHalts.HaltStateMachine.TryClearHalt | packages/core/src/unified_trading_execution/state/halt.py:162-195 | Clears exactly when halted and the gate of its mode is open. |
| EngineHalts.Engine.ManageHaltState | packages/core/src/unified_trading_execution/engine.py:1000-1047 | The three loops in place equal the model of the pass, for the orders in which they list the halts. |
| EngineHalts.Engine.EnterHalt | packages/core/src/unified_trading_execution/engine.py:1094-1137 | Enters the halt and writes its row only if it is new. |
| EngineHalts.Engine.ClearHalt | packages/core/src/unified_trading_execution/engine.py:1049-1092 | Clears the halt and deletes its row together. |
| EngineHalts.Engine.ManualClearHalt | packages/core/src/unified_trading_execution/engine.py:1176-1226 | A manual request clears any active halt in either mode. |
| EngineHalts.Engine.RestoreHaltsFromStore | packages/core/src/unified_trading_execution/engine.py:1139-1150 | Restoring row by row, in any order, gives the halts of the table. |
| BybitOrders.BoundedRefinesUnbounded | packages/adapter-bybit/src/unified_trading_execution/bybit/adapter.py:1851-1949 | While at most 10000 orders finished, the adapter publishes exactly what classification by the unbounded history of each order would. |
| BybitOrders.ClassifiedAsRememberedIff | packages/adapter-bybit/src/unified_trading_execution/bybit/adapter.py:1895-1949 | One entry is classified as the full history would exactly unless it reports a finished order that was evicted. |
| BybitOrders.NothingFollows | packages/adapter-bybit/src/unified_trading_execution/bybit/adapter.py:1895-1898 | After an order's final event nothing follows for it, not even a second placement, until at least 10000 other orders finished. |
| BybitOrders.BookkeepingInvariant | packages/adapter-bybit/src/unified_trading_execution/bybit/adapter.py:1836-1849 | Whatever was evicted: live and final sets are disjoint, the final one is bounded, and an id is live exactly when its last published status is not final. |
| BybitOrders.EntryIsExact | packages/adapter-bybit/src/unified_trading_execution/bybit/adapter.py:1890-1949 | Status by status: a first sighting is a placement; later a cancelled, rejected or expired order publishes a cancel and any other, a filled one included, a change; an order that ended leaves the live set and no other order is touched. |
| BybitOrders.IgnoredEntry | packages/adapter-bybit/src/unified_trading_execution/bybit/adapter.py:1890-1949 | An entry without an id, of a remembered finished order, malformed or of a protection child changes nothing. |
| BybitOrders.HistoryLifecycle | packages/adapter-bybit/src/unified_trading_execution/bybit/adapter.py:1851-1868 | Under the unbounded history each order's events form Placed, Changed*, Cancelled? with nothing after a final status. |
| BybitOrders.PublishedLifecycle | packages/adapter-bybit/src/unified_trading_execution/bybit/adapter.py:1851-1949 | So do the adapter's, while no order was evicted. |
| BybitOrders.MessagesCompose | packages/adapter-bybit/src/unified_trading_execution/bybit/adapter.py:1869-1949 | How entries are grouped into messages makes no difference. |
| BybitOrders.OrderStream.MoveToFinal | packages/adapter-bybit/src/unified_trading_execution/bybit/adapter.py:1836-1849 | Retires an id as the newest finished one; the loop drops the oldest beyond the cap. |
| BybitOrders.OrderStream.OnOrderEntry | packages/adapter-bybit/src/unified_trading_execution/bybit/adapter.py:1890-1949 | The in-place handling of an entry equals the model step. |
| BybitOrders.OrderStream.OnOrderMessage | packages/adapter-bybit/src/unified_trading_execution/bybit/adapter.py:1869-1949 | The loop over a message folds the step. |
| BinanceRates.RemainingIffOpen | packages/adapter-binance/src/unified_trading_execution/binance/rate_limits.py:185-281 | The report leaves something exactly when some bucket was observed, no block or unreadable-header deadline is pending, every counter seen in a header is defined, and every bucket in a running window is known to be below its limit. |
| BinanceRates.SnapshotIsOpenIff | packages/adapter-binance/src/unified_trading_execution/binance/rate_limits.py:185-281 | The same equivalence for any state whose deadlines belong to known products and whose limits are positive, which RunValid shows of every reachable one. |
| BinanceRates.ReportIsExact | packages/adapter-binance/src/unified_trading_execution/binance/rate_limits.py:185-281 | After any responses: an open report leaves the largest number of requests every observed bucket allows, and describes the longest bucket that allows no more; a closed one describes the longest of the things that close it; with nothing observed it is closed for a minute's interval. |
| BinanceRates.BlockIsExact | packages/adapter-binance/src/unified_trading_execution/binance/rate_limits.py:149-168 | A 418 or 429 blocks for the delay it asks, at most three days, else three days or the longest defined interval, and never shortens a block; no other status blocks. |
| BinanceRates.ParsedAreListed | packages/adapter-binance/src/unified_trading_execution/binance/rate_limits.py:284-323 | A definition in force is one the list holds in usable form. |
| BinanceRates.LastDefinitionCounts | packages/adapter-binance/src/unified_trading_execution/binance/rate_limits.py:284-323 | Of several definitions of a bucket the last one counts. |
| BinanceRates.RefusedEntries | packages/adapter-binance/src/unified_trading_execution/binance/rate_limits.py:284-323 | Every way an entry is refused: no mapping, no type, or an observed type without a letter, a positive number and limit, or longer than three days. |
| BinanceRates.LastHeaderCounts | packages/adapter-binance/src/unified_trading_execution/binance/rate_limits.py:123-147 | A counter is what the last header of its bucket told, with an unreadable value recorded as unknown. |
| BinanceRates.HeaderIsObserved | packages/adapter-binance/src/unified_trading_execution/binance/rate_limits.py:191-196 | The report reads a weight or order bucket from the last header that told it. |
| BinanceRates.ExcessiveIffLong | packages/adapter-binance/src/unified_trading_execution/binance/rate_limits.py:135-137 | A bucket is too long exactly when it exceeds three days. |
| BinanceRates.IntervalsNest | packages/adapter-binance/src/unified_trading_execution/binance/rate_limits.py:18-23 | A day is 24 hours of 60 minutes of 60 seconds. |
| BinanceRates.UntoldCounterStays | packages/adapter-binance/src/unified_trading_execution/binance/rate_limits.py:96-97 | A counter no header tells stays as it was. |
| BinanceRates.UnreadableIff | packages/adapter-binance/src/unified_trading_execution/binance/rate_limits.py:123-147 | A header fails closed exactly when it has a counter's prefix and tells no bucket of at most three days. |
| BinanceRates.ResponseKeepsOthers | packages/adapter-binance/src/unified_trading_execution/binance/rate_limits.py:96-147 | A response replaces the definitions of its product if it brings any and leaves every other product alone. |
| BinanceRates.RunValid | packages/adapter-binance/src/unified_trading_execution/binance/rate_limits.py:123-183 | After any responses, unreadable-header deadlines belong to products with counters and every definition has a positive limit. |
| BinanceRates.BlockHolds | packages/adapter-binance/src/unified_trading_execution/binance/rate_limits.py:149-168 | A recorded 418 or 429 forces the report to zero until its deadline, whatever responses arrive later (Retry-After in the delay-seconds form of section 10.2.3 of RFC 9110). |
| BinanceRates.UnreadableHeaderHolds | packages/adapter-binance/src/unified_trading_execution/binance/rate_limits.py:170-183 | A counter header that cannot be read forces zero for the longest defined interval, whatever arrives later. |
| BinanceRates.UndefinedCounterHolds | packages/adapter-binance/src/unified_trading_execution/binance/rate_limits.py:236-248 | A counter of a bucket outside the definitions in force keeps the report at zero with no expiry. |
| BinanceRates.MalformedLeavesNoTrace | packages/adapter-binance/src/unified_trading_execution/binance/rate_limits.py:99-104 | Definitions are refused exactly when an entry is malformed, and the response then leaves no trace. |
| BinanceRates.MalformedLosesCounters | packages/adapter-binance/src/unified_trading_execution/binance/rate_limits.py:99-147 | What a successful exchange-info response loses that way: its counter headers and its own raw request, both recorded when the same response carries no definitions. |
| BinanceRates.ParseFailsIff | packages/adapter-binance/src/unified_trading_execution/binance/rate_limits.py:284-323 | The parser fails exactly when some entry is malformed. |
| BinanceRates.RawCountIsExact | packages/adapter-binance/src/unified_trading_execution/binance/rate_limits.py:106-121 | The local counter of a product counts every recorded request of it since the one that opened its window, whatever other products do and whatever definitions arrive that keep the bucket, and no request falls outside the window it is counted in. |
| BinanceRates.ClosedBy | packages/adapter-binance/src/unified_trading_execution/binance/rate_limits.py:270-281 | Any candidate with nothing left closes the report. |
| BinanceRates.Longest | packages/adapter-binance/src/unified_trading_execution/binance/rate_limits.py:176-179 | The fallback delay is the longest defined interval, a minute without definitions. |
| BinanceRates.MinBy | packages/adapter-binance/src/unified_trading_execution/binance/rate_limits.py:270-273 | Picks a candidate with the least remaining, among those one of the longest interval. |
| BinanceRates.ListCandidates | packages/adapter-binance/src/unified_trading_execution/binance/rate_limits.py:188-260 | The nested loops collect exactly the candidates. |
| BinanceRates.RateLimitTracker.Snapshot | packages/adapter-binance/src/unified_trading_execution/binance/rate_limits.py:185-281 | The report is the tightest candidate's, or closed when nothing was observed. |
| BinanceRates.RateLimitTracker.Update | packages/adapter-binance/src/unified_trading_execution/binance/rate_limits.py:88-168 | The in-place update equals the model step and fails exactly on malformed definitions. |
| BinanceRates.RateLimitTracker.FailClosed | packages/adapter-binance/src/unified_trading_execution/binance/rate_limits.py:170-183 | Extends the product's deadline and never shortens it. |

## Left out

- Transport, SDK objects, threads, retries, signing, logging and event-bus delivery: venue replies are inputs, handlers are atomic.
- SQLite internals, query limits of 100000 rows, store write failures and swallowed exceptions: the store is a map, writes succeed, as the code treats persistence as best-effort.
- Symbol translation, payload builders, error-code tables, candles, tickers, capability reports, leverage and margin intent: case tables and per-key lookups.
- Dispatch, the risk chain, trailing management and the user-intent pass that follows halt management.
- Prices, quantities and times are integers or exact decimals; context precision, non-finite tag values and sub-microsecond rounding are not modelled.
- HyperliquidFills: a fill id is the pair (hash, tid) instead of the joined string; fees and entry directions belong to the opaque terms of a fill; the order index grows by steps of its own, and whether a coin can be mapped is fixed per entry.
- HyperliquidAccount: a position id is its coin, update times are not kept, and coin metadata is fixed during a session.
- HyperliquidSnapshots: the record translated from a rich push is an input; update times are not kept; the clearing of all snapshots at the end of `disconnect` is not an operation, so runs are those of one session.
- HyperliquidRates: the clock is required to be non-decreasing, as `time.monotonic` is, and the window positive; the lock is not modelled.
- HyperliquidPrices.DerivedTickIsLegal: the tick follows `Decimal.adjusted` of a usable mark; fetching the mark is not modelled.
- IbkrRefs.IsDigits: the ASCII digits only, where `str.isdigit` also takes digits of other scripts; a reference headed by those is not recognised here.
- IbkrStatus.ProtectiveOrdersStayPrivate: about the references the adapter writes and any other headed by ASCII digits, for the same reason.
- IbkrProtection: the first poll of a call is a step of its own, so the model has more interleavings than the code; order types, exchanges and transmit flags are not kept, and a position moved during the wait does not change the quantity read before, as in the code.
- IbkrFillJoin: a live execution and a polled one are the same step; the duplicate filter inside one poll, its time filter and its sorting are left out.
- IbkrBalances: a poll is of one known account (not the placeholder "UNKNOWN", for which the code polls every account at once); a row without an account belongs to the managed one; the summary holds the latest row per account, currency and tag, as the code's comment says, where a blank currency is "USD"; blanks are stripped from currencies before the model; tag values that are not finite are left out.
- EngineFillWindow: fills stored by the stream while a pass is suspended are ordered before or after the pass, already stamped; position, balance and order drift is one flag; `fetch_fills` is supported and honours `since`.
- EngineHalts: event publication and the event log; the reason and detail of a repeated account change may differ between memory and table, so agreement is about which halts are held; a clear with scope "instrument" and no instrument, which does nothing.
- BinanceRates: header names, integer strings and Retry-After text are parsed before the model, a value that is not canonical being absent; other processes on the same address.
- BybitOrders: translation of an entry, the spec invalidation on a rejection and the loop hand-over of events.
