# A verified model of the chain's consensus core

This project models, in Dafny, the parts of a Graphene/BitShares node that every node has to
compute identically: the undo database and the fork database with block pushing on top of
them, the exchange arithmetic, limit orders, margin calls, settlement and revival of
collateralized assets, and the smaller state machines for vesting, proposals, witness
scheduling and chain synchronization.  All rules are those after the last hard fork in the
code; branches for earlier blocks are not part of the model.

`dafny verify dfyconfig.toml` checks everything.

## How it is organised

* **Arithmetic** - `Prices.dfy` has amounts, prices and `price * ratio`; rounding up one way
  and down the other are a Galois connection, and most later rounding arguments use that.
  `Trades.dfy` has the amounts of a match, `MarginCall.dfy` the search for the debt a margin
  call covers.  What is computed is characterized by cross-multiplied amounts, without naming
  the function that computes it; ratios are so characterized where `price * ratio` is exact.
* **State** - `UndoStates.dfy`, `UndoDatabase.dfy` and `UndoRuns.dfy` show that the stack of
  diffs refines a stack of full copies, for every interleaving of operations.
  `ForkDatabase.dfy` and `ChainDatabase.dfy` build block pushing and fork switching on it.
* **Market** - `MarketState.dfy` has the objects and the balance sheet that
  `verify_asset_supplies` in the test suite draws up; `Ledger.dfy` the sums.
  `MarketDatabase.dfy` has the elementary fills and cancellations, each with what it adds to
  the balance sheet.  `OrderBook.dfy`, `Positions.dfy`, `Matching.dfy`, `Orders.dfy` are order
  matching; `GlobalSettlement.dfy`, `MarginCalls.dfy` margin calls and black swans;
  `MarketInvariant.dfy` is what every operation keeps.  The operations are in
  `MarketOperations.dfy`, `PositionUpdate.dfy`, `Settlements.dfy`, `Revival.dfy`, `Feeds.dfy`,
  `ForceSettlement.dfy`, `SettlementPass.dfy`; `MarketRuns.dfy` puts them together into runs
  from genesis.
* **Others** - `Vesting.dfy`, `Proposals.dfy`, `WitnessSchedule.dfy`, `Sync.dfy`.

A method that reports failure stands for a thrown exception.  Operations on the market restore
the state they started from, as the undo session around them does.

The market invariant `MarketInvariant.Inv` says: what is held of each asset adds up to its
supply; the debts of every unsettled market-issued asset add up to its supply, and a settled
one has no positions; no two resting orders cross or touch, and each would still receive at
least one unit for its rest; no resting order meets a position that is in margin call
territory, except of assets that bids have revived as described below; the settlement fund
covers all claims at the settlement price and is used up with the last of them.

## Findings

Properties one might expect that the code does not have; each has a witness and a condition.

* **A margin call can repeat for ever.**  `price * ratio` is approximate when the reduced
  fraction exceeds the share supply.  The maintenance collateralization can then lie a little
  above the exact value, and a position between the two is called although
  `get_max_debt_to_cover` returns 0 for it; the loops of `apply_order` and `check_call_orders`
  repeat a match in which nothing is traded.  `MarginCall.CalledButCoversNothing` and
  `Orders.PositionsCanIdle` give the position; `Orders.DebtToCover` says exactly when nothing
  is covered, `Orders.MatchCall` and `MarginCalls.CallOnce` that the match repeats exactly
  then; `MarginCall.CalledPositionCoversSomething` that it does not happen when the feed's
  price scales exactly.
* **`get_max_debt_to_cover` can throw.**  The products of its searches can exceed the share
  supply although the result would not.  `MarginCall.MeanCanOverflow` gives the input;
  `MarginCall.GetMaxDebtToCover` throws exactly when the search, as `MarginCall.Searched`
  defines it, comes to such a product, and never when collateral is worth no more than the
  share supply at the match price.
* **A session committed inside an open one survives its undo.**
  `UndoRuns.NestedCommitSurvivesUndo` gives the operations; `UndoRuns.SessionUndone` is the
  property without nested commits, `UndoRuns.CommittedInsideNeedsMoreRollbacks` what it takes
  with them.  The code only nests sessions that are merged or undone.
* **Vested deposits are credited in 64 bits**, into an existing balance as well as into a new
  one.  `Vesting.VestedCreditOverflows` gives an amount and a period for which the product does
  not fit; `Vesting.VestedCreditFits` says for which periods every amount does.
* **An asset revived by bids can have a position that is called.**  `process_bids` compares a
  bid's call price with the feed, margin calls compare the collateralization with the
  maintenance ratio; both are approximate when a reduced fraction exceeds the share supply.
  `Revival.PassesButCalled` gives a bid that passes although its position is called and an
  order at the feed's price would fill it; maintenance makes no margin call, so both stay as
  they are until the next one or the next order.  `Revival.ExactlyJudged`: judged
  exactly, a bid passes if and only if it is above maintenance.  `Revival.AboveIsNotCalled`:
  no position of a bid above maintenance is called; `Revival.WholeShareCalled`: the position
  of any other bid is, unless as the last one it takes what is left of the fund;
  `Revival.CalledAsPlanned`: a position of the revived asset is called if and only if one of
  the positions planned for the chosen bids is.  Only then the asset is marked in
  `State.revived` and excepted from the invariant; `MarketRuns.NoOrderMeetsCalled` says that
  otherwise no state of any run has an order that meets a called position.

## Model

| member | source | states |
|---|---|---|
| Prices.FloorIsGreatest | libraries/chain/protocol/asset.cpp:56-73 | `asset * price` is the greatest amount worth no more than the asset |
| Prices.CeilIsLeast | libraries/chain/protocol/asset.cpp:75-93 | `multiply_and_round_up` is the least amount worth at least the asset |
| Prices.RoundingGalois | libraries/chain/protocol/asset.cpp:56-93 | rounding up one way and down the other way are a Galois connection |
| Prices.TimesIsGreatest | libraries/chain/protocol/asset.cpp:56-73 | the product is the greatest amount of the other asset worth no more, on either side of the price; throws exactly above the share supply |
| Prices.TimesUpIsLeast | libraries/chain/protocol/asset.cpp:75-93 | rounded up it is the least amount worth at least as much; throws exactly above the share supply |
| Prices.ScaleExact | libraries/chain/protocol/asset.cpp:104-184 | `price * ratio` equals the exact product whenever the reduced fraction fits the share supply |
| Prices.ScaleDirection | libraries/chain/protocol/asset.cpp:104-184 | for every price and ratio, scaling up never lowers and scaling down never raises a price |
| Prices.ScaleIsNearest | libraries/chain/protocol/asset.cpp:104-184 | when halving loses precision, neither of the two candidates is nearer to the exact product than the one taken |
| MarginCall.GetMaxDebtToCover | libraries/chain/market_object.cpp:59-302 | result within the debt; strictly between 0 and the debt only if paying for it, rounded up, costs less than the collateral and leaves the position strictly above both its target and the maintenance ratio, in plain amounts; zero exactly when feed protected or when the stabilized estimate covers nothing; throws exactly for foreign prices or when a product of the searches exceeds the share supply; both searches terminate and no assertion fails |
| MarginCall.ReachesBoth | libraries/chain/market_object.cpp:93-155 | what reaches the target ends, in plain amounts, above the target ratio and above the maintenance ratio |
| MarginCall.CoversNoMoreThanNeeded | libraries/chain/market_object.cpp:104-264 | what is covered costs less than one unit of collateral more than any amount that suffices with one unit of debt to spare |
| MarginCall.MeanInBracket | libraries/chain/market_object.cpp:189-241 | the stabilized mean lies strictly inside the bracket or is its upper end, and overflows only when the collateral is worth more than the share supply |
| MarginCall.StepForward | libraries/chain/market_object.cpp:266-300 | a forward step ends in a stable pair not below its start, in the whole debt, or in such an overflow |
| MarginCall.StepMeans | libraries/chain/market_object.cpp:266-300 | how far a forward step goes, in plain amounts, and that it takes the whole debt only when collateral or debt runs out |
| MarginCall.BinarySearch | libraries/chain/market_object.cpp:186-264 | the bracket shrinks; what is found is above the lower end and reaches the target or is the whole debt |
| MarginCall.ForwardSearch | libraries/chain/market_object.cpp:266-300 | Fibonacci steps end in a pair that reaches the target or in the whole debt |
| MarginCall.Mean | libraries/chain/market_object.cpp:189-241 | the mean is a stable pair strictly inside the bracket or its upper end; exact condition for the overflow |
| MarginCall.EstimateBelowDebt | libraries/chain/market_object.cpp:112-133 | an estimate below the debt means the collateral is worth more than the debt at the match price |
| MarginCall.CalledPositionCoversSomething | libraries/chain/market_object.cpp:80-118 | with exactly scaled prices a called position covers at least one unit |
| MarginCall.CalledButCoversNothing | libraries/chain/market_object.cpp:80-118 | a called position for which nothing is covered, at any match price |
| MarginCall.MeanCanOverflow | libraries/chain/market_object.cpp:189-203 | a position for which the function throws |
| UndoStates.CreateRollsBack | libraries/db/undo_database.cpp:60-72 | rolling back a creation gives the database and next ids before it |
| UndoStates.ModifyRollsBack | libraries/db/undo_database.cpp:73-85 | the same for modification, whatever the session did before |
| UndoStates.RemoveRollsBack | libraries/db/undo_database.cpp:86-106 | the same for removal |
| UndoStates.CausalTiming | libraries/db/undo_database.cpp:151-191 | the cells of the merge table marked N/A cannot occur, because ids are not reused |
| UndoStates.ComposeRollsBack | libraries/db/undo_database.cpp:138-257 | rolling back the merged diff equals rolling back both in turn |
| UndoSpec.StartKeepsAnchored | libraries/db/undo_database.cpp:46-59 | opening a session keeps a copy for every open session if and only if trimming does not reach them |
| UndoDatabase.UndoDatabase.StartUndoSession | libraries/db/undo_database.cpp:46-59 | refines trimming the copies and pushing one of the present state |
| UndoDatabase.UndoDatabase.Create | libraries/db/undo_database.cpp:60-72 | refines creation that leaves the copies alone |
| UndoDatabase.UndoDatabase.Modify | libraries/db/undo_database.cpp:73-85 | refines modification that leaves the copies alone |
| UndoDatabase.UndoDatabase.Remove | libraries/db/undo_database.cpp:86-106 | refines removal that leaves the copies alone |
| UndoDatabase.UndoDatabase.Undo | libraries/db/undo_database.cpp:108-136 | puts back the newest copy, map and next ids |
| UndoDatabase.UndoDatabase.Merge | libraries/db/undo_database.cpp:138-257 | drops the newest copy and nothing else |
| UndoDatabase.UndoDatabase.Commit | libraries/db/undo_database.cpp:258-262 | closes a session and keeps its copy |
| UndoDatabase.UndoDatabase.PopCommit | libraries/db/undo_database.cpp:264-300 | puts back the newest copy when no session is open |
| UndoDatabase.MergeInto | libraries/db/undo_database.cpp:191-254 | the three loops compute the composed diff |
| UndoRuns.Replay | libraries/db/undo_database.cpp:46-300 | every sequence of calls on the undo database behaves as on a stack of full copies |
| UndoRuns.SessionUndone | libraries/db/undo_database.cpp:108-136 | undoing a session restores exactly the objects and next ids at its start, for every interleaving with nested sessions inside |
| UndoRuns.CommittedInsideNeedsMoreRollbacks | libraries/db/undo_database.cpp:258-262 | with commits inside, as many more rollbacks restore the start |
| UndoRuns.NestedCommitSurvivesUndo | libraries/db/undo_database.cpp:258-262 | a committed inner session is not undone with the outer one |
| UndoRuns.PopsUndoBlock | libraries/db/undo_database.cpp:264-300 | popping undoes the latest block |
| UndoRuns.PopsRestoreEarlierBlocks | libraries/db/undo_database.cpp:264-300 | popping in reverse restores the state after each earlier block, as long as trimming has not dropped it |
| ForkDatabase.ForkDatabase.PushBlock | libraries/chain/fork_database.cpp:71-98 | a block enters exactly when recent enough and linked; the head is the higher block; the index is the old one with it, without what is out of the window |
| ForkDatabase.ForkDatabase.SetMaxSize | libraries/chain/fork_database.cpp:100-115 | exactly the blocks below the new window leave |
| ForkDatabase.ForkDatabase.Remove | libraries/chain/fork_database.cpp:197-212 | the block leaves the index and the head steps back from it |
| ForkDatabase.ForkDatabase.PopBlock | libraries/chain/fork_database.cpp:37-43 | the head steps back when its parent is still there |
| ForkDatabase.ForkDatabase.FetchBranchFrom | libraries/chain/fork_database.cpp:148-190 | two parent-linked paths from the given blocks to blocks with one common predecessor, disjoint unless one block is an ancestor of the other; succeeds whenever both blocks are known and live ways to a common predecessor exist |
| ForkDatabase.MostRecentCommonAncestor | libraries/chain/fork_database.cpp:148-190 | that predecessor is the most recent common ancestor |
| ChainDatabase.Database.PushBlock | libraries/chain/db_block.cpp:131-216 | all outcomes: the head extended, a switch whose state is the branch replayed from the common ancestor, or the state before the push with the failing block and its successors forgotten and the old tip as head |
| ChainDatabase.Database.SwitchForks | libraries/chain/db_block.cpp:143-200 | the switch is all or nothing |
| ChainDatabase.Database.PopBlock | libraries/chain/db_block.cpp:464-478 | the state before the head block, and the fork database's head with it when it is that block; exact condition for failing |
| ChainDatabase.Database.ApplyBranch | libraries/chain/db_block.cpp:155-166 | the blocks applied are the longest prefix that applies, and the state is their replay |
| ChainDatabase.Database.Recover | libraries/chain/db_block.cpp:167-197 | after a failed switch the state, the copies and the head are the old ones |
| Blocks.HistoryFollowsBranch | libraries/chain/db_block.cpp:146-153 | the blocks applied since the fork point are the branch the fork database knows |
| Blocks.BranchReplays | libraries/chain/db_block.cpp:187-196 | the old branch applies again and gives the old state |
| Trades.SmallerSideIsFilled | libraries/chain/db_market.cpp:563-615 | the side that is used up pays the least that still buys what it gets, gets the most its offer can buy, and keeps too little for anything more |
| Trades.TradeWithinOffers | libraries/chain/db_market.cpp:563-628 | neither side pays more than it has for sale, nothing is given for nothing, and the other side trades no worse than the match price |
| Trades.CallTradeWithinOffers | libraries/chain/db_market.cpp:650-697 | the same for a limit order and a position |
| Trades.LimitTradeIsFair | libraries/chain/db_market.cpp:563-615 | the smaller side gets all it can buy at the given price and pays the least that buys it, by cross-multiplication |
| Trades.CallTradeIsFair | libraries/chain/db_market.cpp:650-690 | the same for a position that wants up to a given amount |
| Trades.DustAtOwnPrice | libraries/chain/db_market.cpp:591-596 | what buys nothing at the match price buys nothing at the order's own price, so it is always culled |
| MarketState.CallReduced | libraries/chain/db_market.cpp:866-927 | filling a position takes as much out of the debts as out of the supply |
| MarketState.CollateralWithinSupply | tests/common/database_fixture.cpp:309-421 | with balanced books no collateral exceeds the supply |
| MarketState.ToReceiveIsGreatest | libraries/chain/include/graphene/chain/market_object.hpp:66 | the rest of an order is worth the most its own price gives |
| MarketState.FeedRatios | libraries/chain/protocol/asset.cpp:281-292 | squeeze price and maintenance collateralization are the feed by their ratios, in plain amounts, and never on its wrong side |
| MarketDatabase.Database.AdjustBalance | libraries/chain/db_balance.cpp:54-83 | succeeds exactly when the balance suffices, and moves that amount |
| MarketDatabase.MarketFeeIsGreatest | libraries/chain/db_market.cpp:1188-1204 | the fee is the greatest amount within the percentage and the maximum |
| MarketDatabase.Database.RewardsAreGreatest | libraries/chain/db_market.cpp:1224-1273 | the shares of registrar and referrer are the greatest within their percentages, where admitted |
| MarketDatabase.Database.PayMarketFees | libraries/chain/db_market.cpp:1224-1273 | issuer, registrar and referrer together get exactly the fee; exact condition for the assertions |
| MarketDatabase.Database.PayIssuerFees | libraries/chain/db_market.cpp:1206-1222 | the issuer gets the fee |
| MarketDatabase.Database.FillLimitOrder | libraries/chain/db_market.cpp:810-863 | the order shrinks by what it pays, the seller gets what it receives less the fee, market fee and deferred fee reach issuers, registrar, referrer and network, and the books change by exactly the two amounts; fails exactly when fees cannot be paid or the rest asks for too much |
| MarketDatabase.Database.FillCallOrder | libraries/chain/db_market.cpp:866-927 | debt and supply fall together; without debt the position is closed and its collateral returned |
| MarketDatabase.Database.CancelLimitOrder | libraries/chain/db_market.cpp:220-314 | the order goes, its owner has the deposit and the fee less the cancellation fee, and nothing is created or destroyed |
| MarketDatabase.Database.KeptWithinPaid | libraries/chain/db_market.cpp:246-272 | the cancellation fee, rounded up, never exceeds the fee paid |
| MarketDatabase.Database.CancelFeeIs | libraries/chain/db_market.cpp:246-300 | the cancellation fee in CORE, the least part of the fee paid worth that much, and the refund that completes it |
| MarketDatabase.Database.MaybeCull | libraries/chain/db_market.cpp:316-340 | cancelled exactly when the rest would receive nothing |
| OrderBook.BestSeller | libraries/chain/include/graphene/chain/market_object.hpp:85-91 | the front of a side of the book, by price and then age |
| OrderBook.AheadMeans | libraries/chain/include/graphene/chain/market_object.hpp:85-91 | ahead is who asks less, and of equals who is older |
| OrderBook.CrossesMeans | libraries/chain/db_market.cpp:534-541 | two orders cross if and only if some exchange of amounts suits both |
| OrderBook.BehindCrossesLess | libraries/chain/db_market.cpp:399-407 | an order behind another of its market crosses nothing the other does not |
| Matching.MatchOutcome | libraries/chain/db_market.cpp:563-628 | at least one of two matched orders always leaves the book |
| Matching.MatchLimits | libraries/chain/db_market.cpp:534-628 | amounts fair at the maker's price change hands, both sellers have the proceeds less the fee and what is left of an order that leaves; nothing is created or destroyed; exact condition for throwing |
| Matching.MatchBook | libraries/chain/db_market.cpp:534-541 | matching ends with the order gone, too small, or crossing nothing; the rest of the book stays uncrossed |
| Matching.CoverCall | libraries/chain/db_market.cpp:690-697 | the two fills of a margin call keep the balance sheet and the debts, and seller and borrower have what is theirs; exact condition for failing |
| Orders.DebtToCover | libraries/chain/db_market.cpp:652-653 | nothing is bought exactly when the position idles, and never with exactly scaled prices |
| Orders.MatchCall | libraries/chain/db_market.cpp:630-701 | amounts fair at the squeeze price change hands; order, position and balances afterwards; throws exactly when the debt to cover cannot be computed or its trade fails; repeats without end exactly when the position idles |
| Orders.MatchPositions | libraries/chain/db_market.cpp:481-505 | afterwards the order is gone or no position of the asset is called |
| Orders.PositionsCanIdle | libraries/chain/db_market.cpp:481-505 | a called position that idles at every price |
| Orders.BehindIsMatched | libraries/chain/db_market.cpp:399-407 | an order that is not at the front may skip matching |
| Positions.CalledMeans | libraries/chain/db_market.cpp:481-505 | called means collateral worth no more than the maintenance ratio of the debt, in plain amounts |
| Positions.SqueezesMeans | libraries/chain/db_market.cpp:440-480 | squeezing means asking no more than the squeeze ratio of the feed, in plain amounts |
| Orders.ApplyOrder | libraries/chain/db_market.cpp:393-551 | afterwards the book is uncrossed, every order would receive something, and no order meets a called position; throws only after trades that lead to a match that throws |
| GlobalSettlement.GloballySettle | libraries/chain/db_market.cpp:54-109 | all positions closed at the price, rounded up and up to their collateral; owners have the rest; supply unchanged; the fund is the sum of what the positions paid; nothing else changes; succeeds exactly when every position can be valued |
| GlobalSettlement.PaysLeastWorth | libraries/chain/db_market.cpp:75-92 | a position pays the least amount worth its debt, or all its collateral |
| GlobalSettlement.SettlementKeeps | libraries/chain/db_market.cpp:54-109 | debts and supply agree afterwards |
| MarginCalls.CheckForBlackSwan | libraries/chain/db_update.cpp:185-272 | no swan means someone pays more than the debt for every position's collateral; otherwise settlement at the position's price or the better feed, or refusal because it is not allowed or cannot be valued |
| MarginCalls.SupportedByHighest | libraries/chain/db_update.cpp:222-249 | comparing with the highest bid decides it for all bids |
| MarginCalls.SwanPriceIsHigher | libraries/chain/db_update.cpp:264-269 | the settlement price is the position's or the feed's, whichever takes less collateral |
| MarginCalls.CallOnce | libraries/chain/db_market.cpp:1061-1170 | amounts fair at the order's price change hands; order, position and balances afterwards; exact condition for throwing; repeats without end exactly when the position idles |
| MarginCalls.CheckCallOrders | libraries/chain/db_market.cpp:970-1174 | afterwards no order meets a called position, by trades and at most one settlement of the asset; throws only after trades that lead to a refused settlement or a failing trade |
| MarketInvariant.TradingKeepsSound | libraries/chain/db_market.cpp:810-927 | trades keep the invariant |
| MarketInvariant.SettlementKeepsSound | libraries/chain/db_market.cpp:54-109 | global settlement keeps the invariant, solvency included |
| MarketOperations.TakeOrderFunds | libraries/chain/market_evaluator.cpp:68-105 | deposit and fee leave the owner's balance, the fee's CORE comes out of the pool, exactly when both suffice |
| MarketOperations.CreateLimitOrder | libraries/chain/market_evaluator.cpp:40-125 | the invariant is kept; the state is what trading made of the old one with the order placed, or exactly the old one, for one of the stated reasons |
| MarketOperations.CancelOrder | libraries/chain/market_evaluator.cpp:127-156 | accepted exactly for the owner's own order; refunds in full; keeps the invariant |
| MarketOperations.CancelExpired | libraries/chain/db_update.cpp:284-301 | exactly the expired orders leave, and their owners have deposits and fees back less the cancellation fee; keeps the invariant |
| PositionUpdate.UpdatePosition | libraries/chain/market_evaluator.cpp:158-367 | debt and supply change together, the borrower gets the new debt and pays the new collateral; a position may end in margin call territory only if it improved without new debt; refused only for the stated reasons; keeps the invariant |
| PositionUpdate.CheckUpdate | libraries/chain/market_evaluator.cpp:158-290 | accepts exactly updates of a live asset within its supply limit and backing that open, keep or close a position |
| Settlements.ClaimSolvent | libraries/chain/asset_evaluator.cpp:863-905 | a claim never exceeds the fund, gives no more than claimed, and leaves enough for all others |
| Settlements.ClaimMeans | libraries/chain/asset_evaluator.cpp:868-890 | a claim gets the most its part of the fund allows and gives the least worth that, by cross-multiplication |
| Settlements.ClaimsStaySolvent | libraries/chain/asset_evaluator.cpp:863-905 | over every run of claims the fund covers the supply at the price fixed at settlement, and is used up with it |
| Settlements.Settle | libraries/chain/asset_evaluator.cpp:841-916 | a claim is paid exactly as stated, or a request is recorded, exactly when allowed; keeps the invariant |
| Settlements.OwedByPositions | libraries/chain/asset_evaluator.cpp:822-825 | an unsettled asset with a supply has a position: the internal error cannot happen |
| Settlements.SettleGlobally | libraries/chain/asset_evaluator.cpp:810-839 | settles at the price only if the least collateralized position can pay it; keeps the invariant |
| ForceSettlement.SettleTradeBounds | libraries/chain/db_market.cpp:704-778 | a settlement stays within request, room and debt; a closed position pays its debt's worth rounded up, any other no more than it is relieved of |
| ForceSettlement.SettleTradeIsFair | libraries/chain/db_market.cpp:704-778 | of the least of request, room and debt, an open position pays all it is worth and is relieved of the least that covers it, a closed one pays the least worth its debt |
| ForceSettlement.FillPriceMeans | libraries/chain/db_update.cpp:405-408 | the price is the feed's less the offset, in plain amounts, and never better for the holder |
| ForceSettlement.SettledStaysAbove | libraries/chain/db_market.cpp:704-808 | a position above the maintenance ratio stays above it |
| ForceSettlement.FillSettleOrder | libraries/chain/db_market.cpp:929-954 | the request shrinks, its owner has the collateral less the fee |
| ForceSettlement.MatchSettle | libraries/chain/db_market.cpp:704-808 | amounts fair at the price leave position and request; all balances afterwards; fails exactly when the position has no collateral or cannot pay |
| SettlementPass.MaximumIsConstant | libraries/chain/asset_object.cpp:34-45 | the maximum volume does not change while requests are served |
| SettlementPass.MaxVolumeIsGreatest | libraries/chain/asset_object.cpp:34-45 | the maximum is the greatest volume within the percentage of supply and volume |
| SettlementPass.ServedByDate | libraries/chain/include/graphene/chain/market_object.hpp:237-243 | requests of an asset are served by date, then age |
| SettlementPass.ServeOrder | libraries/chain/db_update.cpp:423-473 | one request is served until it is gone, the volume is used up, or it is too small |
| SettlementPass.ServeRequests | libraries/chain/db_update.cpp:304-474 | ends within four rounds per request; never settles past the volume; supply plus volume unchanged for every asset; what is left of due requests waits for the volume or is too small; cannot fail while positions cover their debt at the price |
| Revival.ExactlyJudged | libraries/chain/db_maint.cpp:824-829 | judged without approximation, a bid passes if and only if it is above the maintenance ratio of the margin calls |
| Revival.PassesMeans | libraries/chain/db_maint.cpp:822-829 | a bid passes when its collateral and its part of the fund are worth more than the maintenance ratio of its debt, in plain amounts |
| Revival.OutbidsMeans | libraries/chain/include/graphene/chain/market_object.hpp:258-265 | more collateral for the same debt, or less debt for the same collateral, comes first |
| Revival.AboveIsNotCalled | libraries/chain/db_maint.cpp:836-855 | no position made from a bid above maintenance is called |
| Revival.WholeShareCalled | libraries/chain/db_maint.cpp:836-855 | a position with exactly its share is called if and only if its bid is not above maintenance |
| Revival.PlannedNext | libraries/chain/db_maint.cpp:836-855 | what the second pass gives each bid is what is planned for it before the pass |
| Revival.CalledAsPlanned | libraries/chain/db_maint.cpp:806-860 | a position of the revived asset is called if and only if a planned one is |
| Revival.PassesButCalled | libraries/chain/db_maint.cpp:824-829 | a bid that passes and becomes a called position that an order meets |
| Revival.ChooseBids | libraries/chain/db_maint.cpp:816-833 | the best passing bids covering the supply, none superfluous, or evidence that there are none |
| Revival.FundSuffices | libraries/chain/db_maint.cpp:836-855 | the fund has its part for every bid in turn, and the last one's ratio is no worse than the one checked |
| Revival.FundedIsFair | libraries/chain/db_maint.cpp:836-855 | every position has at least its debt's part of the fund, rounded down, in plain amounts |
| Revival.WholeShareIsFair | libraries/chain/db_maint.cpp:842-847 | every position but the last has exactly that part, for all the debt offered or owed |
| Revival.ExecuteBids | libraries/chain/db_maint.cpp:836-857 | exactly the planned positions; debts add up to the supply, shares to the fund, each share at least its debt's part rounded down |
| Revival.ProcessBids | libraries/chain/db_maint.cpp:806-860 | revived with exactly the positions planned for the chosen passing bids, the other bids returned, or untouched for lack of bids; none called when every bid is above maintenance; keeps the invariant |
| Revival.FinishRevival | libraries/chain/db_market.cpp:135-158 | every remaining bidder has the collateral back, the asset is no longer settled, and nothing else changes |
| Feeds.Revive | libraries/chain/db_market.cpp:111-133 | the issuer takes over debt and fund, bids are returned; an empty asset has an empty fund |
| Feeds.ShouldReviveMeans | libraries/chain/asset_evaluator.cpp:999-1021 | revived when nothing is owed or the fund is worth more than the maintenance ratio of what is, in plain amounts |
| Feeds.ChangeFeed | libraries/chain/asset_evaluator.cpp:918-1029 | revives exactly when the fund is worth enough, then makes margin calls; refused only for a bad feed or when those throw; keeps the invariant |
| Feeds.BidCollateral | libraries/chain/market_evaluator.cpp:369-426 | replaces the bidder's bid and returns its collateral, exactly when the stated checks pass; keeps the invariant |
| MarketRuns.GenesisInv | tests/common/database_fixture.cpp:309-421 | a first state in which accounts hold all supplies satisfies the invariant |
| MarketRuns.Perform | libraries/chain/db_block.cpp:239-262 | each operation changes the state as its evaluator does, or leaves it alone for one of the stated reasons; keeps the invariant |
| MarketRuns.Run | tests/common/database_fixture.cpp:309-421 | every run from such a state goes where its operations lead, step by step, and conserves every asset, keeps debts equal to supplies, the book uncrossed and worth something, and settled assets solvent, in every state it goes through |
| MarketRuns.StepKeeps | libraries/chain/asset_evaluator.cpp:863-905 | no operation but the two that revive an asset touches its settlement price |
| MarketRuns.SolventAtOnePrice | libraries/chain/asset_evaluator.cpp:863-905 | from settlement until revival the price is fixed and the fund covers all claims at it, through every operation in between |
| MarketRuns.ExposedByBid | libraries/chain/db_maint.cpp:806-860 | bids that leave a called position include one that passes without being above maintenance, hence one that is not judged exactly |
| MarketRuns.NoOrderMeetsCalled | libraries/chain/db_market.cpp:970-1174 | as long as no bid becomes a called position, no state of a run has a resting order that meets one |
| Vesting.AccrualIsPathIndependent | libraries/chain/vesting_balance_object.cpp:90-109 | updating at a time in between makes no difference |
| Vesting.AccruesSteadily | libraries/chain/vesting_balance_object.cpp:90-109 | coin-seconds grow by balance times time until all is vested, and no faster |
| Vesting.AllowedIsCovered | libraries/chain/vesting_balance_object.cpp:111-142 | what may be withdrawn is within the balance and paid for, so the assertions hold |
| Vesting.AllowedIsGreatest | libraries/chain/vesting_balance_object.cpp:111-119 | what may be withdrawn is the greatest amount held for its period, and nothing before claims begin |
| Vesting.AllowedAfter | libraries/chain/vesting_balance_object.cpp:121-142 | a deposit frees nothing at once, a vested one exactly itself, and a withdrawal uses itself up |
| Vesting.FullyVested | libraries/chain/vesting_balance_object.cpp:111-119 | a balance left alone for its period is free |
| Vesting.NotFullyVested | libraries/chain/vesting_balance_object.cpp:90-119 | before its period is over a balance is not wholly free |
| Vesting.RunKeepsValid | libraries/chain/vesting_balance_object.cpp:90-142 | over every run the coin-seconds stay within balance times period |
| Vesting.NothingIsLost | libraries/chain/vesting_balance_object.cpp:237-262 | over every run, what is there and what was taken out is what was there and what was put in |
| Vesting.NothingUnvestedLeaves | libraries/chain/vesting_balance_object.cpp:90-142 | over every run, what is taken out or free has been held for its period: each balance times the time to the next action, from the times of the actions alone |
| Vesting.VestingBalance.constructor | libraries/chain/db_balance.cpp:188-201 | what a lazily created balance starts with |
| Vesting.DepositLazily | libraries/chain/db_balance.cpp:156-204 | goes into the account's balance for the period or a new one; fails exactly when a vested credit exceeds 64 bits |
| Vesting.VestingBalance.Withdraw | libraries/chain/vesting_balance_object.cpp:256-262 | accepted exactly when allowed |
| Vesting.VestingBalance.DepositVested | libraries/chain/vesting_balance_object.cpp:126-130 | credited exactly when the product fits |
| Vesting.VestedCreditOverflows | libraries/chain/vesting_balance_object.cpp:126-130 | an amount and period for which it does not |
| Vesting.VestedCreditFits | libraries/chain/vesting_balance_object.cpp:126-130 | the periods for which it always does |
| Proposals.Visitor.VisitAll | libraries/chain/proposal_evaluator.cpp:141-160 | the visitor finds the highest proposal updated or deleted anywhere in the tree |
| Proposals.CheckUpdates | libraries/chain/proposal_evaluator.cpp:113-127 | the visitor refuses exactly the trees in which some proposal has two updates |
| Proposals.NoTwoUpdates | libraries/chain/proposal_evaluator.cpp:113-127 | an accepted proposal has no two updates side by side |
| Proposals.ProposalDatabase.CreateProposal | libraries/chain/proposal_evaluator.cpp:162-266 | accepted exactly when lifetime and review period are in order, everything it touches is older and no proposal in it updates twice |
| Proposals.ProposalDatabase.PushProposal | libraries/chain/db_block.cpp:288-326 | terminates and computes that meaning, executions nesting in strictly descending order of ids; a failed execution leaves no trace |
| Proposals.ProposalDatabase.UpdateProposal | libraries/chain/proposal_evaluator.cpp:268-334 | accepted exactly when no approval is added under review and only given ones are revoked; afterwards approvals are the old and added ones without the revoked; a failed execution leaves only the approvals and the failure |
| Proposals.AfterPush | libraries/chain/db_block.cpp:288-326 | executing a proposal keeps every proposal younger than what it touches, leaves proposals that are not older alone, and ends with the proposal gone |
| Proposals.AfterAll | libraries/chain/db_block.cpp:299-306 | the meaning of a list of operations is defined for every nesting: executions only descend to older proposals |
| Proposals.ProposalDatabase.ApplyTransaction | libraries/chain/db_block.cpp:239-262 | all operations or none; proposal ids are not reused |
| WitnessSchedule.SlotOfSlotTime | libraries/chain/db_witness_schedule.cpp:42-77 | the slot at a slot's time is that slot, with and without the maintenance skip |
| WitnessSchedule.SlotOfTime | libraries/chain/db_witness_schedule.cpp:71-77 | a moment belongs to the slot whose time it has reached and whose successor's it has not |
| WitnessSchedule.FirstSlot | libraries/chain/db_witness_schedule.cpp:42-69 | slots follow at the interval; the first is the next multiple after the head block, put off by the slots skipped |
| WitnessSchedule.ShuffleIsPermutation | libraries/chain/db_witness_schedule.cpp:116-132 | whatever the random words, the shuffle is a permutation |
| WitnessSchedule.EveryOrderIsPossible | libraries/chain/db_witness_schedule.cpp:116-132 | every permutation comes from some words |
| WitnessSchedule.Shuffle | libraries/chain/db_witness_schedule.cpp:116-132 | the in-place loop computes that shuffle |
| WitnessSchedule.EveryWitnessOnce | libraries/chain/db_witness_schedule.cpp:34-40 | any N consecutive slots name each of the N witnesses exactly once |
| WitnessSchedule.Schedule.Update | libraries/chain/db_witness_schedule.cpp:102-135 | once per round the schedule becomes an order of the active witnesses |
| WitnessSchedule.Schedule.UpdateMissed | libraries/chain/db_witness_schedule.cpp:79-94 | each witness of a skipped slot is charged once, none twice, none after a whole round |
| Sync.NumbersIncrease | libraries/app/application.cpp:886-900 | block numbers grow strictly |
| Sync.NumbersAreFew | libraries/app/application.cpp:886-900 | at most the rounded-up binary logarithm of the span plus two entries |
| Sync.NumbersAreManyEnough | libraries/app/application.cpp:886-900 | exactly that many, the last one the high block, when nothing follows |
| Sync.NearbyBelow | libraries/app/application.cpp:886-900 | an entry close below every point at which chains can part |
| Sync.NamesNumbered | libraries/app/application.cpp:855-900 | every entry is the block of its number, of the chain before the fork point and of the branch after it |
| Sync.IncludedMeans | libraries/app/application.cpp:640-645 | exactly the chain's own blocks are included |
| Sync.GetSynopsis | libraries/app/application.cpp:786-904 | the ids of those numbers on the chain or fork of the reference point; exact conditions for failing |
| Sync.GetBlockIds | libraries/app/application.cpp:656-702 | a contiguous segment from the last recognized entry on; last number plus remaining count is the head |
| Sync.ReplyStartsNearParting | libraries/app/application.cpp:656-702 | between two chains that part at a block, the reply starts at the highest synopsis block both have, and repeats no more than what is not shared |

## Left out

- MarketOperations.CreateLimitOrder: market white- and blacklists and the fee schedule; the fee in CORE is a parameter.
- PositionUpdate.UpdatePosition: the fee of the operation.
- Feeds.ChangeFeed: the median of the published feeds is a parameter, publication rights are not modelled.
- SettlementPass.ServeRequests: that it cannot fail is stated for positions that cover their debt at the price; the exact condition is stated for a single match.
- Settlements.SettleGlobally: which of several least collateralized positions is asked is left open, so acceptance and refusal each name one.
- Orders.ApplyOrder: after which trades it throws is stated as a state that trading can reach; the match that throws is characterized exactly.
- Revival.ProcessBids: ties between equally good bids are broken arbitrarily, not by id.
- Revival.CallPrice: how far halving takes an approximated call price from the exact one.
- Prices.Scale: how far an approximated product is from the exact one, beyond its direction and being the nearer of two candidates.
- MarginCall.CoversNoMoreThanNeeded: not stated where a unit of collateral is worth more than a unit of debt at the ratio; rounding may then cost more than the unit the code allows for.
- Positions.LeastCollateralized: ties between equally collateralized positions are broken arbitrarily, not by id.
- WitnessSchedule.Shuffle: the xorshift generator is a parameter; the result holds for every generator.
- WitnessSchedule.SlotOfSlotTime: 32-bit wrap-around of slot numbers and times.
- Vesting.RunKeepsValid: linear and instant policies.
- Proposals.ProposalDatabase.PushProposal: authorities are parameters, proposals that expire are not executed; the session is a saved copy, which is what the undo database refines.
- ChainDatabase.Database.PushBlock: pending and popped transactions, the block store, skip flags, and the resizing of the undo and fork windows by update_global_dynamic_data.
- UndoDatabase.UndoDatabase.Undo: unique secondary keys; objects are keyed by id.
- Total CORE in orders, account statistics, applied-operation history and virtual operations.
- Asset creation, issuing, reserving, fee claims, transfers, budget and worker pay.
- All branches for blocks before the last hard fork.
- Signatures, hashes, serialization, the network protocol, RPC and API code, playchain rooms and tables.
