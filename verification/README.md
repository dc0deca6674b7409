# A verified model of the DEX server's matching core

The server runs a limit order book per token pair. Orders arrive as messages, are matched against
the stored orders of the opposite side, and the results are published for settlement on an
Ethereum contract and for clients that follow the book. This project models that logic in Dafny
and proves what it promises - and, where the code does not keep a promise, exactly when it does.

## What is modelled

- `Orders.dfy`, `OrderStore.dfy`: orders, trades, match batches; the order collection as a map, with the
  queries and updates issued against it.
- `Matching.dfy`: one matching pass as functions. `OrderBook.dfy`: the same as the engine executes it, a
  class whose methods write the collection in place, proved equal to those functions.
- `BookRuns.dfy`: every interleaving of new orders, resubmissions, cancellations and both
  invalidations. `FreshRuns.dfy`: orders seen for the first time and cancellations, with the ledger of trades.
- `Priority.dfy`: price limits, price-time priority, cancelled and invalidated orders, in prices, times and statuses.
- `Invalidation.dfy`: rolling matches back. `Resubmission.dfy`: orders that go through the book again.
  `Journals.dfy`: trades and roll-backs written down along any run. `Reachability.dfy`, `Crossings.dfy`,
  `Counterexamples.dfy`: books built message by message on which a promise fails. `Mirror.dfy`: buying and
  selling as mirror images.
- `Feed.dfy`, `Snapshots.dfy`, `FeedGaps.dfy`: the incremental feed, the sorted lists sent on subscription, and what
  the feed misses. `Batches.dfy`: batches on their way to the contract.
- `Amounts.dfy`, `Solvency.dfy`, `SolvencyLimits.dfy`: floor-division amounts, locked balances, admission.
- `Listener.dfy`: the deposit listener. `Connections.dfy`, `Subscriptions.dfy`, `Dispatch.dfy`: client lists
  shifted in place, the subscription index, least-loaded dispatch. `Sums.dfy`, `Options.dfy`: sums over sets, optional values.

Modelling decisions:

- An order's hash is a digest of its terms. Collision freedom is idealised by letting the terms be
  the hash. A trade's hash digests the two order hashes, so the pair of hashes stands for it.
- Orders are values; the map is the database. `big.Int` is `int`, and its `Div` is Euclidean like Dafny's.
- Every message handler is one atomic step, because it holds the pair's lock. Database and broker calls
  succeed. The clock, the order of ties in a query and the order of a `$in` answer are free parameters.
- The sort by price and then creation time is the intended one; the source passes the two sort
  keys in an unordered map.
- A fresh order is one that is not stored, has nothing filled and a positive amount. Price points of
  admitted orders are positive, as order validation demands.
- The client of the feed replaces the levels it is told about.

- Both invalidation handlers are modelled. The service publishes the message that invalidates makers only;
  nothing in the repository sends the one that invalidates a taker. The failing runs use the former, except
  `Counterexamples.SwappedAnswer`, which is about the latter.
- What a client claims as filled is decoded and never checked, so the runs of `BookRuns.dfy` allow any claim.

Where the code and its comments disagree the model follows the code: `cancelOrder` cancels an order in any
status although the service comment speaks of untouched orders only; a resubmitted sell order without
a match is reopened while a buy order keeps its status; the balance validator values locks of other pairs with
the multiplier of the pair at hand.

Promises the code keeps only under a condition, each condition proved necessary and sufficient, with a
concrete failing input:

- The book stays uncrossed: `Crossings.UncrossedIff`, inputs `Crossings.ThreeMessagesCross` and, for every bad claim,
  `Crossings.BadClaimCrosses`.
- No overfill: `BookRuns.NoOverfillIff`, input `BookRuns.StoredAsClaimed`.
- Fills equal trades less roll-backs: `Journals.RunConservedIff`, input `Counterexamples.StaleSnapshot`.
- Statuses agree with amounts: `Resubmission.RunConsistentIff`, input `Counterexamples.OpenButFilled`.
- Invalidating a taker restores the book: `Invalidation.InvalidateTakerRestores`, input `Counterexamples.SwappedAnswer`.
- Invalidating makers restores the taker's fill: `Invalidation.InvalidateMakersTakesBackOne`, input `Counterexamples.BothInvalid`.
- The feed stays right when makers are invalid: `FeedGaps.SkippedBroadcast`, input `Counterexamples.OnlySecondInvalid`.
- Admission keeps users solvent: `SolvencyLimits.SolventIff`, input `SolvencyLimits.Overcommits`.
- The listener skips no block and handles none unconfirmed: `Listener.SafeIff` and `Listener.ConfirmedIff`,
  inputs `Listener.FromZeroSkips` and `Listener.FromZeroUnconfirmed`.
- Buying and selling are mirror images: `Mirror.MatchFlips`, input `Counterexamples.OnlySellerOpened`.
- Estimated and sent batches agree: `Batches.EstimateAndSend`, input `Counterexamples.AcrossPairs`.

## Model

| member | source | states |
|---|---|---|
| `BookRuns.RunUncrossed` | engine/orderbook.go:47-407 | in every run of new, resubmitted, cancel and invalidate messages in any order in which no client claims more filled than a non-negative amount: no resting bid reaches a resting ask of its pair unless one of them waits for its resubmission |
| `Crossings.UncrossedIff` | engine/orderbook.go:98-270 | for any set of amounts and claims that clients may submit besides the honest ones: every reachable book is uncrossed exactly when no claim exceeds its amount and no amount is negative |
| `Crossings.BadClaimCrosses` | endpoints/order.go:231-231 | for every other pair of amount and claim there is a run that crosses the book, all other orders being honest |
| `Crossings.ThreeMessagesCross` | types/order.go:435-437 | sell 10 at 100, sell 5 at 101 with 8 claimed, buy 6 at 101 with 1 claimed: the bid keeps 3 against an ask with 5 left at 100 |
| `Crossings.HandsBack` | engine/orderbook.go:116-142 | a taker with something filled that a larger maker uses up goes on to an overfilled maker and gets back what that has too much |
| `BookRuns.RunNoOverfill` | engine/orderbook.go:47-407 | in every run whose new orders claim a fill in range, every stored order keeps 0 <= filled <= amount |
| `BookRuns.NoOverfillStep` | engine/orderbook.go:226-407 | no message with a claimed fill in range, including stale resubmissions and roll-backs, takes a stored or pending order out of the range 0 to amount |
| `BookRuns.NoOverfillIff` | endpoints/order.go:231-231 | for any set of orders that clients may submit: no run overfills an order exactly when none of them claims a fill outside 0 to amount |
| `BookRuns.StoredAsClaimed` | engine/orderbook.go:79-92 | an unmatched order is stored with whatever fill the client claims |
| `BookRuns.UncrossedStep` | engine/orderbook.go:98-407 | every message that claims no more than its amount keeps the book uncrossed up to pending resubmissions |
| `BookRuns.TakerUncrossed` | engine/orderbook.go:98-156 | after a match, a taker that still rests crosses no order that still rests, unless somebody came overfilled |
| `BookRuns.RollbackUncrossed` | engine/orderbook.go:345-350 | every order an invalidation reopens is published again, so reopening never leaves an unannounced crossing |
| `BookRuns.RunKeepsPlaces` | types/order.go:718-727 | over a whole run, whatever fills are claimed, nothing is deleted and creation times never change, so time priority is fixed at insertion |
| `BookRuns.MatchKeepsPlaces` | types/order.go:718-727 | a stored taker keeps its creation time, a new one gets the current time, and everybody else keeps theirs |
| `BookRuns.FreshRunUncrossed` | engine/orderbook.go:98-221 | when only fresh orders and cancellations occur, every live bid is strictly below every live ask of its pair |
| `BookRuns.FoundFits` | daos/order.go:302-319 | a `$in` answer is never longer than the list of hashes, so pairing it with the amounts by position stays in bounds |
| `BookRuns.RollbackEffect` | daos/order.go:316-335 | rolling back keeps keys and ranges, brings every order it touches into range, and an order that is live afterwards is unchanged unless it was rolled back |
| `OrderBooks.OrderBook.GetMatchingOrders` | daos/order.go:659-731 | exactly the live orders on the other side of the pair within both price limits, none before one with a better price or with the same price and an earlier creation time |
| `Priority.MatchPriority` | daos/order.go:682-684 | if an order gained anything in a match, every tradable order with a better price, or the same price and an earlier creation time, is filled; the taker may be new or run again |
| `Priority.RunPriority` | engine/orderbook.go:98-221 | the same for every order run through the book in every run in which no client claims more than the whole amount |
| `Priority.WalkPriority` | engine/orderbook.go:116-142 | a trade that moves something means that every earlier maker is filled |
| `Priority.MatchLimits` | daos/order.go:659-731 | every trade is made at the taker's price with a live order on the other side of the pair, and neither price limit is broken |
| `OrderBooks.OrderBook.Execute` | engine/orderbook.go:226-270 | one execution writes the maker and returns the maker, taker and trade of the specification |
| `OrderBooks.OrderBook.MatchAll` | engine/orderbook.go:116-155 | the loop with its early exit writes the store and builds the response of the specified match |
| `OrderBooks.OrderBook.BuyOrder` | engine/orderbook.go:98-156 | a buy message has the specified outcome against some answer of the matching query |
| `OrderBooks.OrderBook.SellOrder` | engine/orderbook.go:162-221 | a sell message has the specified outcome against some answer of the matching query |
| `OrderBooks.OrderBook.NewOrder` | engine/orderbook.go:47-76 | dispatch by side, one step of the book, one published response |
| `OrderBooks.OrderBook.CancelOrder` | engine/orderbook.go:273-297 | a known order is stored as cancelled whatever its status was, and the response published; an unknown one changes nothing |
| `Priority.CancelEffect` | daos/order.go:220-233 | after a cancellation the order is the old one with status cancelled, not live, and every other order is unchanged |
| `Priority.RunCancelled` | engine/orderbook.go:273-297 | over any run a cancelled order stays out of the book with its fill unchanged until a message carries it or takes back a trade from it |
| `Priority.RunCancelledTrades` | engine/orderbook.go:98-297 | and in between no trade names it, as maker or as taker |
| `Feed.CancelLowers` | daos/order.go:614-657 | cancelling a live order takes exactly what is left of it out of its level |
| `OrderBooks.OrderBook.UpdateOrderFilledAmounts` | daos/order.go:302-354 | amount i is subtracted from the i-th order of the answer, clamped to 0 and amount, with the status to match |
| `OrderBooks.OrderBook.UpdateOrderStatuses` | daos/order.go:235-263 | sets the status of every listed order and returns them |
| `OrderBooks.OrderBook.InvalidateMakerOrders` | engine/orderbook.go:300-353 | takers rolled back and published again, makers invalidated and announced |
| `Priority.InvalidatedMakers` | engine/orderbook.go:310-353 | every stored maker of the batch ends invalidated, and an order the batch does not name is left as it was |
| `Priority.InvalidatedTakers` | engine/orderbook.go:315-350 | the k-th order found has the k-th amount taken back within 0 and its amount, and is published again with that fill |
| `OrderBooks.OrderBook.InvalidateTakerOrders` | engine/orderbook.go:355-407 | makers rolled back and published again, taker invalidated and announced |
| `OrderBooks.InsertKeeps` | daos/order.go:682-684 | insertion into the price-time order keeps it sorted and adds exactly the one order |
| `Matching.WalkMakers` | engine/orderbook.go:116-142 | maker i gains exactly what trade i moves, gets the status its amounts call for and is not overfilled |
| `Matching.WalkTaker` | engine/orderbook.go:254 | the taker gains the total of the trades and is not overfilled |
| `Matching.WalkEnd` | engine/orderbook.go:117-146 | the loop stops early only with the taker used up; if it ends with something left on the taker, every maker is filled |
| `Matching.MatchEffect` | engine/orderbook.go:98-221 | a match writes the taker and the visited makers and nothing else |
| `Matching.TakenEffect` | engine/orderbook.go:127-146 | the taker keeps its terms, is not overfilled, gains the traded total unless it claimed less than nothing, and keeps a remainder only if every crossing order is filled |
| `FreshRuns.RunConserves` | engine/orderbook.go:98-297 | over every run of fresh orders and cancellations: statuses agree with amounts, each fill equals the trades naming the order, bids and asks of a pair have filled by the same total, and no maker-taker pair trades twice |
| `FreshRuns.ConsistentStep` | engine/orderbook.go:79-92 | open means nothing filled, partially filled means strictly between, filled means all |
| `FreshRuns.AccountedStep` | engine/orderbook.go:226-270 | fills and ledger stay equal, order by order |
| `FreshRuns.MatchTraded` | engine/orderbook.go:226-270 | for any taker, what a match adds to the ledger under a hash is what it adds to that order: to the stored fill of a maker, to the claimed fill of the taker |
| `FreshRuns.BalancedStep` | engine/orderbook.go:226-270 | on every pair both sides have filled by the traded volume |
| `FreshRuns.IdentifiedStep` | types/trade.go:314-319 | trades join stored orders of opposite sides of one pair for a positive amount, and their hashes stay unique |
| `FreshRuns.RunLiveRests` | daos/order.go:666 | every live order has something left to trade |
| `FreshRuns.WalkFresh` | engine/orderbook.go:116-142 | a fresh taker trades the minimum of its amount and what the makers have, each trade is positive, and only the last visited maker can have a remainder |
| `FreshRuns.MatchGreedyTotal` | engine/orderbook.go:98-156 | the total traded is the smaller of the taker's amount and the crossing orders' remaining total |
| `FreshRuns.MatchGreedyPrefix` | engine/orderbook.go:98-156 | the makers traded with are a prefix of the price-time order, all but the last are filled, the others are untouched |
| `FreshRuns.ResponseTellsOutcome` | engine/orderbook.go:109-155 | the response says added exactly when nothing crosses, and filled exactly when the stored order is filled |
| `FreshRuns.ResponseCarriesStored` | engine/orderbook.go:109-155 | the order in every response, added or matched, is the stored one up to the creation time the database sets, an added one is the submitted order opened, and the makers of a match are the stored ones |
| `Resubmission.WalkTotal` | engine/orderbook.go:116-142 | for any starting fill the total traded is the smaller of what the taker and what the crossing orders have left |
| `Resubmission.NeverMarkedFilled` | engine/orderbook.go:100-146 | a taker with something filled never stops the loop and is never marked filled |
| `Resubmission.ConsistentIff` | engine/orderbook.go:98-221 | a submission or resubmission, matched or not, leaves every stored status in agreement with its amounts exactly when nothing was filled, or it is an unmatched buy whose status was right, or the crossing orders cannot use it up |
| `Resubmission.RunConsistentIff` | engine/orderbook.go:47-407 | over every run with invalidations and resubmissions, all statuses always agree with their amounts exactly when every order the engine consumed met that condition |
| `Resubmission.StepConsistentIff` | engine/orderbook.go:98-407 | one message keeps the agreement exactly when the order it carries meets the condition; cancellations and invalidations always do |
| `Resubmission.TakenAgreesIff` | engine/orderbook.go:109-146 | the same condition for the taker alone |
| `Resubmission.ZeroTradeIff` | engine/orderbook.go:116-142 | a match contains a trade of nothing exactly when the taker came with something filled and was used up before the last crossing order |
| `Resubmission.WalkZero` | engine/orderbook.go:116-142 | which makers such a taker trades nothing with: those after makers that could use it up |
| `Journals.RunConservedIff` | engine/orderbook.go:47-407 | over every run with invalidations and resubmissions, each fill always equals the trades naming the order less the amounts really taken back, exactly when every order the engine consumed carried the stored fill of that moment |
| `Journals.StepConservedIff` | engine/orderbook.go:98-407 | one message keeps that equality exactly when the order it carries is current; cancellations and invalidations always do |
| `Journals.RollbackRefunded` | daos/order.go:302-354 | a roll-back lowers every fill by exactly what is noted for it after clamping |
| `Counterexamples.StaleSnapshot` | engine/orderbook.go:345-350 | sell 4, buy 10, invalidate the ask, sell 3, run the bid again: a run in which the snapshot overwrites a fill of 3 with 0 |
| `Counterexamples.OpenButFilled` | engine/orderbook.go:172-174 | buy 4, buy 3, sell 10, invalidate the first bid, run the seller again: a run that ends with an order stored as open with 3 filled |
| `Invalidation.RollbackUndoes` | daos/order.go:319-329 | subtracting an amount restores an executed maker, after a trade of nothing too, exactly when the amount equals the trade, or exceeds it on an order that had nothing filled |
| `Invalidation.InvalidateTakerRestores` | engine/orderbook.go:355-379 | after the match of any taker, new or run again, invalidating it restores every other order of the book exactly when every amount undoes the trade of the order returned at its position |
| `Invalidation.RollbackInverts` | engine/orderbook.go:359-375 | with makers returned in request order, invalidating the taker is the inverse of its match on every other order, whether the taker was new or run again |
| `Invalidation.InvalidateMakersTakesBackOne` | engine/orderbook.go:310-315 | only the first amount is taken back, so the taker's fill is reduced by the invalidated total exactly when the other invalidated trades moved nothing |
| `Counterexamples.AsksListed` | engine/orderbook.go:162-221 | the book of two asks used by the next three examples is reached by a run of two submissions |
| `Counterexamples.BidFilled` | engine/orderbook.go:98-156 | a bid for 3 takes the asks of 1 and 2 and is filled |
| `Counterexamples.SwappedAnswer` | engine/orderbook.go:359-375 | with the two makers returned in the other order, the ask that sold 2 keeps 1 filled after the taker is invalidated |
| `Counterexamples.BothInvalid` | engine/orderbook.go:304-315 | with both trades invalidated the taker keeps a fill of 2 instead of 0 |
| `Mirror.MatchingFlips` | daos/order.go:659-731 | the matching query of the mirrored order in the mirrored book has the mirrored answer |
| `Mirror.WalkFlips` | engine/orderbook.go:117-142 | the matching loop commutes with the mirror |
| `Mirror.MatchFlips` | engine/orderbook.go:98-221 | buying and selling give mirrored stores, trades and responses exactly when there is a match, nothing filled, or the status is open |
| `Counterexamples.OnlySellerOpened` | engine/orderbook.go:172-174 | in a reachable book the seller run again is opened, while in the mirrored book the buyer keeps its status |
| `Feed.GetOrderBookPricePoint` | daos/order.go:614-657 | the total remaining of the live orders at a level, None exactly when there is none |
| `Feed.DepthInsert` | daos/order.go:615-638 | the total counts of each order exactly amount less fill if it is open or partially filled on that pair, side and price |
| `Feed.BroadcastOrderBookUpdate` | services/order.go:508-550 | the message carries the current total for exactly the levels of the given orders, bids and asks apart |
| `Feed.ApplyRefreshes` | services/order.go:532-549 | applying truthful updates in any order brings exactly their levels up to date |
| `Feed.HandleResponse` | services/order.go:226-299 | handling a response brings a client up to date on all levels the response touches |
| `Feed.MatchDepth` | daos/order.go:614-657 | a match changes no level outside those its response names |
| `Feed.SnapshotShows` | daos/order.go:544-612 | the snapshot of a pair gives the remaining total at every level of the pair, nothing where it has no level |
| `Snapshots.GetSideOrderBook` | daos/order.go:544-594 | one level for each price at which live orders of the side stand, with their remaining total, bids by falling and asks by rising price; with a limit, the best of them |
| `Snapshots.GetOrderBook` | daos/order.go:596-612 | bids by falling and asks by rising price, and a client that starts from the two lists shows exactly the snapshot of the pair |
| `Feed.RunUpToDate` | services/order.go:226-299 | over every run, with responses handled late and in any order, a client is right about every level no unhandled response touches, and about all levels once none is left |
| `FeedGaps.MatchDrops` | daos/order.go:614-657 | on the makers' side a match, of a new taker or one run again, lowers exactly the levels where some trade moved something |
| `FeedGaps.SkippedBroadcast` | services/order.go:246-311 | when the invalid half of a match is not empty, a client that was right about a maker-side level ends up right about it exactly when an invalid maker stands there or no trade there moved anything; the taker may be new or run again |
| `FeedGaps.InvalidHalf` | services/order.go:246-256 | the invalid half of a match consists of trades of the taker with stored orders on the other side of its pair |
| `Counterexamples.OnlySecondInvalid` | services/order.go:285-311 | with only the second of two makers invalid, the client goes on showing 1 at the first level, where nothing is left |
| `Batches.MatchAligned` | types/engine.go:63-74 | in what the engine publishes, trade i is a trade of maker i with the taker, all on one pair |
| `Batches.MergePicks` | services/order.go:246-256 | splitting valid from invalid matches loses, duplicates and reorders nothing |
| `Batches.PickAligned` | services/order.go:246-256 | both halves of the split stay aligned |
| `Batches.SplitMatches` | services/order.go:236-256 | the loop computes the two halves and the orders to broadcast |
| `Batches.ExecuteBatchTrades` | contracts/exchange.go:139-169 | row i holds, place by place, maker i's amount, price point, side and nonce, the same of the taker, the maker's fees, the four addresses, the traded amount and both signatures |
| `Batches.CallBatchTrades` | contracts/exchange.go:194-224 | the same places for the gas estimate, with the maker's quote token and an error for a missing signature |
| `Batches.DecodesTerms` | contracts/exchange.go:155-158 | reading a row back gives the signed terms of the maker at the maker's place and of the taker at the taker's |
| `Batches.EstimateAndSend` | contracts/exchange.go:139-224 | estimated and sent batches are identical exactly when every maker quotes in the taker's token |
| `Counterexamples.AcrossPairs` | contracts/exchange.go:139-224 | a maker that quotes in another token makes the sent batch differ from the estimated one |
| `Batches.EstimateAndSendValid` | services/order.go:246-280 | for the valid half of any match the engine publishes, the estimated and the sent batch are identical, and decoding row i gives back the two orders and the amount of trade i |
| `Amounts.WholeToken` | types/pair.go:135-140 | one whole base token at a price point of k times 10^18 is worth k units of the quote token, whatever the decimals |
| `Amounts.SoldForMonotone` | types/order.go:256-265 | a fill never raises what an order locks |
| `Amounts.RoundingLoss` | types/order.go:246-265 | trades and remainder rounded one by one stay within the rounded whole and miss it by at most one unit a trade |
| `Amounts.RunRounding` | types/order.go:246-265 | the same for every stored order in every state of every run |
| `Solvency.GetUserLockedBalance` | daos/order.go:478-511 | the loop computes the estimate, which `Solvency.EstimateInsert` pins down order by order |
| `Solvency.EstimateInsert` | daos/order.go:481-509 | an empty book locks nothing, and each order adds what is left of it, valued with the given pair, exactly if it is open or partially filled, belongs to the user and sells the token |
| `Solvency.ValidateNewOrder` | services/validator.go:86-112 | accepts exactly the orders that `Solvency.AdmittedInFees` describes |
| `Solvency.AdmittedInFees` | types/order.go:281-296 | admitted exactly when the pair is listed, the value is at least twice both fees, and for a buy the value with the make fee and with the take fee, for a sell the amount, fits in balance and allowance, alone and beside the estimated locks |
| `Solvency.MatchLocked` | types/order.go:256-265 | a match adds at most the new order's sell amount to its owner's locks and raises nobody else's |
| `Solvency.EstimateCovers` | daos/order.go:504-508 | the estimate is at least the true lock when no pair undervalues another |
| `Solvency.RunSolvent` | services/validator.go:37-128 | under that condition every user's locks stay within balance and allowance, token by token, in every run |
| `Solvency.SinglePairSolvent` | services/validator.go:37-128 | with a single pair every run is solvent |
| `SolvencyLimits.Overcommits` | daos/order.go:504-508 | for any two pairs that break the condition there is a run in which a user is admitted beyond the balance |
| `SolvencyLimits.SolventIff` | services/validator.go:37-128 | all runs are solvent exactly when no pair's check undervalues another pair's locks |
| `Listener.DeliverComplete` | swap/ethereum/listener.go:155-199 | a block is complete exactly when no transaction with a recipient was rejected, and then all of them were accepted |
| `Listener.DeliverPrefix` | swap/ethereum/listener.go:171-194 | even when a block fails, every transaction with a recipient before the first rejected one was accepted |
| `Listener.RunSafe` | swap/ethereum/listener.go:55-129 | from a start block above zero, under any failures and restarts: handled blocks are exactly an unbroken range from the start, the checkpoint passes no unhandled block, nothing reaches the handler without its confirmations, and no transaction of a handled block is missed, each known by block and position |
| `Listener.RunCheckpointMonotone` | swap/ethereum/listener.go:119-127 | the checkpoint never decreases |
| `Listener.TurnAdvances` | swap/ethereum/listener.go:66-127 | a turn handles the next block, saves it and moves on by one exactly when the node has it and its confirming block, a handler is installed and rejects nothing; any other turn handles nothing and stays |
| `Listener.LoopAdvances` | swap/ethereum/listener.go:66-128 | n such turns handle exactly the next n blocks and leave the last of them as checkpoint |
| `Listener.StartAdvances` | swap/ethereum/listener.go:55-128 | from a start above zero the handled blocks after n such turns are exactly the n from the start on |
| `Listener.RestartAdvances` | swap/ethereum/listener.go:19-46 | after any run and a restart, n such turns leave handled every block from the start to n after the checkpoint and everything handled before |
| `Listener.UnsyncedWaits` | swap/ethereum/listener.go:97-101 | while the node has only the genesis block nothing reaches the handler |
| `Listener.FromZeroSkips` | swap/ethereum/listener.go:56-57 | starting from zero, which means the latest block, there is a run whose handled blocks are not a range at all: zero is saved again, and a restart jumps over blocks |
| `Listener.SafeIff` | swap/ethereum/listener.go:55-129 | all runs are safe exactly when the start block is not zero; from zero the handled range may begin anywhere |
| `Listener.FromZeroUnconfirmed` | swap/ethereum/listener.go:73-110 | starting from zero with confirmations asked for, the newest block of the chain is handled unconfirmed |
| `Listener.ConfirmedIff` | swap/ethereum/listener.go:73-112 | nothing unconfirmed is handled in any run exactly when the start block is not zero or no confirmations are asked for |
| `Listener.LoopedSafe` | swap/ethereum/listener.go:66-128 | what the loop leaves behind, crashed or not, is safe and fit to continue from |
| `Listener.EthereumListener.ProcessBlock` | swap/ethereum/listener.go:155-199 | the block reaches the handler, and the transaction loop delivers what the specification says |
| `Listener.EthereumListener.ProcessBlocks` | swap/ethereum/listener.go:66-128 | the log of requests, handler calls and finished blocks, written where they happen, is that of the specified turns until the loop is stopped or crashes on a missing current block |
| `Connections.RemoveInPlace` | ws/orders.go:36-40 | deleting while ranging over the same backing array, on a list without duplicates, never slices out of range and leaves the list without the client, in order |
| `Connections.ConnectionTable.RegisterConnection` | ws/orders.go:51-74 | registers a client once, keeps slices apart and free of duplicates |
| `Connections.ConnectionTable.Unsubscribe` | ws/orders.go:26-47 | removes exactly the client, and touches no other address |
| `Connections.ConnectionTable.IsClientConnected` | ws/main.go:3-13 | whether the client is in the address's list |
| `Connections.RunConnected` | ws/deposit.go:27-74 | after any events each list is free of duplicates and holds exactly the clients whose last event was a registration |
| `Subscriptions.OrderBookSocket.Subscribe` | ws/orderbook.go:36-53 | without a connection an error and no change, otherwise the index follows the history |
| `Subscriptions.OrderBookSocket.UnsubscribeChannel` | ws/orderbook.go:66-71 | takes one client off one channel |
| `Subscriptions.OrderBookSocket.Unsubscribe` | ws/orderbook.go:73-82 | takes the client off all channels and leaves every other client alone |
| `Subscriptions.OrderBookSocket.BroadcastMessage` | ws/orderbook.go:85-94 | reaches exactly, and once each, the clients whose last event for the channel is a subscription |
| `Dispatch.Operator.GetShortestQueue` | operator/operator.go:254-272 | the first of the shortest queues, or the dummy when none is shorter than 1000 |
| `Dispatch.Operator.QueueTrade` | operator/operator.go:225-251 | refused exactly when every queue holds more than ten, otherwise the first shortest grows by one |
| `Dispatch.RunBounded` | operator/operator.go:225-251 | over all enqueue and consume runs no queue exceeds eleven |
| `Dispatch.RunSpreads` | operator/operator.go:225-272 | with enqueues only, k <= 11n batches are all accepted and queue i holds k / n, plus one if i < k % n |

## Left out

- MongoDB, RabbitMQ, websocket, HTTP, Ethereum and Bitcoin clients: input and output; failures inside a match are not modelled, since the source has no transactions.
- Hashing, signatures, wallets and key derivation: foreign cryptography; hashes are identifiers.
- Journals.RunConservedIff: claims nothing for clients that claim a fill outside 0 to amount, which the service lets through.
- Resubmission.RunConsistentIff: the same, and amounts are positive, as order validation demands.
- Feed.RunUpToDate: assumes that every maker passes re-validation; `FeedGaps.SkippedBroadcast` says what happens otherwise. The client follows every pair.
- Solvency.RunSolvent: validation and matching are one step and funds never shrink; settlement of trades, which moves balances, is not modelled.
- Listener.RunSafe: chain heights leave room below 2^63, where the conversion of block numbers to int64 wraps, and the node answers a request for block n with block n.
- Resubmission.ConsistentIff: the order has a positive amount.
- ADD_ORDER messages: nothing publishes them; they add without matching or locking.
- Trade status updates during invalidation: they touch trade records only.
- JSON and BSON conversion of orders, trades and pairs: field copying.
- The other sockets (raw order book, trades, OHLCV): same shape as the order book socket.
- OHLCV aggregation, the price oracle, deposit association, account configuration and the Bitcoin listener.
- Concurrent access to slices and maps inside one websocket handler: each call is one step.
