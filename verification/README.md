# EasyTrade: models and proofs

EasyTrade is a demonstration trading platform made of small services. This project models the parts of it that carry state
or arithmetic worth proving something about, and proves properties of them in Dafny 4.11.

    dafny verify dfyconfig.toml

## What is modelled

- **The broker** (`BrokerTables`, `BrokerLedger`, `BrokerRuns`, `BrokerTheorems`, `BrokerSolvency`, `BrokerBatch`,
  `BrokerEffects`, `BrokerOrder`, `BrokerService`, `BrokerRequests`). The tables of balances, holdings, trades and balance
  history, and the requests that change them: deposit, withdrawal, quick buy and sell, long trades, and the batch that
  closes overdue trades and executes the open ones. The requests are methods over tracked objects that change in place,
  where the balance of a trader and that of the fee collecting owner may be one object. Each is proved equal to a function
  on the tables, and the theorems are about every run of those functions.
- **The credit card orders** (`CardOrders`, `CardOrderService`, `CardRequests`, `CardWorkflow`, `CardSchedulers`,
  `CardPasses`). The order service with its status history, the work scheduler, the manufacturer and the courier, at two
  grain sizes. With whole requests and whole passes as steps, every order's history strictly increases. With every remote
  call as a step of its own, it does so exactly when card_ordered is not recorded late; the theorems say what holds all
  the same, and a reachable state shows what late recording allows. The passes of the two schedulers are loops over
  mutable lists, proved to be series of those steps.
- **Prices** (`PriceCurve`, `PriceSeries`, `InstrumentListing`, `PriceFeed`, `PriceFeedRoundTrip`, `PriceFeedDates`). The
  daily curve and its minute candles, the table that is filled from them without gaps, the lookup of the latest prices and
  the join built on it, and the CSV message that one service prints and another reads.
- **Algorithms** (`Sampler`, `Timeframe`, `TradingHistory`, `TradingObjects`, `TradingEffects`, `Reconciler`, `FlagCache`,
  `SqlWriter`). A Fisher-Yates sampler and its fairness as a count of draws, slicing of periods with rounded division, the
  synthetic trading history, a reconciler with optimistic retries, a cache with expiry, and a writer of batched SQL
  statements.

Money, quantities and prices are exact reals; instants are whole numbers of the unit the code works in. Random draws, clock
readings, fresh ids, row orders of the database and the outcome of remote calls are inputs, constrained only by what their
source guarantees.

Where a natural claim turned out false of the code, the code was kept and the claim got its exact condition:

- A balance can go below zero, because neither the quick sell nor the long sell of the batch checks the fee. It happens
  exactly when a seller other than the owner has less than the fee, income included: `QuickOverdrawsIff`,
  `ProcessOverdrawsIff`, and for whole runs `RunStaysNonNegativeIff`. How far it can go is bounded by `RunsStaySolvent`.
- The order of the open trades can matter. Two adjacent trades of different accounts give the same outcome in both orders
  exactly when neither one's fee tips a due buy of the owner's: `SwapIff`. A whole batch is independent of the order
  exactly when none of the owner's decisions hangs on the others' fees, which the two extreme orders tell:
  `BatchIndependentIff`. That is so when no such buy is due, `BatchOrderIndependence`, and not so in
  `OwnerTradesDependOnOrder`.
- Status histories can descend, once. The call that does it is the recording of card_ordered when the current status is no
  longer order_created, and no other: `CallKeepsIncreasingIff`, `HistoryIncreasesUnlessOrderedLate`.
- A status can be recorded twice, exactly when it is recorded on both sides of card_ordered: `RecordedTwiceIff`,
  `ShipsAgainIff`, and for a reachable case `LateRecordingLetsACardShipTwice`.
- A candle that runs past midnight need not close on the next open: `CandlesJoinIff`, and `CandleCanMissTheNext` for an
  input.
- The catch-up loop of the price table stops an hour short when the start took 59 minutes or more, because it compares
  minutes of the hour: `InitializePricingData`, and `StartOfAnHourFallsBehind` for an input.
- The comment on equal slices holds up to rounding, and the last slice can be negative: `NoSliceIsNegativeIff`.
- A closing price reads back whatever the volume and the other prices, but not whatever the timestamp: a comma passes the
  consumer's check and shifts the fields. What each number of commas gives is `CommasShiftFields`, and the exact condition
  is `CloseReadsBackIff`. Not every printed row is kept either: one in universal time is, `DatedRowIsKept`, one with a
  positive offset is not, `OffsetRowIsDiscarded`. The timestamps of the price table are dates and have no comma, so
  nothing shifts there.

## Model

| member | source | states |
|---|---|---|
| `BrokerService.Balance.Deposit` | src/broker-service/BrokerService/src/Entities/Balances/Balance.cs:24-31 | a negative amount is an error and changes nothing, any other is added |
| `BrokerService.Balance.Withdraw` | src/broker-service/BrokerService/src/Entities/Balances/Balance.cs:33-46 | a negative amount or more than the value is an error and changes nothing, any other is taken |
| `BrokerService.DbContext.UpdateBalance` | src/broker-service/BrokerService/src/Entities/Trades/Service/TradeServiceBase.cs:67-93 | the tracked rows end as trade amount, fee charge and fee collection applied in that order, also when the trader is the owner and both names are one object |
| `BrokerService.DbContext.CollectFee` | src/broker-service/BrokerService/src/Entities/Trades/Service/TradeServiceBase.cs:95-105 | the owner gets the fee with a history row that starts from the value it had |
| `BrokerService.DbContext.UpdateOwnedInstrument` | src/broker-service/BrokerService/src/Entities/Trades/Service/TradeServiceBase.cs:29-65 | adds to the holding, creating the row when there is none |
| `BrokerService.DbContext.CloseTrade` | src/broker-service/BrokerService/src/Entities/Trades/Service/LongTradeService.cs:212-227 | sets the status, the outcome and the closed flag of one row and nothing else |
| `BrokerService.DbContext.ProcessLongBuy` | src/broker-service/BrokerService/src/Entities/Trades/Service/LongTradeService.cs:122-144 | leaves the trade waiting below the low, rejects it when cost and fee exceed the balance, otherwise settles and closes it |
| `BrokerService.DbContext.ProcessLongSell` | src/broker-service/BrokerService/src/Entities/Trades/Service/LongTradeService.cs:146-171 | leaves the trade waiting above the high, rejects it without enough holding, otherwise settles and closes it; the fee is not checked |
| `BrokerRequests.ModifyBalance` | src/broker-service/BrokerService/src/Entities/Balances/Service/BalanceService.cs:19-68 | a deposit or withdrawal ends in the tables of the specification or in its error with the tables unchanged, also when the save fails |
| `BrokerRequests.BuyAssets` | src/broker-service/BrokerService/src/Entities/Trades/Service/TradeService.cs:72-128 | a quick buy, with every error case in the order the code checks it; an error or failed save changes nothing |
| `BrokerRequests.SellAssets` | src/broker-service/BrokerService/src/Entities/Trades/Service/TradeService.cs:130-188 | a quick sell, with every error case in the order the code checks it; an error or failed save changes nothing |
| `BrokerRequests.CreateLongTransaction` | src/broker-service/BrokerService/src/Entities/Trades/Service/LongTradeService.cs:173-210 | adds one open trade with its closing time, or reports why not |
| `BrokerRequests.CloseOverdueTrades` | src/broker-service/BrokerService/src/Entities/Trades/Service/LongTradeService.cs:229-237 | closes exactly the open trades whose time is over, whatever the order of the rows |
| `BrokerRequests.QueryOpenTrades` | src/broker-service/BrokerService/src/Entities/Trades/Service/LongTradeService.cs:70-73 | the open trades in the order the database hands them out |
| `BrokerRequests.ProcessOpenTrade` | src/broker-service/BrokerService/src/Entities/Trades/Service/LongTradeService.cs:87-116 | one turn of the batch loop, chosen by direction |
| `BrokerRequests.ProcessOpenTrades` | src/broker-service/BrokerService/src/Entities/Trades/Service/LongTradeService.cs:83-117 | the in-place loop over tracked trades, balances and holdings equals the fold over the open trades, and stops where a lookup fails |
| `BrokerRequests.ProcessLongRunningTransactions` | src/broker-service/BrokerService/src/Entities/Trades/Service/LongTradeService.cs:62-120 | the whole batch in one transaction equals its specification, or changes nothing |
| `BrokerRequests.SaveChangesOrRollback` | src/broker-service/BrokerService/src/Entities/Trades/Service/TradeServiceBase.cs:107-121 | the tracked state becomes the stored state, or the stored state stays and an error comes back |
| `BrokerEffects.QuickBuySucceedsIff` | src/broker-service/BrokerService/src/Entities/Trades/Service/TradeService.cs:72-97 | a quick buy goes through exactly when the amount is not negative, account, instrument, price and product are there, and amount times open price plus the fee is covered |
| `BrokerEffects.QuickSellSucceedsIff` | src/broker-service/BrokerService/src/Entities/Trades/Service/TradeService.cs:130-156 | a quick sell goes through exactly when the amount is not negative, everything is there and the seller holds the amount; nothing is asked of the balance |
| `BrokerEffects.QuickRefusal` | src/broker-service/BrokerService/src/Entities/Trades/Service/TradeService.cs:82-97 | which error a quick trade is refused with, in the order of the checks |
| `BrokerEffects.QuickBuyEffect` | src/broker-service/BrokerService/src/Entities/Trades/Service/TradeService.cs:86-127 | after a quick buy: amount times open price and the fee less on the buyer, the fee more on account 1, the amount more held, one executed trade and three history rows, nobody else touched |
| `BrokerEffects.QuickSellEffect` | src/broker-service/BrokerService/src/Entities/Trades/Service/TradeService.cs:158-187 | after a quick sell: amount times open price more and the fee less on the seller, the fee more on account 1, the amount less held, one executed trade and three history rows |
| `BrokerEffects.CashEffect` | src/broker-service/BrokerService/src/Entities/Balances/Service/BalanceService.cs:19-68 | a deposit or withdrawal goes through exactly when the account exists, the amount is not negative and a withdrawal is covered; it moves one balance by the amount and leaves one row |
| `BrokerEffects.LongTradeIsAsAsked` | src/broker-service/BrokerService/src/Entities/Trades/Service/LongTradeService.cs:173-210 | a long trade is taken on exactly when nothing asked for is negative and account and instrument exist; one row is added, open, not executed, with the asked account, instrument, direction, quantity and price, closing that many hours of 3600 seconds from now |
| `BrokerEffects.SweepEffect` | src/broker-service/BrokerService/src/Entities/Trades/Service/LongTradeService.cs:229-237 | the sweep closes, as not happened, exactly the open trades whose closing time is over |
| `BrokerEffects.ProcessEffect` | src/broker-service/BrokerService/src/Entities/Trades/Service/LongTradeService.cs:87-171 | one trade of the batch: waits below the low or above the high, is closed without money when cost and fee or holding are not covered, and otherwise moves its quantity at quantity times entry price, with the fee |
| `BrokerEffects.AskedIsExecuted` | src/broker-service/BrokerService/src/Entities/Trades/Service/LongTradeService.cs:122-171 | when the batch executes a long trade as it was created, in whatever tables, it moves the quantity that was asked for at the price that was asked for |
| `BrokerLedger.FeesCancel` | src/broker-service/BrokerService/src/Entities/Trades/Service/TradeServiceBase.cs:82-104 | in a history where each trade row is followed by its fee charge and fee collection, all fee rows add up to zero |
| `BrokerLedger.QuickIsLedgerStep` | src/broker-service/BrokerService/src/Entities/Trades/Service/TradeService.cs:119-127 | an executed quick trade adds one trade row with its fee rows and leaves every offset between log and state as it was |
| `BrokerLedger.ExecuteIsLedgerStep` | src/broker-service/BrokerService/src/Entities/Trades/Service/LongTradeService.cs:140-143 | the same for an open trade that the batch executes |
| `BrokerLedger.RejectIsLedgerStep` | src/broker-service/BrokerService/src/Entities/Trades/Service/LongTradeService.cs:133-139 | a rejected trade moves neither money nor holdings and leaves no row |
| `BrokerTheorems.StateIsFoldOfLog` | src/broker-service/BrokerService/src/Entities/Trades/Service/TradeServiceBase.cs:29-105 | over every run: balance is start plus history changes, trade rows sum to plus or minus quantity times entry price of the executed trades, executed trades and trade rows are the same multiset, each trade row has exactly its two fee rows, holding is start plus bought minus sold |
| `BrokerTheorems.MoneyIsConserved` | src/broker-service/BrokerService/src/Entities/Trades/Service/TradeServiceBase.cs:82-104 | over every run the total money moves only by deposits, withdrawals and trade amounts |
| `BrokerTheorems.RunsStaySolvent` | src/broker-service/BrokerService/src/Entities/Trades/Service/TradeService.cs:91-98 | over every run no holding is negative and a balance is at least minus the fees of the account's own sells |
| `BrokerTheorems.NonSellersStayNonNegative` | src/broker-service/BrokerService/src/Entities/Trades/Service/LongTradeService.cs:132-139 | an account with no sell row never goes below zero |
| `BrokerTheorems.RunsKeepChain` | src/broker-service/BrokerService/src/Entities/Balances/Service/BalanceService.cs:28-52 | over every run each account's history rows link up and end in its balance, the owner's included |
| `BrokerTheorems.ChainJoinsRows` | src/broker-service/BrokerService/src/Entities/Trades/Service/TradeServiceBase.cs:82-90 | in a linked history, consecutive rows of an account join and the last gives its balance |
| `BrokerSolvency.SettlementOverdrawsIff` | src/broker-service/BrokerService/src/Entities/Trades/Service/TradeServiceBase.cs:82-104 | a settlement takes a balance that is not negative below zero exactly for a seller other than the owner whose balance and income are less than the fee; buyers, the owner and everybody else stay at or above zero |
| `BrokerSolvency.QuickOverdrawsIff` | src/broker-service/BrokerService/src/Entities/Trades/Service/TradeService.cs:72-184 | after a quick trade an account that was not below zero is below it exactly when it is a seller, not the owner, and balance and income are less than the fee |
| `BrokerSolvency.ProcessOverdrawsIff` | src/broker-service/BrokerService/src/Entities/Trades/Service/LongTradeService.cs:122-171 | the same for one trade of the batch: exactly when a long sell is executed, which does not check the fee either, and balance and income are less than the fee |
| `BrokerSolvency.RequestStaysNonNegativeIff` | src/broker-service/BrokerService/src/Entities/Trades/Service/LongTradeService.cs:62-171 | every state a request passes through, turn by turn for the batch, keeps all balances from going below zero exactly when no sell in it fails to earn its fee |
| `BrokerSolvency.RunStaysNonNegativeIff` | src/broker-service/BrokerService/src/Entities/Trades/Service/TradeServiceBase.cs:82-104 | over every run no balance is ever below zero if and only if no such sell is made |
| `BrokerSolvency.SellCanOverdraw` | src/broker-service/BrokerService/src/Entities/Trades/Service/TradeService.cs:153-184 | a quick sell after which the solvency bound is reached |
| `BrokerSolvency.LongSellCanOverdraw` | src/broker-service/BrokerService/src/Entities/Trades/Service/LongTradeService.cs:146-171 | a long sell of the batch that ends below zero |
| `BrokerBatch.BatchDecidesEveryTrade` | src/broker-service/BrokerService/src/Entities/Trades/Service/LongTradeService.cs:62-120 | the row of every trade after the batch: open exactly when it was open, not overdue and still waiting for its price; closed ones unchanged, overdue ones closed without an execution |
| `BrokerBatch.BatchFailsIff` | src/broker-service/BrokerService/src/Entities/Trades/Service/LongTradeService.cs:87-89 | the batch fails exactly when an open trade that is not overdue lacks its instrument, price or product |
| `BrokerBatch.ClosedTradesNeverChange` | src/broker-service/BrokerService/src/Entities/Trades/Service/LongTradeService.cs:70-73 | no run of requests changes a closed trade |
| `BrokerBatch.OnlyDueTradesExecute` | src/broker-service/BrokerService/src/Entities/Trades/Service/LongTradeService.cs:62-171 | a trade the batch executes was open, not overdue and within reach of its price |
| `BrokerBatch.BatchRowsAreExecutions` | src/broker-service/BrokerService/src/Entities/Trades/Service/LongTradeService.cs:62-171 | the new history rows of a successful batch are the newly executed trades by account, direction and signed amount, as a multiset, each followed by its fee rows: overdue, waiting, rejected and closed trades move no money |
| `BrokerBatch.BatchSparesAccount` | src/broker-service/BrokerService/src/Entities/Trades/Service/LongTradeService.cs:62-171 | an account other than the owner of whose trades none is executed keeps its balance, its holdings and its rows |
| `BrokerOrder.TipsMeans` | src/broker-service/BrokerService/src/Entities/Trades/Service/LongTradeService.cs:129-139 | one trade tips another exactly when that one is a buy of the owner's within reach of its price, the first one is executed, and its fee is what the owner's balance lacks |
| `BrokerOrder.ProcessesCommute` | src/broker-service/BrokerService/src/Entities/Trades/Service/LongTradeService.cs:83-117 | two open trades of different accounts, the owner included, give the same outcome in both orders when neither tips the other |
| `BrokerOrder.SwapIff` | src/broker-service/BrokerService/src/Entities/Trades/Service/TradeServiceBase.cs:95-105 | two open trades of different accounts give the same outcome in both orders if and only if neither tips the other |
| `BrokerOrder.BatchOrderIndependence` | src/broker-service/BrokerService/src/Entities/Trades/Service/LongTradeService.cs:83-171 | any two orders that keep each account's own trades in order give the same balances, holdings, trades and per-account histories, when no trade open after the sweep is a buy of the owner's within reach of its price |
| `BrokerOrder.BatchIndependentIff` | src/broker-service/BrokerService/src/Entities/Trades/Service/LongTradeService.cs:83-171 | a whole batch has the same result in every order that keeps each account's own trades in order if and only if it has it in the two extreme orders, all the owner's trades first or all last; and that is so exactly when each due buy of the owner's can be paid without the fees of the others' trades or not even with all of them |
| `BrokerOrder.OwnerTradesDependOnOrder` | src/broker-service/BrokerService/src/Entities/Trades/Service/TradeServiceBase.cs:95-105 | with a due buy of the owner's, two orders of a whole batch give different outcomes |
| `Sampler.SampleArray` | src/offerservice/src/utils.ts:4-14 | the in-place loop over the copy is the shuffle of the source by its draws, cut or padded to the size; a size that is negative or 2^32 and more is an error |
| `Sampler.ShufflePermutes` | src/offerservice/src/utils.ts:6-11 | the shuffle has the elements of the array |
| `Sampler.ShuffleOfDraws` | src/offerservice/src/utils.ts:6-11 | every permutation is produced by some draws |
| `Sampler.DrawsOfShuffle` | src/offerservice/src/utils.ts:6-11 | the draws can be read back from the permutation, so no others produce it |
| `Sampler.AllDrawsSize` | src/offerservice/src/utils.ts:7 | there are n! runs of draws |
| `Sampler.EverySampleIsEquallyLikely` | src/offerservice/src/utils.ts:4-14 | every ordered sample of k distinct elements out of n arises from exactly (n - k)! of the n! runs of draws |
| `Sampler.SampleIsDrawnWithoutRepetition` | src/offerservice/src/utils.ts:4-14 | the sample has the asked size, repeats nothing, and is filled with holes exactly when the size exceeds the array |
| `CardOrderService.DatabaseHelper.GetOrderIdsWithStatusOrderCreated` | src/credit-card-order-service/src/main/java/com/dynatrace/easytrade/creditcardorderservice/DatabaseHelper.java:134-148 | the loop collects the orders whose row with the highest id is the creation |
| `CardOrderService.DatabaseHelper.GetOrderCountForAccountId` | src/credit-card-order-service/src/main/java/com/dynatrace/easytrade/creditcardorderservice/DatabaseHelper.java:82-90 | the count is zero exactly when the account has no order |
| `CardOrderService.DatabaseHelper.InsertNewStatus` | src/credit-card-order-service/src/main/java/com/dynatrace/easytrade/creditcardorderservice/DatabaseHelper.java:166-178 | appends one row with the next id and instant |
| `CardOrderService.DatabaseHelper.UpdateOrder` | src/credit-card-order-service/src/main/java/com/dynatrace/easytrade/creditcardorderservice/DatabaseHelper.java:193-201 | sets the shipping id of the order if it exists |
| `CardOrderService.DatabaseHelper.DeleteOrderForAccountId` | src/credit-card-order-service/src/main/java/com/dynatrace/easytrade/creditcardorderservice/DatabaseHelper.java:223-227 | removes statuses, cards and orders of the account in that order |
| `CardOrderService.OrderController.CreateCreditCardOrder` | src/credit-card-order-service/src/main/java/com/dynatrace/easytrade/creditcardorderservice/OrderController.java:55-73 | an account with an order is refused, any other gets an order and its first status |
| `CardOrderService.OrderController.UpdateStatus` | src/credit-card-order-service/src/main/java/com/dynatrace/easytrade/creditcardorderservice/OrderController.java:186-205 | the request handler: id mismatch and missing status are refused, the rest goes to the sequence check |
| `CardOrderService.OrderController.ActOnNewStatus` | src/credit-card-order-service/src/main/java/com/dynatrace/easytrade/creditcardorderservice/OrderController.java:207-253 | the sequence check and the switch over the new status, with the failing conversions of its details |
| `CardOrderService.WorkScheduler.Run` | src/credit-card-order-service/src/main/java/com/dynatrace/easytrade/creditcardorderservice/WorkScheduler.java:34-62 | one pass: each listed order is recorded as ordered when the manufacturer accepts it; an exception ends the pass |
| `CardOrders.LatestIsLast` | src/credit-card-order-service/src/main/java/com/dynatrace/easytrade/creditcardorderservice/DatabaseHelper.java:24 | the query by instant and the query by id find the same row, the last of the order's history |
| `CardOrders.LastOrderStatusIsLast` | src/credit-card-order-service/src/main/java/com/dynatrace/easytrade/creditcardorderservice/DatabaseHelper.java:121-132 | the current status is the last entry of the order's history |
| `CardOrders.HandleAcceptsIff` | src/credit-card-order-service/src/main/java/com/dynatrace/easytrade/creditcardorderservice/OrderController.java:186-253 | a status request is accepted exactly when ids agree, the status comes later in the sequence and can be requested with its details; otherwise nothing changes |
| `CardOrders.CreateKeepsInv` | src/credit-card-order-service/src/main/java/com/dynatrace/easytrade/creditcardorderservice/OrderController.java:57-65 | creation gives the order a proper first entry and keeps one order per account |
| `CardOrders.DeleteIsExact` | src/credit-card-order-service/src/main/java/com/dynatrace/easytrade/creditcardorderservice/DatabaseHelper.java:223-227 | deletion takes one account's order with all its rows and leaves every other order as it was |
| `CardOrders.JustCreatedIff` | src/credit-card-order-service/src/main/java/com/dynatrace/easytrade/creditcardorderservice/DatabaseHelper.java:134-148 | a pass works on exactly the orders whose history is the creation alone, each once |
| `CardOrders.DispatchHistory` | src/credit-card-order-service/src/main/java/com/dynatrace/easytrade/creditcardorderservice/WorkScheduler.java:38-59 | a pass appends card_ordered to the orders accepted before any exception, once, and changes no other history |
| `CardOrders.EveryOrderHasOneLife` | src/credit-card-order-service/src/main/java/com/dynatrace/easytrade/creditcardorderservice/models/StatusType.java:7-13 | over every run of requests, passes and deletions: histories start at order_created and strictly increase, card rows equal card_created entries and are at most one, the shipping id is set exactly when card_shipped is recorded, no row outlives its order, one order per account |
| `CardRequests.SequenceFollowsLife` | src/credit-card-order-service/src/main/java/com/dynatrace/easytrade/creditcardorderservice/models/StatusType.java:7-13 | the sequence numbers order the statuses as created, ordered, error, card created, shipped, delivered, with the sequence error last |
| `CardRequests.WholeLifeIsAccepted` | src/credit-card-order-service/src/main/java/com/dynatrace/easytrade/creditcardorderservice/OrderController.java:207-253 | a new order can be reported as ordered, created, shipped and delivered in this order, each accepted |
| `CardRequests.DeliveryIsTheEnd` | src/credit-card-order-service/src/main/java/com/dynatrace/easytrade/creditcardorderservice/OrderController.java:215-221 | after the delivery no request is accepted and nothing changes |
| `CardRequests.HandleRefusal` | src/credit-card-order-service/src/main/java/com/dynatrace/easytrade/creditcardorderservice/OrderController.java:186-253 | which refusal is the caller's fault and which an error of the service |
| `CardRequests.CreateIsExact` | src/credit-card-order-service/src/main/java/com/dynatrace/easytrade/creditcardorderservice/OrderController.java:55-73 | an account without an order gets one without a shipping id, with the creation as its one status; any other is refused and nothing changes |
| `CardRequests.ShippingIdIsLastShipped` | src/credit-card-order-service/src/main/java/com/dynatrace/easytrade/creditcardorderservice/DatabaseHelper.java:193-201 | over every run: the shipping id of an order is the one in its last accepted shipment |
| `CardWorkflow.EachOrderIsMadeOnce` | src/credit-card-order-service/src/main/java/com/dynatrace/easytrade/creditcardorderservice/WorkScheduler.java:34-59 | for every interleaving of the remote calls: no order is dispatched twice, none is reported as created twice, none is reported without a dispatch |
| `CardWorkflow.ShippedOrdersHaveOneCard` | src/third-party-service/src/main/java/com/dynatrace/easytrade/thirdpartyservice/ManufactureScheduler.java:97-104 | for every interleaving: an existing order has one card row exactly when its creation was reported, and exactly one once it is recorded as shipped or delivered |
| `CardWorkflow.HistoryIncreasesUnlessOrderedLate` | src/credit-card-order-service/src/main/java/com/dynatrace/easytrade/creditcardorderservice/WorkScheduler.java:52-54 | for every interleaving: the only possible descent of a history is its one card_ordered entry, and it strictly increases exactly when that entry, if there, directly follows the creation |
| `CardWorkflow.CallKeepsIncreasingIff` | src/credit-card-order-service/src/main/java/com/dynatrace/easytrade/creditcardorderservice/WorkScheduler.java:52-54 | in every reachable state, every call keeps an increasing history increasing except the one that records card_ordered when the current status is no longer order_created |
| `CardWorkflow.RecordedTwiceIff` | src/credit-card-order-service/src/main/java/com/dynatrace/easytrade/creditcardorderservice/OrderController.java:207-221 | for every interleaving and every status: recorded at most twice, and twice exactly when recorded both before and after card_ordered |
| `CardWorkflow.ShipsAgainIff` | src/credit-card-order-service/src/main/java/com/dynatrace/easytrade/creditcardorderservice/OrderController.java:215-221 | in every reachable state, reporting a shipment records it once more exactly when one is recorded and the current status has fallen behind it |
| `CardWorkflow.WholePassIsReachable` | src/credit-card-order-service/src/main/java/com/dynatrace/easytrade/creditcardorderservice/WorkScheduler.java:34-62 | a whole pass without interference, as the coarse grain has it, is one of the interleavings of the remote calls |
| `CardWorkflow.LateRecordingLetsACardShipTwice` | src/credit-card-order-service/src/main/java/com/dynatrace/easytrade/creditcardorderservice/WorkScheduler.java:54 | a reachable state in which card_ordered, recorded late, let a doubly handed over card be recorded as shipped twice |
| `CardSchedulers.ManufactureScheduler.ProcessIssueAndErrorStatus` | src/third-party-service/src/main/java/com/dynatrace/easytrade/thirdpartyservice/ManufactureScheduler.java:75-105 | one process: crisis, delay or success, with the process status and the report to the order service |
| `CardSchedulers.ManufactureScheduler.Run` | src/third-party-service/src/main/java/com/dynatrace/easytrade/thirdpartyservice/ManufactureScheduler.java:31-61 | the pass over the mutable list equals the pass on values, complete or interrupted at any process or just before the removals: handovers happen at once, removals only at the end |
| `CardSchedulers.ManufacturePassIsReachable` | src/third-party-service/src/main/java/com/dynatrace/easytrade/thirdpartyservice/ManufactureScheduler.java:35-52 | a pass, complete or interrupted anywhere up to its removals, is a series of the workflow's calls, so what holds of every interleaving holds of it |
| `CardPasses.ManufacturePassVisits` | src/third-party-service/src/main/java/com/dynatrace/easytrade/thirdpartyservice/ManufactureScheduler.java:31-105 | one pass from any reachable state, process by process: success makes the card, reports it and tells of the creation; a delay is an error that is told; a crisis is told only once; made cards become parcels in order; only a complete pass removes them, and the list is exactly what is left |
| `CardPasses.MadeCardsAreHandedOver` | src/third-party-service/src/main/java/com/dynatrace/easytrade/thirdpartyservice/ManufactureScheduler.java:45-56 | a made card becomes exactly one new parcel, and leaves the list in a complete pass |
| `CardSchedulers.CourierScheduler.ProcessNewCardReceivedStatus` | src/third-party-service/src/main/java/com/dynatrace/easytrade/thirdpartyservice/CourierScheduler.java:60-75 | without an address nothing happens, otherwise the parcel is sent and its shipping id reported |
| `CardSchedulers.CourierScheduler.ProcessCardSentStatus` | src/third-party-service/src/main/java/com/dynatrace/easytrade/thirdpartyservice/CourierScheduler.java:77-83 | the parcel is delivered and reported |
| `CardSchedulers.CourierScheduler.Run` | src/third-party-service/src/main/java/com/dynatrace/easytrade/thirdpartyservice/CourierScheduler.java:26-58 | the pass over the mutable list equals the pass on values, complete or interrupted at any parcel or just before the removals |
| `CardSchedulers.CourierPassIsReachable` | src/third-party-service/src/main/java/com/dynatrace/easytrade/thirdpartyservice/CourierScheduler.java:30-49 | a pass, complete or interrupted anywhere up to its removals, is a series of the workflow's calls |
| `CardPasses.CourierPassCarries` | src/third-party-service/src/main/java/com/dynatrace/easytrade/thirdpartyservice/CourierScheduler.java:26-83 | one pass from any reachable state: a new parcel is sent and its shipment told when the order is still there, a sent one is delivered and told, each told status recorded when it can follow; only a complete pass removes the delivered, and the list is exactly what is left |
| `PriceFeed.PrepareCSV` | src/pricing-service/price/controller.go:84-93 | the message is the title line followed by one printed row per price, in order |
| `PriceFeed.ValidateString` | src/calculationservice/consume.cpp:26-33 | true exactly when every character is alphanumeric or one of - : . , |
| `PriceFeed.InputStream.Getline` | src/calculationservice/consume.cpp:56-72 | a read up to a delimiter: what it yields, what is left, when it fails, and that an ended stream leaves its target as it was |
| `PriceFeed.ReadClosePart` | src/calculationservice/consume.cpp:67-72 | what five reads of a line leave in the target |
| `PriceFeed.ReadLine` | src/calculationservice/consume.cpp:58-80 | the value a line contributes, or nothing when it is discarded |
| `PriceFeed.ReceiveMessage` | src/calculationservice/consume.cpp:35-82 | parsed and discarded lines are counts over the message's lines after the first, the average is the sum of the kept closing prices over their number, or zero |
| `PriceFeedRoundTrip.PrintedPriceReads` | src/pricing-service/price/price.go:25-27 | a printed price reads back exactly, with its sign and six decimals |
| `PriceFeedRoundTrip.LineReadsBack` | src/pricing-service/price/price.go:25-27 | a row whose timestamp has no comma yields its own closing price and is kept exactly when the timestamp's characters are accepted |
| `PriceFeedRoundTrip.CommasShiftFields` | src/calculationservice/consume.cpp:67-72 | for every timestamp, by its number of commas: none leaves the close in the fifth field, one the low, two the high, three the open, more a piece of the timestamp |
| `PriceFeedRoundTrip.CloseReadsBackIff` | src/calculationservice/consume.cpp:67-80 | a row reads back its closing price if and only if its timestamp has no comma or the field that takes its place reads as the same number |
| `PriceFeedRoundTrip.LinesOfMessage` | src/pricing-service/price/controller.go:84-93 | the consumer sees exactly the printed rows, one line each |
| `PriceFeedRoundTrip.MessageReadsBack` | src/calculationservice/consume.cpp:48-82 | for every list whose timestamps hold no separator: every closing price reads back, and exactly the rows with unaccepted characters are discarded |
| `PriceFeedRoundTrip.MessageFields` | src/calculationservice/consume.cpp:48-72 | for every list whose timestamps hold no line break: one line per price, each with the field that its commas move into place |
| `PriceFeedRoundTrip.FeedIsExact` | src/calculationservice/consume.cpp:82 | printing and reading a list with accepted timestamps discards nothing and gives the mean of the closing prices, zero for the empty list |
| `PriceFeedDates.DatedRowIsKept` | src/calculationservice/consume.cpp:26-33 | a row whose timestamp is a date and a time in universal time, with or without a fraction, is kept and its closing price reads back |
| `PriceFeedDates.DatedFeedIsExact` | src/calculationservice/consume.cpp:35-82 | printing and reading a list of such rows discards nothing and gives the mean of the closing prices |
| `PriceFeedDates.KeptIff` | src/calculationservice/consume.cpp:26-33 | a line is kept exactly when it consists of digits, letters and the four separators and its closing price is a number |
| `PriceFeedDates.ForeignCharacterDiscards` | src/calculationservice/consume.cpp:26-33 | a line with any character that is no digit, no letter and none of the four separators is discarded |
| `PriceFeedDates.OffsetRowIsDiscarded` | src/calculationservice/consume.cpp:26-33 | a row whose timestamp has a positive offset from universal time is discarded |
| `PriceCurve.CurveIsLinearOnSections` | src/contentcreator/src/main/java/com/dynatrace/easytrade/contentcreator/PricingDataGenerator.java:69-114 | on each closed three-hour section the curve is the line between its two corners, so it has no jump |
| `PriceCurve.CurveStaysBetweenKnots` | src/contentcreator/src/main/java/com/dynatrace/easytrade/contentcreator/PricingDataGenerator.java:69-114 | the curve stays between the two corners around it |
| `PriceCurve.CurveIsContinuous` | src/contentcreator/src/main/java/com/dynatrace/easytrade/contentcreator/PricingDataGenerator.java:111-113 | over the whole day two instants are never further apart in price than the steepest section allows |
| `PriceCurve.GenerateCandleData` | src/contentcreator/src/main/java/com/dynatrace/easytrade/contentcreator/PricingDataGenerator.java:44-67 | opens and closes on the curve; high and low are the extremes of sixty samples, the open and the close |
| `PriceCurve.CandleShape` | src/contentcreator/src/main/java/com/dynatrace/easytrade/contentcreator/PricingDataGenerator.java:48-66 | low is at most and high at least open and close; no price is further than twice the spread from the open, except a close that falls by more |
| `PriceCurve.SampleGrows` | src/contentcreator/src/main/java/com/dynatrace/easytrade/contentcreator/PricingDataGenerator.java:54-56 | a sample grows strictly with its draw, from two spreads below the opening price to two above it |
| `PriceCurve.CandlesJoinIff` | src/contentcreator/src/main/java/com/dynatrace/easytrade/contentcreator/PricingDataGenerator.java:45-46 | close and next open agree exactly when the candle does not run past midnight or the curve is straight there |
| `PriceCurve.CandleCanMissTheNext` | src/contentcreator/src/main/java/com/dynatrace/easytrade/contentcreator/PricingDataGenerator.java:44-67 | a candle that starts half a minute before midnight and closes below the open of the next |
| `PriceCurve.GenerateMassivePricingData` | src/contentcreator/src/main/java/com/dynatrace/easytrade/contentcreator/PricingDataGenerator.java:17-35 | one candle per minute from the start, each the candle of its second of the day |
| `PriceCurve.SeriesJoinsIff` | src/contentcreator/src/main/java/com/dynatrace/easytrade/contentcreator/PricingDataGenerator.java:25-32 | neighbouring candles of a series join under that exact condition, and always when the series starts on a full minute |
| `PriceSeries.SQLDatabaseConnector.InsertBatchData` | src/contentcreator/src/main/java/com/dynatrace/easytrade/contentcreator/SQLDatabaseConnector.java:95-113 | the table receives all rows in order, whatever the size of the batches, and the last batch is flushed |
| `PriceSeries.InitializePricingData` | src/contentcreator/src/main/java/com/dynatrace/easytrade/contentcreator/ContentCreator.java:50-77 | after start-up the table has one candle per instrument for every minute; the catch-up adds at most 59 minutes and reaches the current minute exactly when the start took fewer than 59 |
| `PriceSeries.StartOfAnHourFallsBehind` | src/contentcreator/src/main/java/com/dynatrace/easytrade/contentcreator/ContentCreator.java:65-76 | a start that takes exactly an hour leaves the calendar an hour behind |
| `PriceSeries.GeneratePricingData` | src/contentcreator/src/main/java/com/dynatrace/easytrade/contentcreator/ContentCreator.java:79-98 | after any number of rounds with their daily cleanups the table is still free of gaps up to the calendar's minute, its rows stay on their own instruments' curves, no minute within a day of every cleanup is lost, and it is empty exactly right after a cleanup that finds even the last minute older than a day |
| `PriceSeries.InsertMinute` | src/contentcreator/src/main/java/com/dynatrace/easytrade/contentcreator/ContentCreator.java:119-124 | one more minute keeps the table free of gaps and its rows on their own instruments' curves |
| `PriceSeries.GenerateForAll` | src/contentcreator/src/main/java/com/dynatrace/easytrade/contentcreator/ContentCreator.java:224-228 | one series per instrument over the same minutes, every row the candle of its own instrument at its timestamp |
| `PriceSeries.CleanupKeepsSeries` | src/contentcreator/src/main/java/com/dynatrace/easytrade/contentcreator/ContentCreator.java:126-132 | deleting the rows before a date leaves a gap-free series from the first minute that is not older |
| `PriceSeries.LatestPricesAreOnePerInstrument` | src/pricing-service/price/controller.go:28 | in a gap-free table the rows with the maximum timestamp are exactly one per instrument, all of the last minute |
| `PriceSeries.LatestPriceIsOnCurve` | src/pricing-service/price/controller.go:28 | the latest price of an instrument opens and closes on that instrument's own curve at the last minute |
| `InstrumentListing.ToDictionary` | src/broker-service/BrokerService/src/Entities/Instruments/Service/InstrumentService.cs:35-44 | fails exactly when a key repeats, otherwise maps every key to its row |
| `InstrumentListing.GetInstruments` | src/broker-service/BrokerService/src/Entities/Instruments/Service/InstrumentService.cs:22-73 | fails exactly when a dictionary has a repeated key, otherwise lists the instruments that have a product and a price, in order |
| `InstrumentListing.ListedIff` | src/broker-service/BrokerService/src/Entities/Instruments/Service/InstrumentService.cs:47-67 | whatever the tables hold, an instrument is listed exactly when it is there and has a product and a price |
| `InstrumentListing.ListIsComplete` | src/broker-service/BrokerService/src/Entities/Instruments/Service/InstrumentService.cs:38-66 | from one price row per instrument, every instrument with a product is listed once, in order, with its own price and the account's holding of it |
| `InstrumentListing.ListFromGapFreeTable` | src/broker-service/BrokerService/src/Entities/Instruments/Service/InstrumentService.cs:38-66 | from a gap-free, non-empty price table the latest prices have no key twice, and the list has one row per instrument, in order, with its own price of the last minute and the account's holding of it |
| `InstrumentListing.ListedPricesAreOnCurves` | src/broker-service/BrokerService/src/Entities/Instruments/Service/InstrumentService.cs:38-66 | the price listed beside an instrument opens and closes on its own curve at the last minute |
| `Timeframe.RoundsToNearestEven` | src/db/user-generator/user_generator/timeframe.py:25 | the interval is the quotient rounded to the nearest microsecond, halves to the even one, and nothing else |
| `Timeframe.SlicesCoverThePeriod` | src/db/user-generator/user_generator/timeframe.py:21-27 | slices follow each other from start to end, all but the last are equal, and the last differs by at most half the number of parts |
| `Timeframe.NoSliceIsNegativeIff` | src/db/user-generator/user_generator/timeframe.py:25-27 | no slice is negative exactly when the period is not negative and the rounded division leaves enough for the last one |
| `Timeframe.LongEnough` | src/db/user-generator/user_generator/timeframe.py:25-27 | a period of at least parts * (parts - 1) / 2 microseconds has no negative slice |
| `Timeframe.ShortPeriodHasNegativeSlice` | src/db/user-generator/user_generator/timeframe.py:25-27 | three microseconds in five parts end in a negative slice |
| `Timeframe.IntervalsFit` | src/db/user-generator/user_generator/timeframe.py:29-35 | whole intervals follow each other inside the period and less than one is left over |
| `Timeframe.TimestampsNeverGoBack` | src/db/user-generator/user_generator/action_generator.py:91-109 | timestamps drawn in the slices of all days never decrease, stay in the period and are as many as days times actions |
| `TradingObjects.Balance.RemoveFunds` | src/db/user-generator/user_generator/balance.py:88-99 | takes a positive amount that is covered and writes its entry, otherwise changes nothing |
| `TradingObjects.Balance.AddFunds` | src/db/user-generator/user_generator/balance.py:101-108 | adds an amount that is not negative and writes its entry, otherwise changes nothing |
| `TradingObjects.Balance.Act` | src/db/user-generator/user_generator/balance.py:71-86 | each kind of action adds or removes |
| `TradingObjects.BalanceHistory.NewEntry` | src/db/user-generator/user_generator/balance.py:45-62 | appends an entry with the next id |
| `TradingObjects.TradeHistory.NewEntry` | src/db/user-generator/user_generator/trades.py:58-85 | appends an entry with the next id |
| `TradingObjects.OwnedInstrument.Modify` | src/db/user-generator/user_generator/instruments.py:165-167 | adds to the quantity and notes the date |
| `TradingObjects.Account.Buy` | src/db/user-generator/user_generator/accounts.py:65-72 | refuses what the balance cannot pay; otherwise the holding grows even if no money was taken |
| `TradingObjects.Account.Sell` | src/db/user-generator/user_generator/accounts.py:74-81 | refuses what is not held; otherwise the holding shrinks and the money comes in |
| `TradingObjects.Account.LeastHeldInstrument` | src/db/user-generator/user_generator/accounts.py:91-97 | the first of the instruments held least |
| `TradingObjects.TradeManager.Trade` | src/db/user-generator/user_generator/trades.py:95-136 | a refused trade leaves no entry, any other leaves one |
| `TradingObjects.ActionGenerator.GenerateAction` | src/db/user-generator/user_generator/action_generator.py:111-139 | the branches by balance and by held quantity |
| `TradingObjects.ActionGenerator.MakeHistory` | src/db/user-generator/user_generator/action_generator.py:141-147 | a whole generated history keeps the books and touches no other account's entries |
| `TradingEffects.FundsEffect` | src/db/user-generator/user_generator/balance.py:88-108 | when money is taken or given, what entry it leaves, and that a refusal leaves none |
| `TradingEffects.TradeEffect` | src/db/user-generator/user_generator/trades.py:95-136 | a trade to fail leaves only its entry; one to succeed is refused without a trace or moves quantity and money together at quantity times unit price |
| `TradingEffects.ActionEffect` | src/db/user-generator/user_generator/action_generator.py:111-139 | below three tenths of the reference the balance is filled up to it, above twice the reference half is withdrawn, in between the least held instrument is bought below five hundred and sold above |
| `TradingEffects.PurchaseShare` | src/db/user-generator/user_generator/action_generator.py:48-54 | the share of the balance that a purchase may spend is between three and seven tenths |
| `TradingEffects.SaleShare` | src/db/user-generator/user_generator/action_generator.py:68-74 | a sale is the whole part of a share between three and six tenths of the holding |
| `TradingEffects.IdsStartAtOne` | src/db/user-generator/user_generator/balance.py:45-62 | over every run from fresh accounts the entries of both histories are numbered from one |
| `TradingHistory.PurchaseIsAffordable` | src/db/user-generator/user_generator/action_generator.py:51-54 | a generated purchase is never more than the balance can pay |
| `TradingHistory.SaleIsCovered` | src/db/user-generator/user_generator/action_generator.py:72-74 | a generated sale is never more than is held |
| `TradingHistory.ActionKeepsBooks` | src/db/user-generator/user_generator/action_generator.py:111-139 | every action keeps the books, and an action that trades adds exactly one trade entry: none is dropped |
| `TradingHistory.OthersStillReconcile` | src/db/user-generator/user_generator/balance.py:45-62 | an account that did not act reconciles with the longer shared histories too |
| `TradingHistory.HistoryReconciles` | src/db/user-generator/user_generator/action_generator.py:141-147 | over every run from fresh accounts: ids are consecutive, entries chain, nothing is negative, balances are sums of entries and holdings nets of successful trades |
| `Reconciler.Object.SetFlagAnnotation` | src/problem-operator/operator/annotations.go:50-52 | writes one annotation, making the map when there is none |
| `Reconciler.Object.GetFlagAnnotation` | src/problem-operator/operator/annotations.go:54-67 | on only when it says so; a missing annotation is written down as off |
| `Reconciler.Object.GetObjectState` | src/problem-operator/operator/annotations.go:36-48 | apply, roll back or nothing, by comparing flag and annotation |
| `Reconciler.Operator.TryOnce` | src/problem-operator/operator/operator.go:136-182 | one attempt against the stored object, with every way it can fail |
| `Reconciler.Operator.ProcessController` | src/problem-operator/operator/operator.go:135-183 | up to five attempts, the next only after a conflict |
| `Reconciler.PassCommitsOrNot` | src/problem-operator/operator/operator.go:135-183 | success leaves the annotation equal to the flag, failure leaves the flag's annotation and changes as they were |
| `Reconciler.PassSucceedsIff` | src/problem-operator/operator/operator.go:135-183 | a pass succeeds exactly when one of its attempts meets no obstacle and all before it met a conflict |
| `Reconciler.RunsStayInStep` | src/problem-operator/operator/operator.go:153-170 | over any run of flag flips, passes and writes of others, the object carries the change once when its annotation is on and not at all otherwise |
| `Reconciler.OtherWriterMeansRetry` | src/problem-operator/operator/operator.go:135-183 | an update refused because somebody else wrote in between is tried again on what they wrote |
| `Reconciler.UndisturbedAttemptSucceeds` | src/problem-operator/operator/operator.go:135-183 | a pass gets through at the first attempt in which nobody writes in between, with the annotation the flag asks for and one change or rollback when it was due |
| `Reconciler.HardErrorsEndThePass` | src/problem-operator/operator/operator.go:137-145 | a context that is over and a fetch that fails without a conflict end the pass at once |
| `Reconciler.FirstPassChangesOnce` | src/problem-operator/operator/operator.go:153-181 | an object that was never touched gets one write, one change and its annotation |
| `Reconciler.PassSparesOtherFlags` | src/problem-operator/operator/annotations.go:69-71 | a pass for one flag touches neither the annotation nor the changes of another |
| `Reconciler.AllFlagsStayInStep` | src/problem-operator/operator/operator.go:110-133 | the controllers of all flags take turns on one object and every flag's change stays in step with its annotation |
| `FlagCache.PluginManager.GetPluginState` | src/broker-service/BrokerService/src/ProblemPatterns/OpenFeature/PluginManager.cs:19-29 | answers from the cache while the entry lasts, otherwise asks and stores until now plus the duration |
| `FlagCache.PluginManager.Serve` | src/broker-service/BrokerService/src/ProblemPatterns/OpenFeature/PluginManager.cs:19-29 | a run of lookups on a fresh cache gives the specified answers |
| `FlagCache.AnswersAreFresh` | src/broker-service/BrokerService/src/ProblemPatterns/OpenFeature/PluginManager.cs:22-28 | every answer is one the source gave for that name now or less than the duration ago |
| `FlagCache.AsksIff` | src/broker-service/BrokerService/src/ProblemPatterns/OpenFeature/PluginManager.cs:22-27 | the source is asked exactly when it was not asked for that name within the duration |
| `FlagCache.UnconfiguredAsksOncePerMinute` | src/broker-service/BrokerService/src/ProblemPatterns/OpenFeature/PluginManager.cs:12-17 | without a configured duration the source is asked exactly when it was not asked for that name within a minute |
| `SqlWriter.SaveSqlFile` | src/db/user-generator/user_generator/utils.py:25-49 | the loop writes the create script, one statement per thousand rows and the batch end |
| `SqlWriter.StatementsParse` | src/db/user-generator/user_generator/utils.py:37-46 | the statements are well formed and read back as the chunks of the input |
| `SqlWriter.ChunksPartition` | src/db/user-generator/user_generator/utils.py:37-46 | the chunks are the input in order, ceil(n / 1000) of them, each with 1 to 1000 rows and all but the last full |
| `SqlWriter.FileReadsBack` | src/db/user-generator/user_generator/utils.py:25-49 | the whole file has its frame, its statements parse, and its rows are exactly the input |

## Left out

- BrokerOrder.BatchIndependentIff: for fees that are not negative, as in all the requests of the model. With fees of both signs the two orders compared are no longer the extreme ones.
- BrokerRequests.ProcessLongRunningTransactions: a save that fails between two trades of the batch is not told apart from one that fails at its end; both leave the database as it was.
- PriceFeed.ReadLine: reads the same numbers as ReceiveMessage.
- PriceFeed.ReceiveMessage: reads decimal numbers only. Exponents, hexadecimal numbers, infinities, not-a-number and the out-of-range exception of the number parser are not part of this model; the printed messages contain none of them.
- Reconciler.Operator.ProcessController: the retry helper is taken as up to five attempts, each next one only after a conflict, that report the last error. How the client library treats an error that wraps an expired context is not part of this model; here, as the operator's tests expect, it is reported.
- FlagCache.PluginManager.GetPluginState: the source answers at the instant of the lookup, and lookups do not overlap.
- PriceSeries.GeneratePricingData: covers any finite number of rounds of the endless loop.
- CardSchedulers.ManufactureScheduler.Run: shows the pass running by itself; its interleaving with the other services is that of CardWorkflow's calls. Exceptions are modelled between two processes of the list and just before the removals.
- Concurrent broker requests: balances are read before the transaction starts, so requests are serial steps.
- Column rounding and floating-point error: arithmetic is exact, and the printed prices are whole millionths.
- Time zones and daylight saving: a day has 86400 seconds everywhere.
- The resolution of stored timestamps: the clock of the order service is taken to grow between any two status rows.
- Lost calls and crashes between the two writes of a status update: a card row and its status, or a shipping id and its status, are written together.
- Orders for accounts that do not exist, and the other columns of orders, cards and statuses.
- The revision lookup behind a rollback of a deployment: a change and its rollback are opaque, and a failed one may leave anything on the fetched copy.
- The operator's loop over flags and its growing interval, and the registration of controllers.
- The truncation of drawn timestamps to whole seconds by the faker library.
- Account and instrument factories of the user generator, and the rendering of a row's values, which does not escape quotes.
- The daily cleanup of trades, balance history and inactive accounts by the content creator.
- Paging of trades, fraud scoring, notifications, logging, tracing and the deliberate fault injection.
- Login, accounts, versions, offers, the frontend and the load generator: thin wrappers and user interface.
