# A verified model of the exchange

The exchange consists of a C++ matching engine, a TypeScript API with a database writer, and a market maker's quote
injector, joined by a command stream and an event channel. This project models that logic in Dafny and proves how the
parts hold together: the engine's books against price-time priority, the engine's events against the orders they are
about, the ledger against the events, and the protocols that carry commands to the engine against crashes and failed
writes. `dafny verify dfyconfig.toml` checks everything.

## How it is laid out

| files | what they hold |
|---|---|
| `Digits`, `Decimal`, `DecimalText` | the engine's `Decimal`: int64 arithmetic, printing, parsing, and the bound under which nothing overflows and all of it is exact |
| `Orders`, `Greedy`, `BookSpec` | orders as exact numbers, greedy matching of a flat priority queue with its closed form, and a book as two such queues |
| `Outcomes`, `Arrivals`, `Redelivery` | what becomes of an order, said without the matcher; time priority over runs; and what a command delivered twice does |
| `Levels`, `Snapshots`, `OrderBook` | price levels, index, snapshot rows, and the class `OrderBook` with the engine's loops, each proved to do what the flat book does |
| `Exchange`, `Reports`, `Discipline`, `Runs` | the engine as an event machine, what each event says, the account every event stream obeys, and what follows for whole runs |
| `Engine`, `Commands` | the class `Engine`: payloads in, events as text out, snapshot and restore over all books; and the payload the API sends |
| `Ledger`, `Server`, `Requests` | balances and order rows as functions of the old rows, the class `Server` with the services and event handlers, and what requests are granted |
| `Big`, `Margins`, `Position` | the server's decimal, margins as its truncating division computes them, and positions |
| `Averages` | the average entry price against what the fills cost |
| `Sums`, `Coverage`, `Provider`, `Splits`, `Uncovered` | what one database step does to locked balances, with users and the liquidity provider, and where reservations and fills stop being exact |
| `System`, `SystemRuns`, `Conservation`, `Funds` | API, provider, engine and writer interleaved: lock coverage, replica agreement, conservation of money, and who is paid what |
| `Rejections`, `Scenarios`, `Overspent` | when a rejection strands funds, runs that end with stranded funds, and a run that spends them |
| `Wire`, `Fills` | the published text as the writer reads it, and the recorded fills as the trades of a run |
| `Outbox` | the transactional outbox as a state machine, and the worker's loop as a run of it |
| `Injector`, `Quotes` | the quote injector's reconciliation under failing writes, and what it writes |

Objects that change in place are classes: `OrderBook`, `Engine`, `Server`, `PositionTable`, `OutboxWorker` and
`DirectOrderInjector`. Each method is proved against a function of the old state; the lemmas are about that function.
The price maps are sequences of levels in key order, and the index is a map. The loops for the two sides of the book,
written out twice in the engine, are written once with the side as a parameter.

## The bound on numbers

Engine numbers must stay below 2^63 / 10^S with at most S decimals, S at most 18, and so must the total open volume of a
side. Then no int64 intermediate of matching, depth and snapshots overflows, and all are exact: the matching loops and depth
add, subtract and compare through functions that demand it (`Decimals.SafeAdd` and its siblings). Filing orders into levels
and restoring compare with the unguarded functions, and `OrderBooks.OrderBook.Rest` and `Snapshots.RestoreStaysInRange` state
that these comparisons overflow nowhere; `DecimalText.ParseExact` states it for the parser. Signed overflow is undefined in C++;
where `Decimals` wraps, it says what two's-complement arithmetic would do. Outside the bound the exact conditions are
`Decimals.PowersFitIff`, `Decimals.AddExactIff` and `Decimals.MulExactIff`. Ids must be new when they are placed: neither
the matcher (Engine/src/orderbook.cpp:229) nor the engine checks this, and `Outboxes.RedeliveryPossible` shows that the
stream does not guarantee it. What a second copy does to a book is `Redelivery.PlaceKeepsInvIff`.

## Where the code does not do what one would expect

- Market orders with fill-or-kill are not all-or-nothing; `BookSpec.MarketFokIff` gives the exact condition.
- The external fallback leaves a filled order on the book; `Exchange.MarkLeavesGhostOrder` says exactly when. Claims
  about quantities over runs therefore have the fallback switched off (Engine/src/engine.cpp:101).
- What a buyer saves by trading below its limit is stranded: reserved, and neither spent nor released
  (`Uncovered.StrandsIffImproved`, `Scenarios.ImprovementStrands`). So is everything reserved by a rejected order that its
  owner canceled after the writer handled its acceptance and before it handled its rejection, and only then: an earlier
  cancel is undone by the acceptance, which reopens the row (`Rejections.RejectionStrandsIff`,
  `Scenarios.RejectionStrands`). The comment in Server/src/services/orderService.ts:226 expects such events to be harmless.
  What is stranded stays locked through every further run (`SystemRuns.StrandedStays`, `Rejections.RejectionStays`), with one
  exception: a market buy of the same account that executes above the price it named can spend it
  (`Overspent.MarketBuySpendsStranded`; exactly when, event by event: `SystemRuns.EventSparesStrandedIff`). Locked balances
  are therefore stated as reserved plus stranded on accounts in which no market buy reserves.
- Margins are truncated 18 decimals past those of the cost, for each lock, fill and release on its own. A lock covers every
  split of its order if and only if 1 / leverage has at most 18 decimals (`Splits.SplitsCoveredIff`); leverage three is an
  example of the others (`Uncovered.UnevenLeverageFallsShort`). The coverage results carry a slack of one unit of the 18th
  decimal per uneven buy order, closed ones included, and are exact without such orders.
- A market buy reserves at a price that does not bound execution (`Uncovered.MarketBuyCoveredIff`). Runs have market buys,
  but for the accounts they reserve in, only that locked balances are not negative is claimed.
- A provider order's row keeps the quantity of its first trade while later trades add to its fill
  (`Uncovered.ProviderRowFollowsTrades`). With the provider as maker only the user's side is settled
  (`Conservation.ProviderTradeIsOneSided`).
- The fallback's trade is dropped by the writer, because its maker id is no uuid; the order is marked filled all the same
  (`Uncovered.FallbackTradeIsDropped`).
- README.md of the repository says that the outbox loses nothing, and Server/src/services/orderService.ts:138 that the
  worker only republishes after a crash. An order is lost if its request dies between the order row and the outbox row
  (`Outboxes.DeliverableIffNotLost`), and a row can be published twice without any crash (`Outboxes.RedeliveryPossible`).
- Zeros of different sign, which `Big` products and quotients can be, compare as neither equal nor ordered by `gte`
  (`Bigs.ComparisonsExactIff`).
- A failed cancel of the injector leaves an order in the book that nothing will cancel (`Injectors.ActiveIffNothingOrphaned`).

## Model

| member | source | states |
|---|---|---|
| `Decimals.IPow10` | Engine/src/decimal.cpp:12-16 | up to 10^18 the loop yields the power itself; beyond, the int64 that agrees with it modulo 2^64 |
| `Decimals.PowersFitIff` | Engine/src/decimal.cpp:12-16 | the loop stays within int64 if and only if the exponent is at most 18 |
| `Decimals.AddExactIff` | Engine/src/decimal.cpp:66-84 | a sum or difference denotes the exact result if and only if that result, at the larger of the two scales, is an int64 |
| `Decimals.MulExactIff` | Engine/src/decimal.cpp:86-88 | a product denotes the exact result if and only if the product of the unscaled numbers is an int64 |
| `Decimals.CompareExact` | Engine/src/decimal.cpp:48-64 | for numbers below 2^63 / 10^S with scale at most S and S at most 18: all comparisons order decimals as their numbers, and the power of ten, every product on the way to it and the scaled operand are int64s |
| `Decimals.AddExact` | Engine/src/decimal.cpp:66-74 | within the bound a sum is exact, keeps scale at most S, and no intermediate result overflows |
| `Decimals.SubExact` | Engine/src/decimal.cpp:76-84 | within the bound a difference is exact, keeps scale at most S, and no intermediate result overflows |
| `Decimals.OverflowBreaksAdd` | Engine/src/decimal.cpp:66-74 | outside the bound addition is wrong: two positive decimals of scale 18 with a negative sum |
| `DecimalText.ParseDecimal` | Engine/src/decimal.cpp:18-37 | the constructor's loops (sign, first point, trailing zeros, wrapping accumulator that skips other characters) compute the function the next rows are about |
| `DecimalText.ParseExact` | Engine/src/decimal.cpp:18-37 | parsing plain text whose digits fit in 63 bits is exact, leaves no trailing decimal zero, and the accumulator never leaves int64 |
| `DecimalText.DigitsInRangeIff` | Engine/src/decimal.cpp:31-36 | reading digits stays within int64 at every character if and only if the whole number does |
| `DecimalText.ParseToString` | Engine/src/decimal.cpp:99-119 | parsing what is printed gives the normal form: the same number with minimal scale, for every value but the smallest int64 |
| `DecimalText.PrintCanonical` | Engine/src/decimal.cpp:99-119 | two decimals print the same text if and only if they are the same number, whatever their scales; this is what makes printed prices usable as keys |
| `DecimalText.NormalUnique` | Engine/src/decimal.cpp:27-30 | decimals without trailing zeros are unique: one per number |
| `DecimalText.FitsRoundTrip` | Engine/src/decimal.cpp:99-119 | every decimal within the matcher's bound survives printing and parsing, and stays within the bound |
| `Greedy.MatchIsPriorityFill` | Engine/src/orderbook.cpp:119-216 | greedy matching is price-time priority in full: the trades are the first makers in queue order, each at its own price, within the limit, for exactly its closed-form share; all other makers get nothing and keep their order |
| `Greedy.StrictPriority` | Engine/src/orderbook.cpp:119-206 | no order gives anything while an order ahead of it keeps something |
| `Greedy.TradesMonotone` | Engine/src/orderbook.cpp:119-206 | successive trade prices only move away from the taker |
| `Greedy.MatchConserves` | Engine/src/orderbook.cpp:138-165 | trade quantities add up to the taker's fill and to the fall in open volume, and a taker left wanting finds no acceptable price |
| `Greedy.AvailablePredictsMatch` | Engine/src/orderbook.cpp:84-116 | the volume the limit accepts predicts the match exactly: the taker receives the smaller of it and its demand |
| `BookSpec.PlaceKeepsInv` | Engine/src/orderbook.cpp:65-242 | placing an order with a fresh id keeps the book sorted, live (0 <= filled < quantity), free of duplicate ids and uncrossed |
| `BookSpec.CancelKeepsInv` | Engine/src/orderbook.cpp:244-279 | so does canceling |
| `BookSpec.PlaceConserves` | Engine/src/orderbook.cpp:218-241 | the trades add up to the taker's fill and to the fall of the other side; the own side grows by the resting remainder only; a rejection changes nothing |
| `BookSpec.CancelExact` | Engine/src/orderbook.cpp:244-279 | canceling takes out exactly the order of that id, keeps all others in order, and lowers the depth at its price by its open quantity; an unknown id changes nothing |
| `BookSpec.FokAllOrNothing` | Engine/src/orderbook.cpp:84-116 | a fill-or-kill limit order is rejected with no trades and an unchanged book, or filled with trades that add up to its quantity; which one, exactly by the dry run |
| `BookSpec.MarketFokIff` | Engine/src/orderbook.cpp:85-85 | market orders skip the dry run: fill-or-kill holds for them if and only if the other side is empty or deep enough |
| `BookSpec.MarketFokFillsPartly` | Engine/src/orderbook.cpp:85-85 | an input on the failing side: every thinner book of one sell order fills such an order in part |
| `Outcomes.OutcomeIs` | Engine/src/orderbook.cpp:65-242 | what becomes of every order, from the prices and open quantities it finds: turned away if and only if it is limit, post-only and finds an acceptable price, or limit, fill-or-kill and finds too little; otherwise filled by all it accepts up to its quantity, immediate-or-cancel or not, with the status that goes with it |
| `Outcomes.TradeIs` | Engine/src/orderbook.cpp:138-165 | the k-th trade is with the k-th order of the queue, at its price, between the right users, for what the orders before it leave of the demand up to what it has open |
| `Outcomes.RestsBehind` | Engine/src/orderbook.cpp:218-231 | a good-till-canceled limit remainder rests behind every order at its price or better and before every worse one; no other order touches its own side |
| `Arrivals.TimePriority` | Engine/src/orderbook.cpp:221-229 | over every run: of two orders resting at one price the one in front was placed first |
| `Redelivery.PlaceKeepsInvIff` | Engine/src/orderbook.cpp:218-242 | without fresh ids: placing breaks the book's invariant if and only if a remainder rests while the book, after the trades, still has an order of its id |
| `Redelivery.RestingOrderDoubles` | Engine/src/orderbook.cpp:218-242 | the command of a resting order, delivered again, rests a second time with its whole quantity; canceling the id leaves one of the two |
| `Levels.PushBackInserts` | Engine/src/orderbook.cpp:224-228 | appending to the queue of a price level is insertion behind all orders of equal or better price in the flat order |
| `Levels.DepthsMeaning` | Engine/src/orderbook.cpp:285-302 | the depth entries have strictly worsening prices and show at every price exactly the open volume resting there |
| `OrderBooks.FillFront` | Engine/src/orderbook.cpp:131-164 | one turn of the inner loop moves the smaller of the two open amounts between maker and taker, exactly, and reports it at the level's price; the dead branch for an exhausted maker is never taken |
| `OrderBooks.TakeFront` | Engine/src/orderbook.cpp:129-165 | a maker that is used up leaves queue and index together; queue, index and what remains to be matched stay in step |
| `OrderBooks.MatchLevel` | Engine/src/orderbook.cpp:127-165 | the inner loop is a prefix of the greedy match and ends with an empty level or a satisfied taker |
| `OrderBooks.LevelVolume` | Engine/src/orderbook.cpp:91-94 | the summed open volume of a level is exact |
| `OrderBooks.FokVolume` | Engine/src/orderbook.cpp:87-96 | the dry run's cumulative sum is exactly the volume the limit accepts |
| `OrderBooks.OrderBook.TryMatch` | Engine/src/orderbook.cpp:119-216 | the outer loop terminates and equals the greedy match over the flattened levels: same trades, same updated makers, same taker fill; no level is left empty and the index follows |
| `OrderBooks.OrderBook.TurnAway` | Engine/src/orderbook.cpp:67-116 | orders are turned away exactly when post-only would cross or fill-or-kill cannot be filled |
| `OrderBooks.OrderBook.Rest` | Engine/src/orderbook.cpp:221-229 | resting is insertion behind equal or better prices, and the index gains the order with its side and printed price |
| `OrderBooks.OrderBook.Settle` | Engine/src/orderbook.cpp:218-241 | a good-till-canceled limit remainder rests, anything else does not; the status of every case |
| `OrderBooks.OrderBook.Match` | Engine/src/orderbook.cpp:65-242 | refinement: the class on levels and int64 decimals does what placing does on flat exact lists, returns the same trades, and keeps levels, index and bounds in order; it adds, subtracts and compares only where nothing overflows |
| `OrderBooks.OrderBook.Erase` | Engine/src/orderbook.cpp:256-258 | the order leaves its level, an emptied level leaves the map, and the index entry goes with it |
| `OrderBooks.OrderBook.Cancel` | Engine/src/orderbook.cpp:244-283 | returns true exactly when the id rests, and removes exactly that order; an indexed order is always found |
| `OrderBooks.SideDepth` | Engine/src/orderbook.cpp:289-300 | the first levels of a side, as printed price and printed exact volume |
| `OrderBooks.OrderBook.DepthJson` | Engine/src/orderbook.cpp:285-302 | both sides' top levels, as the depth of the flat book prints |
| `OrderBooks.SideJson` | Engine/src/orderbook.cpp:308-327 | the rows of a side, order by order, in priority order |
| `OrderBooks.OrderBook.SerializeState` | Engine/src/orderbook.cpp:304-350 | what is written can be restored and decodes to this very book |
| `OrderBooks.OrderBook.RestoreState` | Engine/src/orderbook.cpp:352-400 | restoring a restorable snapshot gives a valid book, index included, that is the decoded one |
| `OrderBooks.OrderBook.constructor` | Engine/src/orderbook.h:58-60 | a new book is valid and empty |
| `Snapshots.OrderRoundTrip` | Engine/src/orderbook.cpp:310-324 | writing and reading an order changes nothing a book can observe; only decimal scales and the status may differ |
| `Snapshots.RowSays` | Engine/src/orderbook.cpp:310-324 | a snapshot row under its own names: the order's numbers, words and flags |
| `Snapshots.RestoredStatus` | Engine/src/orderbook.cpp:352-400 | an order is restored as filled exactly if nothing of it is left, as open otherwise |
| `Snapshots.PushAllAppends` | Engine/src/orderbook.cpp:356-377 | rows that come in priority order are filed in that order |
| `Snapshots.RestoreStaysInRange` | Engine/src/orderbook.cpp:352-400 | restoring a restorable snapshot compares prices with level prices, and fills with quantities, without overflow at any row |
| `Exchange.MarkLeavesGhostOrder` | Engine/src/engine.cpp:98-130 | the external fallback reports an order as filled while its remainder stays on the book if and only if a good-till-canceled limit remainder, not rejected, meets an acceptable mark price; the first order of a market included |
| `Exchange.RestsOnBook` | Engine/src/orderbook.cpp:218-231 | after a placement that is not rejected the order is on the book exactly when it is a good-till-canceled limit order with a remainder |
| `Engines.PublishedUnique` | Engine/src/engine.cpp:131-191 | the text of an event is determined by its numbers: equal events are published identically |
| `Engines.Engine.PublishTrades` | Engine/src/engine.cpp:146-159 | one trade event per trade, in order |
| `Engines.Engine.PublishPlacement` | Engine/src/engine.cpp:131-204 | acceptance, trades, at most one closing event, then depth, for every outcome |
| `Engines.Engine.FillAtMark` | Engine/src/engine.cpp:98-130 | the fallback fills the caller's copy only, for the exact remainder |
| `Engines.Engine.PlaceOrder` | Engine/src/engine.cpp:53-205 | payload defaults, validation, matching, fallback and events are those of the abstract step on flat books |
| `Engines.Engine.CancelOrder` | Engine/src/engine.cpp:207-233 | one cancellation event and one depth event if the order rested on that market's book, nothing otherwise |
| `Engines.Engine.ProcessEntry` | Engine/src/engine.cpp:235-270 | dispatch by entry type; unreadable payloads and other types do nothing |
| `Engines.Engine.SnapshotState` | Engine/src/engine.cpp:272-280 | every book is written, and the snapshot decodes to the engine's books |
| `Engines.Engine.RestoreState` | Engine/src/engine.cpp:282-292 | all books are forgotten and those of the snapshot are read; rows without a market are skipped |
| `Engines.RestartPublishesTheSame` | Engine/src/engine.cpp:272-292 | bisimulation: an engine restored from another's snapshot answers every later sequence of commands with the same published text, and ends with the same books |
| `Discipline.MatchTracked` | Engine/src/orderbook.cpp:119-216 | every trade of a match fits the account of earlier events: known open orders, right users and sides, within quantity and limit, at the maker's price; makers that leave are completely filled |
| `Discipline.PlaceTracked` | Engine/src/engine.cpp:96-204 | the events of one placement fit the account, and afterwards every resting order is filled by exactly its trades |
| `Discipline.CancelStepTracked` | Engine/src/engine.cpp:207-233 | a cancellation publishes one closing event of an order that rested, and changes nothing for any other order |
| `Discipline.RunTracked` | Engine/src/engine.cpp:235-270 | from any books in step with the account, every run of commands with fresh ids publishes only events that fit it, and stays in step |
| `Runs.EveryRunDisciplined` | Engine/src/engine.cpp:53-233 | the same for every run from an empty engine |
| `Runs.FilledIsTraded` | Engine/src/engine.cpp:146-159 | over any disciplined stream an order's fill is the sum of its trades and never exceeds its quantity |
| `Runs.RestingFilledIsTraded` | Engine/src/orderbook.cpp:140-147 | in every reachable state a resting order is filled by exactly the sum of its published trades, below its quantity |
| `Runs.BooksIgnoreMarks` | Engine/src/engine.cpp:98-130 | the fallback never changes a book: a run with marks ends with the books of the run without |
| `Runs.NeverCrossed` | Engine/src/orderbook.cpp:67-227 | in every reachable state, fallback on or off, every bid is strictly below every ask |
| `Reports.TurnedDownUnseenIff` | Engine/src/engine.cpp:73-82 | an order without id, market, user or positive quantity is turned down with one event and touches no book; no other is |
| `Reports.PlacementSays` | Engine/src/engine.cpp:98-204 | every event of a placement, field by field: the acceptance with final fill and status, one event per trade and one at the mark, the one right closing event or none, the depth of the book afterwards |
| `Reports.CancelSays` | Engine/src/engine.cpp:207-233 | canceling an order that rests says so with its id, market and the canceling user, then the depth; of any other order nothing is said |
| `Reports.DepthIsCurrent` | Engine/src/engine.cpp:193-204 | over every run the depth last published for a market shows the best twenty prices of each side of its book as it is, with the volume resting at each |
| `Runs.AtMostOneRelease` | Engine/src/engine.cpp:161-191 | nothing is published about an order after its FILLED, REJECTED or CANCELED event, so there is at most one |
| `Runs.ClosingSettlesTrades` | Engine/src/engine.cpp:161-233 | a filled order traded exactly its quantity over the whole stream, a rejected one nothing, a canceled one less than its quantity; the filled quantity that a closing event reports is what the order traded |
| `Runs.RunSettles` | Engine/src/engine.cpp:96-191 | every order placed in a run is closed, on its book, or completely filled: none disappears |
| `Runs.RunReleases` | Engine/src/engine.cpp:161-233 | what the event stream says was given back of an order is what its rejection, dropped remainder or cancellation took off the books, command by command |
| `Runs.OrderConserved` | Engine/src/engine.cpp:161-233 | every placed order: quantity = trades in the stream + open on the book + given back, the last computed from the books and not from the fill |
| `Runs.VolumeOnBothSides` | Engine/src/engine.cpp:146-159 | total fills grow by twice the traded volume |
| `Runs.RunConserves` | Engine/src/engine.cpp:53-233 | conservation over every run: volume placed = twice the volume traded + volume resting + volume that rejections, dropped remainders and cancellations gave back |
| `Bigs.TextRoundTrip` | Server/src/utils/big.ts:116-125 | reading back what is printed gives the same value, digit for digit, except that zero loses its sign |
| `Bigs.FromScaledNorm` | Server/src/utils/big.ts:46-55 | padding, slicing and trimming the digits of a scaled integer, then parsing, yields its normal form |
| `Bigs.SumsExact` | Server/src/utils/big.ts:39-69 | plus and minus are exact for all signs and scales |
| `Bigs.TimesExact` | Server/src/utils/big.ts:71-77 | times is exact, sign included |
| `Bigs.DivTruncates` | Server/src/utils/big.ts:79-87 | div is the exact quotient truncated toward zero, 18 decimals past those of the dividend; it fails exactly for a zero divisor |
| `Bigs.ComparisonsExactIff` | Server/src/utils/big.ts:89-114 | gt and lte compare the numbers; gte and lt do so exactly unless both operands are zeros of different sign |
| `Bigs.EventNumbersAgree` | Engine/src/decimal.cpp:99-119 | a number the engine prints in an event is read by the server as the same number |
| `Bigs.RequestNumbersAgree` | Server/src/utils/big.ts:8-30 | plain digits in a request are read as the same number by both sides, if they fit in 63 bits |
| `Commands.PayloadIsOrderSent` | Server/src/services/orderService.ts:111-146 | from request text to the book: the order the engine reads from the API's payload is the one that row and reservation were made for, defaults and nulls included |
| `Servers.Server.LockBalance` | Server/src/services/balanceService.ts:103-127 | moves the amount from available to locked, or refuses with nothing changed: no balance, or not enough; a non-positive amount does nothing |
| `Servers.Server.UnlockBalance` | Server/src/services/balanceService.ts:129-152 | moves the amount, or whatever is locked if less, back to available |
| `Servers.Server.DebitLocked` | Server/src/services/balanceService.ts:154-175 | takes the amount, or whatever is locked if less, off locked |
| `Servers.Server.CreditAvailable` | Server/src/workers/dbWriter.ts:29-36 | adds to available, creating the balance if there is none |
| `Servers.Server.DebitAvailable` | Server/src/workers/dbWriter.ts:38-42 | takes off available without a floor; nothing without a balance |
| `Servers.Server.Deposit` | Server/src/services/balanceService.ts:58-77 | credits positive amounts, refuses others |
| `Servers.Server.Withdraw` | Server/src/services/balanceService.ts:79-101 | debits what available covers, refuses otherwise; a refused withdrawal may leave an empty balance behind |
| `Funds.LockIff` | Server/src/services/balanceService.ts:103-127 | a positive amount is locked if and only if the account has that much available; then that much moves from available to locked, in no other account |
| `Requests.PlacedIff` | Server/src/services/orderService.ts:24-110 | a request places an order if and only if the market takes it, its client id is new to the user, and the user can afford it; it returns the earlier order if and only if the client id is not new; the row written has the request's own numbers |
| `Requests.FirstFailureReported` | Server/src/services/orderService.ts:30-54 | the error reported is that of the first check that fails |
| `Requests.RefusalReported` | Server/src/services/orderService.ts:73-85 | and of an order that the user cannot afford: no price, no leverage, no balance, or too little |
| `Requests.AskedIsDone` | Server/src/services/orderService.ts:111-127 | what the user asked for is what the engine does: post-only never takes, fill-or-kill trades all or nothing, only good-till-canceled limit orders rest, none trades beyond its price, and the trades are the user's |
| `Requests.CancelGrantedIff` | Server/src/services/orderService.ts:193-233 | a cancel is granted if and only if the order is the user's and still open; it marks that row and nothing else |
| `Requests.CancelAllIs` | Server/src/services/orderService.ts:235-263 | withdrawing all orders of a user, in one market or all, marks exactly the open ones there and sends one cancel for each, naming its market |
| `Servers.Server.PlaceOrder` | Server/src/services/orderService.ts:24-152 | validation, then the existing order of the same client id, then reservation of the truncated margin, row and command; a refusal changes nothing |
| `Servers.Server.CancelOrder` | Server/src/services/orderService.ts:193-233 | refuses foreign and finished orders; otherwise one cancel command and the row marked canceled before the engine answers |
| `Servers.Server.CancelAllOpenOrders` | Server/src/services/orderService.ts:235-263 | every open order of the user gets one cancel command and is marked canceled, no other row changes, and the count is how many there were |
| `Servers.Server.UnlockOrderMargin` | Server/src/workers/dbWriter.ts:76-92 | releases what the row still reserves: the truncated margin at its own price for priced buys, remaining base otherwise |
| `Servers.Server.HandleOrderRejected` | Server/src/workers/dbWriter.ts:94-105 | releases unless the row is filled, canceled or expired, and marks it rejected either way |
| `Servers.Server.HandleOrderCanceled` | Server/src/workers/dbWriter.ts:115-128 | releases and marks canceled unless the row is filled, rejected or expired |
| `Servers.Server.ApplyTradeToOrder` | Server/src/workers/dbWriter.ts:44-66 | one fill on one row: quantity, status, and the price if there was none |
| `Requests.FillIs` | Server/src/workers/dbWriter.ts:44-66 | one fill on one row, field by field; a price is fixed only if there was none, and all other rows stay |
| `Requests.SyntheticRowIs` | Server/src/workers/dbWriter.ts:181-229 | a row made up for the provider: filled, at the trade's price and quantity, on its own side |
| `Requests.FeesRecorded` | Server/src/workers/dbWriter.ts:169-173 | the recorded fees are price times quantity at the maker's and the taker's rate, in hundredths of a percent |
| `Funds.TradePays` | Server/src/workers/dbWriter.ts:236-312 | per account, whatever the state and whoever takes: the buyer pays its fee in quote and gets the quantity in base, the seller gets price times quantity less its fee, and no other account's available balance moves |
| `Servers.Server.SettleBuyer` | Server/src/workers/dbWriter.ts:257-270 | truncated margin off locked, fee off available, base quantity in |
| `Servers.Server.SettleSeller` | Server/src/workers/dbWriter.ts:271-281 | base quantity off locked, notional minus fee in |
| `Servers.Server.HandleTradeExecuted` | Server/src/workers/dbWriter.ts:144-316 | fill with both fees, settlement taker first, then both rows as they are committed: a row this very trade inserts is not filled again; nothing at all without the market, if an order row is missing, or if the provider's order id is not a uuid |
| `Servers.Server.HandleMessage` | Server/src/workers/dbWriter.ts:461-491 | dispatch by event type |
| `Servers.Server.HandleMessages` | Server/src/workers/dbWriter.ts:498-505 | the chain folds the handlers over the messages in publication order, and the recorded fills with them |
| `Fills.FillsAreTrades` | Server/src/workers/dbWriter.ts:231-245 | over every run: the fills recorded are the trades handled in markets that have a row, once each, in order, with both fees |
| `Margins.QuotientIsDiv` | Server/src/utils/big.ts:79-87 | the margin used in all that follows is what D(mul(price, quantity)).div(leverage) computes, for every pair of decimals and every leverage but zero |
| `Margins.QuotientBounds` | Server/src/utils/big.ts:79-87 | it is at most the exact quotient and less than one unit of the 18th decimal below it |
| `Margins.QuotientExactIff` | Server/src/utils/big.ts:79-87 | it is exact if and only if the exact quotient has at most 18 decimals more than the cost |
| `Margins.ExactLeverageIff` | Server/src/services/orderService.ts:77-80 | a leverage makes every margin exact if and only if its reciprocal has at most 18 decimals |
| `Coverage.DebitWithinFreed` | Server/src/workers/dbWriter.ts:253-312 | a fill within the order's limit is due at most what it frees of the reservation, exactly that less the price improvement; what is debited is at most one unit of the 18th decimal less, and exactly what is due for sells and even leverage |
| `Coverage.FillCovered` | Server/src/workers/dbWriter.ts:253-316 | debiting one side and filling its row keeps every account covered: what the debit leaves over is the price improvement |
| `Coverage.CancelCovered` | Server/src/workers/dbWriter.ts:115-128 | a cancellation releases what the order still reserves, up to truncation |
| `Coverage.RejectCovered` | Server/src/workers/dbWriter.ts:94-105 | a rejection releases the reservation, up to truncation, unless the row is marked canceled at that moment: then all of it stays locked |
| `Coverage.CompleteCovered` | Server/src/workers/dbWriter.ts:107-113 | a completed order reserves nothing any more |
| `Coverage.PlacementCovered` | Server/src/services/orderService.ts:73-85 | a new order locks what its row reserves, up to truncation |
| `Providers.SettlementCovered` | Server/src/workers/dbWriter.ts:236-312 | settling a trade keeps every account covered, whether its sides are users or the liquidity provider, whose settlement as taker touches no lock |
| `Providers.SettlementTakes` | Server/src/workers/dbWriter.ts:253-312 | a settlement takes from each account what its two sides ask together, or all that is locked, also when both use the same account |
| `Providers.EventTakes` | Server/src/workers/dbWriter.ts:76-128 | so does every event: a trade its debits, a rejection or cancellation its release, each exactly or all there is |
| `Providers.QuotesAfterTrade` | Server/src/workers/dbWriter.ts:181-229 | the provider's rows: born with the first trade, filled by exactly the trades of their order ever after |
| `Providers.RowsAfterFills` | Server/src/workers/dbWriter.ts:314-316 | a trade keeps every user's row filled by exactly the trades handled |
| `Uncovered.StrandsIffImproved` | Server/src/workers/dbWriter.ts:262-266 | a trade strands something of a user (reserved, and neither spent nor released) exactly when the user's limit order takes at a better price, whoever the maker is; how long it stays is in the rows on SystemRuns.StrandedStays and Overspent |
| `Splits.SplitsCoveredIff` | Server/src/services/orderService.ts:74-82 | what is locked for a priced buy covers its fills at its price or better, and its release, however they split it, if and only if the leverage divides evenly: 1 / leverage has at most 18 decimals |
| `Splits.UnevenSplit` | Server/src/utils/big.ts:79-87 | at every other leverage one unit at price 1 has a split into two fills that ask for more than was locked |
| `Uncovered.UnevenLeverageFallsShort` | Server/src/utils/big.ts:79-87 | an example: leverage three, one lock and two fills of half; the second finds 2e-19 too little |
| `Uncovered.MarketBuyCoveredIff` | Server/src/services/orderService.ts:74-82 | at leverage that divides evenly, a market buy's settlement is in full if and only if other orders have locked what it costs beyond the price its sender named |
| `Uncovered.ProviderRowFollowsTrades` | Server/src/workers/dbWriter.ts:181-204 | a provider order's row keeps the quantity of its first trade while every later trade adds to its fill: the fill stays within the quantity if and only if there is one trade |
| `Uncovered.FallbackTradeIsDropped` | Engine/src/engine.cpp:98-130 | the fallback's maker id is not a uuid, so its trade is dropped: the row is marked filled without a fill, and its reservation stays locked |
| `Providers.EventHandled` | Server/src/workers/dbWriter.ts:461-491 | every handler keeps rows, reservations and stranded amounts in step with the account of events, for users and provider |
| `System.ActionKeepsInv` | Server/src/services/orderService.ts:24-233 | every request, quote, engine turn and writer turn keeps the invariant that joins database, stream, books and pending events |
| `SystemRuns.EveryRunReachable` | Server/src/workers/dbWriter.ts:498-505 | so does every interleaving of them, and no order is lost between stream and books |
| `SystemRuns.LocksCoverOpenOrders` | Server/src/services/orderService.ts:73-85 | over every run: no locked balance is negative, and on every account without market buys locked = reserved by open orders + stranded, exactly where leverage divides evenly, otherwise short by at most one unit of the 18th decimal per uneven buy order of the account and over by at most one per debit or release of such an order |
| `SystemRuns.LocksCoverEachOrder` | Server/src/services/orderService.ts:73-85 | so each open order's reservation is covered by its account, up to that shortage |
| `SystemRuns.NextEventTakes` | Server/src/services/balanceService.ts:129-175 | in every reachable state the next event takes from every account what it asks, or all that is locked; where no market buy reserves, what it asks less at most the account's slack: where leverage divides evenly no debit and no release is clamped |
| `SystemRuns.StrandedNeverFalls` | Server/src/workers/dbWriter.ts:94-128 | over every further run the stranded amount of an account never falls |
| `SystemRuns.StrandedStays` | Server/src/workers/dbWriter.ts:94-128 | what is stranded is still locked after any further run, on top of what open orders reserve and up to slack, as long as no market buy reserves in the account |
| `SystemRuns.EventSparesStrandedIff` | Server/src/services/balanceService.ts:154-175 | market buys or not: the next event leaves all that is stranded locked if and only if what it asks is locked on top of that |
| `SystemRuns.RowsFollowEvents` | Server/src/workers/dbWriter.ts:44-66 | over every run each row, the provider's included, is filled by exactly the sum of its trades among the handled events; a user's within its quantity, marked filled exactly when it is, partly filled only when it is that, and closed once its closing event is handled |
| `SystemRuns.EventMarks` | Server/src/workers/dbWriter.ts:68-128 | over every run, whatever the row was marked before: an acceptance leaves it open, a completion filled, a rejection rejected, a cancellation canceled, and no other row changes |
| `SystemRuns.ReplicaAgrees` | Server/src/workers/dbWriter.ts:44-128 | once the writer has caught up, every resting order of a user and its row agree on fill, quantity, price and side; a quote agrees with its row on the fill, or has neither row nor trades |
| `SystemRuns.DrainedLocksAreResting` | Server/src/workers/dbWriter.ts:76-128 | end to end: once everything is processed, an account without market buys has locked what its orders resting in the engine's books reserve, plus what is stranded; exactly where leverage divides evenly |
| `Rejections.RejectedAfterAccepted` | Server/src/services/orderService.ts:30-54 | over every run nothing that passed the request's checks is turned down as invalid, and every rejection directly follows the acceptance of the same order |
| `Rejections.RejectionStrandsIff` | Server/src/workers/dbWriter.ts:68-105 | over every run: a rejected order's reservation, a positive amount, is stranded and nothing of it released if and only if its owner canceled it between the writer's turn on its acceptance and its turn on the rejection; otherwise its margin is released as far as it is locked, which it is up to slack where no market buy reserves |
| `Rejections.RejectionStays` | Server/src/workers/dbWriter.ts:94-105 | such a reservation is still locked after any further run, on top of what open orders reserve and up to slack, as long as no market buy reserves in the account |
| `Scenarios.RejectionStrands` | Server/src/workers/dbWriter.ts:94-105 | such a run from empty books: a fill-or-kill order ends rejected with nothing under way and its whole reservation locked |
| `Scenarios.ImprovementStrands` | Server/src/workers/dbWriter.ts:262-266 | a run from empty books that ends with both orders filled, nothing under way and the price improvement still locked |
| `Overspent.MarketBuySpendsStranded` | Server/src/services/orderService.ts:74-82 | the exception: a run in which a market buy names price 1, executes at 2 and spends the unit that a rejection had stranded |
| `Wire.TextHandled` | Server/src/workers/dbWriter.ts:461-491 | reading the published text of an event has the effect of the event: the ledger settles the numbers the engine meant |
| `Wire.PublishedTextSettles` | Server/src/workers/dbWriter.ts:498-505 | over every run: whatever text publishes the events under way, handling it message by message leaves the database where the server's handlers and the writer's turns on the events leave it |
| `Conservation.LockingMovesNothing` | Server/src/services/balanceService.ts:103-152 | locking and unlocking conserve every asset's total, clamped or not |
| `Conservation.SettlementMoves` | Server/src/workers/dbWriter.ts:236-312 | whatever the state and whoever trades: what a settlement adds to or takes from each asset's total, clamps included |
| `Conservation.PlainTradeMoves` | Server/src/workers/dbWriter.ts:236-312 | between users with even leverage a trade conserves the base asset; the quote total changes by notional - margin - both fees |
| `Conservation.ProviderTradeIsOneSided` | Server/src/workers/dbWriter.ts:253-312 | with the provider as maker only the taker is settled: base appears or disappears by the quantity traded |
| `Conservation.SpotTradeLosesFees` | Server/src/workers/dbWriter.ts:169-173 | at leverage one a trade costs exactly its two fees |
| `Conservation.RunMoves` | Server/src/workers/dbWriter.ts:248-312 | over every run from any state, provider and market buys included: deposits, withdrawals and settlements account for every change of every asset's total |
| `Funds.RunPays` | Server/src/workers/dbWriter.ts:248-312 | the same account by account: over every run what is available is what deposits, withdrawals, reservations, releases, trades and fees make of it, each in closed form |
| `Funds.NeverInDebt` | Server/src/services/balanceService.ts:79-127 | over every run: what an account has available plus the fees charged to it is never negative, so nothing is reserved or withdrawn twice |
| `Conservation.SpotRunLosesOnlyFees` | Server/src/workers/dbWriter.ts:248-312 | over every run of users without leverage and market buys every asset is conserved up to deposits, withdrawals and the fees of its trades |
| `Positions.PositionTable.UpsertPosition` | Server/src/workers/dbWriter.ts:363-450 | opens, averages, reduces or closes the user's position in the market; a division by zero fails and changes nothing |
| `Positions.QuotientWithin` | Server/src/utils/big.ts:79-87 | truncating division keeps a weighted sum within any lower bound of at most 18 decimals and any upper bound |
| `Averages.AddedAverages` | Server/src/workers/dbWriter.ts:407-423 | one more fill of the same side: quantities add up exactly, and the new entry price times the new quantity is the cost of both, short by less than one unit of the 18th decimal times that quantity; side, margin and profit stay |
| `Averages.AverageIsCost` | Server/src/workers/dbWriter.ts:407-423 | over any sequence of same-side fills the entry price times the quantity is the total cost, short by at most one unit of the 18th decimal per fill after the first, times the quantity |
| `Averages.OpenedIs` | Server/src/workers/dbWriter.ts:381-402 | the first fill opens at its price and quantity with the cost by the leverage as margin, truncated; only a zero leverage fails |
| `Averages.OthersStay` | Server/src/workers/dbWriter.ts:424-447 | what a reduction and a closing leave alone: side, entry price and margin, and a reduction the profit |
| `Positions.AddedWithin` | Server/src/workers/dbWriter.ts:407-423 | and the average stays within any bounds on the prices |
| `Positions.AverageInRange` | Server/src/workers/dbWriter.ts:407-423 | over any sequence of same-side fills with prices of at most 18 decimals the stored average lies between the lowest and the highest price |
| `Positions.ReducesExactly` | Server/src/workers/dbWriter.ts:424-447 | a fill of the other side closes the position exactly when it is at least as large, and otherwise takes its quantity off |
| `Positions.CloseRealizes` | Server/src/workers/dbWriter.ts:427-441 | closing realizes exactly (price - entry) * quantity with the sign of the side; what the fill exceeds the position by is dropped |
| `Outboxes.PublishedIsInStream` | Server/src/services/orderService.ts:110-149 | under every interleaving, failure and crash: a row marked published has its command in the stream, every row is in the stream or pending, and every command has its row and order |
| `Outboxes.LostForever` | Server/src/services/orderService.ts:88-135 | an order row whose request died before the outbox row never gets a command, whatever happens later |
| `Outboxes.DeliverableIffNotLost` | Server/src/services/orderService.ts:88-135 | a committed order can still reach the stream if and only if its outbox row exists or its request is alive |
| `Outboxes.LossPossible` | Server/src/services/orderService.ts:88-135 | such a loss: a request that fails right after its first insert |
| `Outboxes.RequestCompletes` | Server/src/services/orderService.ts:88-149 | a request that nothing interrupts leaves one order, one marked row and one command |
| `Outboxes.CopiesCounted` | Server/src/workers/outboxWorker.ts:15-35 | the copies of a command in the stream are exactly those there were, plus what its request and the worker appended |
| `Outboxes.ApiAppendsOnce` | Server/src/services/orderService.ts:137-149 | from any sound state a request appends at most once; so more than one copy means that the worker appended one |
| `Outboxes.DuplicatesIffAlreadySent` | Server/src/workers/outboxWorker.ts:15-35 | a step makes the first duplicate exactly when it appends an id that is already in the stream |
| `Outboxes.ApiDuplicatesIffWorkerFirst` | Server/src/services/orderService.ts:137-149 | a request's own append duplicates exactly when the worker has appended the row before |
| `Outboxes.RedeliveryPossible` | Server/src/workers/outboxWorker.ts:10-28 | without any failure the worker can publish a second copy, by reading a row between append and mark |
| `Outboxes.BatchDrains` | Server/src/workers/outboxWorker.ts:10-14 | a failure-free batch takes exactly its rows off the backlog: a hundred, or all there are |
| `Outboxes.OutboxWorker.SelectPending` | Server/src/workers/outboxWorker.ts:10-14 | up to a hundred pending rows, all of them if fewer, none twice |
| `Outboxes.OutboxWorker.PublishOutboxBatch` | Server/src/workers/outboxWorker.ts:9-39 | the loop is a run of the protocol; rows whose append fails stay pending, rows whose mark fails are in the stream and stay pending, and the result counts the others |
| `Outboxes.OutboxWorker.RunTicks` | Server/src/workers/outboxWorker.ts:41-56 | repeated failure-free batches leave the backlog less a hundred each, down to nothing, and mark only what they sent |
| `Injectors.Reconciles` | market_maker/src/liquidity/directOrderInjector.ts:30-62 | after an update every active price is wanted, entries at unchanged prices are untouched, and if no write failed every wanted price is active |
| `Injectors.UpdateIsIdempotent` | market_maker/src/liquidity/directOrderInjector.ts:30-62 | repeating an update whose writes all succeeded sends nothing |
| `Quotes.WritesWhatIsQuoted` | market_maker/src/liquidity/directOrderInjector.ts:30-99 | over any run, whatever fails: every placement in the stream is a level of some quote on its side, at its price, for its quantity, and every active entry of a side has such a placement under its id |
| `Quotes.CancelsFirst` | market_maker/src/liquidity/directOrderInjector.ts:30-62 | an update writes its cancels, of both sides, before its placements |
| `Quotes.WiredCancel` | market_maker/src/liquidity/directOrderInjector.ts:101-119 | a written cancel takes that order off the market's book and touches no other |
| `Injectors.ClearsAll` | market_maker/src/liquidity/directOrderInjector.ts:121-128 | afterwards nothing is active, and every id ever placed is canceled in the stream or orphaned by a failed cancel |
| `Injectors.ActiveIffNothingOrphaned` | market_maker/src/liquidity/directOrderInjector.ts:101-128 | over any run, whatever fails: the active ids are exactly those placed and not canceled in the stream if and only if no cancel write failed; the difference is exactly the orphans |
| `Injectors.OrphanPossible` | market_maker/src/liquidity/directOrderInjector.ts:101-119 | an orphan: the cancel of the only quote fails, and the order stays with nothing active |
| `Injectors.WiredOrder` | market_maker/src/liquidity/directOrderInjector.ts:64-81 | the engine reads a placement as the good-till-canceled limit order that was meant |
| `Injectors.DirectOrderInjector.CancelOrder` | market_maker/src/liquidity/directOrderInjector.ts:101-119 | one cancel command, or none if the write fails; the caller is not told |
| `Injectors.DirectOrderInjector.PlaceOrder` | market_maker/src/liquidity/directOrderInjector.ts:64-99 | one placement under a new id, or nothing and no id if the write fails |
| `Injectors.DirectOrderInjector.CancelStale` | market_maker/src/liquidity/directOrderInjector.ts:34-46 | unwanted entries are canceled in insertion order and dropped, whether or not the write succeeds |
| `Injectors.DirectOrderInjector.PlaceMissing` | market_maker/src/liquidity/directOrderInjector.ts:48-61 | levels not active are placed, in the order of the quote; a failed placement is retried by a later level of the same price |
| `Injectors.DirectOrderInjector.UpdateQuotes` | market_maker/src/liquidity/directOrderInjector.ts:30-62 | both sides' cancels, then both sides' placements; the invariant is kept |
| `Injectors.DirectOrderInjector.CancelAll` | market_maker/src/liquidity/directOrderInjector.ts:121-128 | a cancel for every active entry, bids first, then both maps are emptied |

## Left out

- OrderBooks.OrderBook: orders are values in the queues; nothing else in the source keeps a pointer to a queued order, so sharing is not modelled.
- OrderBooks.OrderBook.Cancel: the canceled order's own status field is not modelled, because the order is dropped.
- OrderBooks.OrderBook.Match: numbers beyond the bound and ids already in the book are excluded; the source would overflow, or file the id twice.
- Engines.Engine.ProcessEntry: stream text and JSON parsing are not modelled; a payload is a map of JSON values, and JSON numbers are integers.
- Engines.Engine.PlaceOrder: reading the mark price from Redis, with its staleness check, is a parameter of the call.
- Engines.Engine.SnapshotState: the markets are written in any order, where the source goes by name; restoring does not depend on it.
- Servers.Server.HandleTradeExecuted: amounts keep all their decimals, where the columns are `numeric(30,8)`; the balance updates of the user who is debited are transactions of their own, and a failure between them and the outer commit, which would leave a part of the settlement, is not modelled; nor is that in a trade of a user with itself `debitLocked` waits for a row the outer transaction holds (Server/src/workers/dbWriter.ts:253-312).
- Servers.Server.HandleTradeExecuted: positions are kept apart in `Positions`; a sell with leverage zero, whose position margin divides by zero, does not undo the settlement here.
- Servers.Server.PlaceOrder: amounts are exact numbers, where the source has `Big` objects; the division is a parameter that must be the decimal's, which `Margins.QuotientIsDiv` and `Bigs.DivTruncates` tie to `Big`.
- Servers.Server.PlaceOrder: a new id is a parameter; the outbox row between order row and command is the subject of `Outboxes`.
- System.ActionKeepsInv: a request is one action, although the API writes its rows and its command one after the other; leverage is not negative, as the request schema demands (Server/src/routes/orders.ts:22).
- SystemRuns.LocksCoverOpenOrders: nothing more than non-negative locked balances is stated for accounts in which market buys reserve, because the named price does not bound what they spend.
- System.ActionKeepsInv: the external fallback is off in these runs (Engine/src/engine.cpp:101); what its trade does to a database is `Uncovered.FallbackTradeIsDropped`.
- Conservation.SpotRunLosesOnlyFees: runs without the provider; with it, `Conservation.RunMoves` and `Conservation.ProviderTradeIsOneSided` say what moves.
- Wire.TextHandled: JSON and the channel's framing are not modelled; a message is its fields, with numbers and enumerations as text.
- Positions.PositionTable.UpsertPosition: leverage and margin mode columns, mark-price revaluation, liquidation price and funding are not modelled.
- Positions.AverageInRange: rounding of the stored price to the column's eight decimals is not modelled.
- Bigs.TextRoundTrip: scientific notation, surrounding blanks and `toFixed` are not modelled.
- Redelivery.RestingOrderDoubles: what the index of the class does with a second order of an id is not modelled, only the two queues.
- Outboxes.OutboxWorker.PublishOutboxBatch: which writes fail is a parameter; rows of other event types do not exist, because only placements write outbox rows.
- Injectors.DirectOrderInjector.UpdateQuotes: ids, clock and failing writes are parameters; prices and quantities are text as quoted.
- `Decimal::operator/` and `Decimal::toFixed` (Engine/src/decimal.cpp:90-97 and 121-135): no engine code calls them.
- Redis, Kafka, Postgres, Express, WebSocket and file access, with Engine/src/main.cpp, Engine/src/snapshot.cpp and the consumers around them: the stream and the channel are sequences, and delivery on the event channel is assumed complete and in order.
- The order book cache that the writer keeps in Redis (Server/src/workers/dbWriter.ts:452-457).
- Closing a position through the API, which places an order without a reservation (Server/src/routes/positions.ts:72-124).
- Position flips: what a fill exceeds the position by is dropped by the source, so nothing more is stated about it.
- The market maker's pricing and risk checks, in floating point, and the bots.
- Authentication, routes, schema, seed data and the user interface.
