# Verified model of the exchange's accounting, pricing and risk core

The repository runs a paper-trading competition: teams place orders against a dealer that quotes each stock
around a moving price, may sell short on margin, and are bought back by a risk desk when they cannot carry
their shorts. This project models the path an order takes from the funds check to a booked fill, the
slippage walk that prices it, the margin and forced-cover logic, the corporate actions, the market's day
clock, the per-team lock protocol and the final table, and proves what they promise.

## How it is laid out

| file | what it models |
|---|---|
| Money, Fees | rounding on the storage, settlement and tick grids; charges on a fill |
| Books, Totals | cash, ledger and positions of one team, as values and as classes updated in place |
| Risk, Sizing | valuation, margin states, the funds check, and what it makes of the quantity slider's offers |
| Reconcile, Audit | the books reconcile over every run of ledger events, and every team run is such a run, its fills the recorded ones |
| Pricing, Walk, Limits | quotes, the slippage walk, what it comes to in liquidity and spread, and the closed form for limit orders |
| Liquidation, RiskDesk | the forced-cover plan, carrying it out at real prices, busting a team, borrow fees |
| Orders, OrderLaws, Traces | submit, try to execute, sweep, cancel; what each step and each whole run keeps |
| Outcomes | exactly what becomes of an order that is placed, and of a working one that is swept |
| Gates | what may trade and when, and what a request leaves behind |
| Offers | when an order placed is filled or rejected, and so one for the quantity the slider offers |
| Exchange | the `Order` and `Team` objects whose methods do what those functions say |
| Tape, Corporate | prices under ticks, jumps, new days, halts, dividends, splits and undos |
| Clock | the market's day, freezing and resuming |
| Locks | requests interleaved at every await, under one lock for each team |
| Results | drawdown and the ranked final table |

State that the code updates in place is a class (`Books.Position`, `Books.Account`, `Exchange.Order`,
`Exchange.Team`, `Tape.Instrument`, `Clock.MarketEngine`); each method's postcondition equates the new value
with a specification function of the old one, and the laws are proved about those functions.

## Units and standing assumptions

- Money is an `int` of micro-rupees (the six-decimal storage grid); cash and charges live on the paisa grid,
  prices on an instrument's tick grid. Percentages are in millionths of a per cent, the spread in
  millionths of a basis point, time in microseconds. Division is exact and followed by one rounding, half
  away from zero; the 34 significant digits the program computes with make that faithful at its magnitudes.
- A tick is a positive whole number of paise; instruments' last prices are positive and on their tick grid;
  spreads and fee rates are not negative. Several laws are stated for every input and need none of this.
- The target of forced covering (`liquidate_to_pct`) is positive: at zero the program divides by zero.
- Laws that need it ask for cash in whole paise, distinct rows, a limit on the tick grid or the order accounts
  (`OrderLaws.TeamOk`); a new team has them and every step keeps them (`Traces.StepKeeps`).
- The marks an order or the risk desk uses are the instruments' last prices at that moment.
- The random walk's multiplier is an arbitrary positive fraction.
- A commit is one atomic step; the tables are sequences and maps.

## Where the code and its own words differ

- The comment on the largest slippage says a larger order is rejected (`app/engine/pricing.py:33-36`); the walk
  caps the step and fills it (`:222-223`). `Offers.PastATenthFills` is an order that reaches the cap and fills,
  and `Offers.SubmitOutcome` says exactly when any order is refused: the cap is no part of it, only acceptance,
  the order's own tolerance and its funds, as `Offers.SizeAloneNeverRefuses` puts it without a tolerance.
- The quantity slider's "max" is said to be always placeable (`app/risk.py:210-212`), and a whole short always
  to be coverable (`app/risk.py:221-224`). Neither holds. Offers are refused for charges
  (`Sizing.SmallBuyRefused`; `Fees.DefaultBuyCharges` shows that every buy worth Rs 800 to Rs 75,100 is charged
  more than the 0.15 per cent assumed), for want of cash (`Sizing.CoverRefused`), for the spread
  (`Sizing.SaleRefused`), for the cap on one order (`Offers.CappedOfferRefused`) and for the slippage of their
  own size (`Offers.WalkedOfferRefused`). `Offers.OfferIsTaken` says exactly when each kind of offer is filled.
- A dividend is said to leave account values exactly where they were, and a split to make nobody richer or
  poorer (`app/routers/admin.py:1396-1398`, `:1493-1494`). `Corporate.DividendNeutral` and
  `Corporate.SplitNeutral` say exactly when they do: for a dividend, when it is a whole number of ticks; for a
  split, when what snapping the price adds to the new shares is what the dropped fraction was worth, so for a
  holding left whole when the scaled price is a whole number of ticks. `Corporate.SmallDividendIsAGift` and
  `Corporate.ThreeForOneIsAGift` show one of each that does not.
- "Never under one tick" holds for ticks and jumps, but a dividend or a split can round a price to zero:
  `Tape.SurvivesExactly` says exactly when it does not, `Tape.DividendCanEraseAPrice` shows one that does. An
  undo restores a price that was itself on the tape (`Tape.UndoSurvives`).

## Model

| member | source | states |
|---|---|---|
| Money.RoundDivHalfAway | app/money.py:50-62 | an integer is the rounded quotient exactly when it is within a half of it and, on a tie, the one further from zero |
| Money.RoundDivMono | app/money.py:50-62 | rounding preserves order |
| Money.PaiseExact | app/money.py:55-62 | settling an amount that is already in whole paise changes nothing |
| Money.RoundToTickGrid | app/money.py:65-76 | a snapped price is on the grid, within half a tick, and itself if it was on the grid |
| Money.RoundToTickBetween | app/money.py:65-76 | bounds that are on the grid survive snapping, on both sides |
| Money.RoundToTickMono | app/money.py:65-76 | snapping preserves order |
| Fees.FeesSettle | app/fees.py:39-74 | charges are a whole number of paise and, with non-negative rates, never negative, in every mode and on both sides |
| Fees.ItemisedNearExact | app/fees.py:56-74 | for any schedule and side the itemised total is within three paise, plus the GST rate on a paisa, of the unrounded schedule (capped brokerage, each levy on its side, GST on brokerage and exchange charge) |
| Fees.ChargesNearExact | app/fees.py:39-74 | what is charged: nothing with charges off or a value that is not positive, the flat rate to half a paisa in flat mode, otherwise the unrounded schedule to the bound of its items, on both sides |
| Fees.DefaultBuyCharges | app/config.py:142-162 | the default schedule charges a buy at most 0.15404% plus four paise, at most 0.15% from Rs 75,400, and more than 0.15% from Rs 800 to Rs 75,100 |
| Books.Position.ApplyDelta | app/engine/matching.py:83-118 | growing, shrinking and flipping a signed position: an addition realises nothing and averages the costs to the nearest micro-rupee; a close realises price less cost on the shares closed, signed by the holding, and leaves the cost of the rest, 0 when none is left; a flip realises all of it and reopens at the fill price; the P&L returned is the change in the tally |
| Books.Account.PostLedger | app/engine/matching.py:121-148 | cash moves by the settled amount and one row with the new balance is appended |
| Books.Account.GetPosition | app/engine/matching.py:151-161 | the team's own row for a symbol, or a flat one appended, with no other row touched |
| Books.Account.BookFill | app/engine/matching.py:206-253 | position, position charges, trade row, fee row and cash after a fill, together |
| Reconcile.NettedBasis | app/engine/matching.py:97-118 | netting in a fill accounts for its cash exactly, except for half a micro-rupee a share when it opens or adds |
| Reconcile.EveryFillMoves | app/engine/matching.py:83-118 | at every point of every run of ledger events a fill moves the cost, realised P&L and quantity of its own stock's row case by case as `Books.Position.ApplyDelta` says |
| Reconcile.PositionsAreTheirFills | app/engine/matching.py:83-118 | over any run a position is the sum of its signed fills, scaled by its splits |
| Reconcile.Reconciles | app/engine/matching.py:121-148 | over every run of fills, cash movements and whole-share splits: cash is the ledger, each balance is a prefix sum, and equity is what was paid in plus realised plus unrealised P&L to within half a micro-rupee for each share re-averaged, reducing and flipping fills adding none |
| Audit.StepExplained | app/engine/matching.py:189-267 | the ledger events of a step explain its books, where those of an order, sweep, cancel, forced cover or bust are exactly the fills it adds to the fill table, and an adjustment, dividend, research purchase, borrow fee or split is its own one event |
| Audit.HistoryIsTheFillTable | app/engine/matching.py:214-228 | over every run the fills among its ledger events are the recorded fills, in order |
| Audit.TeamReconciles | app/engine/matching.py:189-267 | the books of a new team after any run are what the run's own ledger events make of the opening balance: cash is the ledger, balances are prefix sums, positions are net fills and splits, and equity is what was paid in plus realised plus unrealised P&L to within half a micro-rupee for each share those events re-average |
| Audit.PositionsAreTheFillTable | app/engine/matching.py:83-118 | after any run a position in a stock that was not split is the signed sum of the recorded fills in it |
| Audit.FillTableReconciles | app/risk.py:130-166 | after any run without splits the drift in equity is at most half a micro-rupee for each share that replaying the recorded fills re-averages |
| OrderLaws.FillIsRecorded | app/engine/matching.py:189-247 | a fill is recorded with its order, side, quantity, price and the P&L it realised, which is price less cost on the shares closed and nothing on an addition; no row of another stock moves |
| Traces.TalliesAreTheirFills | app/engine/matching.py:189-247 | over every run of a new team the realised P&L and charges of each position are the sums of those of its recorded fills, splits included |
| Risk.Valuate | app/risk.py:117-166 | the one-pass valuation equals the sums over positions of long value, short value, unrealised and realised P&L, with a missing price marked at cost |
| Risk.ValuedAtMarks | app/risk.py:117-166 | the valuation is cash and the position sums written out: longs and shorts at their marks, or at cost where there is none, and the difference to cost |
| Risk.MarginStateExactly | app/risk.py:64-74 | exactly when each margin state applies: BUST without equity, CALL under the maintenance level, WARNING between it and the warning level, OK otherwise or with nothing short |
| Risk.EquityIsCashPlusExposure | app/risk.py:152 | equity is cash plus the signed value of every position |
| Reconcile.GapIsCostError | app/risk.py:130-166 | equity less what was paid in, realised and unrealised P&L is exactly the rounding accumulated in average costs |
| Risk.FundsCheckIsRevaluation | app/risk.py:169-198 | the incremental projection equals the available funds of the whole account revalued with the fill booked, for buys, sells, covers, new shorts and flips |
| Risk.AvailableCapsLeverage | app/risk.py:151-153 | non-negative available funds mean short value is at most 100 / initial% of equity, to within the storage grid |
| Risk.FundsCoverMargin | app/risk.py:64-74 | available funds are non-negative exactly when cash net of shorts covers the margin required, and then no margin state but OK applies to an account worth anything |
| Risk.FillMovesEquityByTheGap | app/risk.py:151-153 | a fill changes equity by the signed gap between mark and fill price times quantity, less charges, and by nothing else |
| Sizing.FundedExactly | app/risk.py:169-198 | any order passes the funds check exactly when cash paid, charges and what its new shorts are worth with their margin exceed unrounded available funds by less than half a micro-rupee |
| Sizing.OfferIsTheLargest | app/risk.py:201-233 | closing offers the whole holding; opening or adding offers the largest quantity whose price, or initial margin, with 0.15% on top fits in available funds |
| Sizing.OfferIsFunded | app/risk.py:201-233 | exactly when the quantity offered at one price passes the funds check filled at any price, for opening or adding a long, covering, closing a long, and opening or adding a short |
| Sizing.CashOffers | app/risk.py:220-233 | in whole micro-rupees: a buy that opens or adds passes the funds check exactly when charges are at most available funds less the price filled at, a closing sale exactly when they are at most available funds and proceeds together |
| Sizing.MaxIsFunded | app/risk.py:220-233 | opening or adding any quantity up to the one offered at the price it fills at passes the funds check whenever the 0.15% assumed covers the charges and, for a sale under the mark, value and margin of the gap |
| Sizing.LargeBuysAreFunded | app/risk.py:220-233 | under the default schedule every buy that opens or adds, up to the quantity offered at the price it fills at, passes the funds check from Rs 75,400 upwards |
| Sizing.CoversAreFunded | app/risk.py:221-224 | buying back all or part of a short passes the funds check from non-negative available funds if price and charges stay within the value and margin it gives back |
| Sizing.SmallBuyRefused | app/risk.py:210-212 | an offered buy of one share that the default charges have refused |
| Sizing.CoverRefused | app/risk.py:221-224 | an offered cover of 1,000 shares, free of charges and with no margin trouble, that is refused |
| Sizing.SaleRefused | app/risk.py:226-233 | an offered short sale, free of charges, that the spread has refused |
| Offers.SubmitOutcome | app/engine/matching.py:518-657 | exactly what becomes of any new request, of every type: FILLED when accepted, able to fill whole at once, within tolerance and funded at the price it fills at; REJECTED when not accepted, or what could fill at once is out of tolerance or not funded; otherwise it rests |
| Outcomes.PlaceOutcome | app/engine/matching.py:518-657 | the whole state a new request leaves, of every type: REJECTED if not accepted; recorded if its trigger has not been reached; filled, at least in part, exactly when it is at the touch of an open market, its owner accepts the price and available funds would not be negative afterwards; REJECTED if it is at the touch and not; otherwise resting |
| Outcomes.StopEnters | app/engine/matching.py:621-627 | an accepted stop stays PENDING exactly when the last price has not reached its trigger, and then recording it is all that happens |
| Gates.AcceptsExactly | app/engine/matching.py:579-617 | exactly which requests are accepted: listed, tradable and not locked on that side, an active team, a market that is open or, but for market orders, about to open, a quantity in range and in lots, limit and trigger positive and on the tick grid where needed |
| Offers.TakenExactly | app/engine/matching.py:435-515 | a market order fills exactly when it is accepted, within tolerance and passes the funds check, all at the price its whole quantity fills at |
| Offers.OfferIsTaken | app/routers/trading.py:170-223 | exactly when a market order for the whole quantity offered at a previewed price is filled, cap, lots, tolerance and slippage included, for either side of any holding |
| Offers.OpeningIsTaken | app/risk.py:220-233 | up to the quantity offered at the price it fills at, with charges and gap within the 0.15% assumed, an opening order fills exactly when accepted and within tolerance |
| Offers.LargeBuyIsTaken | app/risk.py:220-233 | under the default schedule so does a buy of Rs 75,400 or more that opens or adds |
| Offers.CoverIsTaken | app/risk.py:221-224 | so does a cover whose price and charges stay within what it gives back |
| Offers.CappedOfferRefused | app/engine/matching.py:359-363 | an offer of 19,970 shares that the cap on one order has rejected |
| Offers.WalkedOfferRefused | app/routers/trading.py:170-223 | two shares offered on the preview of one, within tolerance, that the walk has refused for funds |
| Offers.SizeAloneNeverRefuses | app/engine/pricing.py:220-234 | without a tolerance a market order fills exactly when it is accepted and passes the funds check, however far its walk goes |
| Offers.PastATenthFills | app/engine/pricing.py:33-36 | an order whose walk reaches the cap of a tenth, and fills |
| Pricing.QuoteStraddles | app/engine/pricing.py:61-73 | bid <= last <= ask, both on the tick grid |
| Walk.QuoteIsHalfTheSpread | app/engine/pricing.py:61-73 | bid and ask are the ticks nearest to half a spread under and over the last price |
| Pricing.FillQuote | app/engine/pricing.py:189-234 | the slice-by-slice walk returns the price and the number of slices of the share-by-share form `FillPrice`, which the laws of `Walk` pin down |
| Walk.FillIsTheMean | app/engine/pricing.py:189-234 | a fill is at the tick nearest the mean of what its shares cost one by one, where a slice holds as many shares as the liquidity is worth at the touch (at least one) and each slice is half a spread further away, a tenth at most and never under a tick; it takes as many slices as hold it |
| Walk.TouchHolds | app/engine/pricing.py:207-218 | an order worth no more than the liquidity at the touch, or any order where nothing slips, fills in one slice at exactly the touch |
| Walk.NextShareIsWorse | app/engine/pricing.py:213-230 | the first share past the liquidity at the touch is strictly worse when there is a spread: always for a buy, for a sale from any touch above one tick |
| Walk.EachShareIsASlice | app/engine/pricing.py:213-218 | when two shares are worth more than the liquidity every share is a slice of its own |
| Pricing.PriceWorsensWithSize | app/engine/pricing.py:213-230 | a larger order never gets a better price, buying or selling |
| Pricing.PriceBounds | app/engine/pricing.py:207-230 | a fill price is on the tick grid and no better than the touch; from a positive touch it is within a tenth of it snapped to a tick and never under one tick; any other touch is the price |
| Pricing.PriceFloor | app/engine/pricing.py:61-73 | a buy never fills under one tick, and a sale of any size exactly when the bid before snapping is at half a tick or more |
| Limits.LimitHolds | app/engine/matching.py:273-305 | any quantity up to the closed form fills share by share at or better than the limit, so the clamp on the walk's price never changes it |
| Limits.LimitIsTight | app/engine/matching.py:297-305 | one share more opens a slice strictly worse than the limit, exactly when the limit is less than a tenth from the touch and, for a sell, above one tick |
| Liquidation.SortedShortsAreTheShorts | app/risk.py:259-266 | the shorts considered are exactly the priced ones, by rising unrealised P&L, those that have lost the same in the order of the book |
| Liquidation.LiquidationPlan | app/risk.py:243-288 | the loop returns the greedy plan `Plan` |
| Liquidation.TakeBounds | app/risk.py:276-284 | a leg takes at least one share and at most the position, one share fewer would miss the target, and less than the whole position is taken only when the target is met |
| Liquidation.PlanOnBook | app/risk.py:259-288 | on any book, unpriced shorts and worthless stocks among its rows, the legs follow the coverable shorts by descending loss, which each leg records, all but the last whole, none beyond its size; short of the target, every coverable short is covered whole |
| Liquidation.PlanIsMinimal | app/risk.py:268-288 | one share fewer in the last leg would miss the target |
| Liquidation.CoveringRestores | app/risk.py:268-288 | buying the plan back at the marks leaves revalued equity unchanged and, if it is positive, the margin state OK |
| OrderLaws.ExecutedFill | app/engine/matching.py:435-515 | an executed order fills some of what remains at a tick-grid price no better than the touch or the mark and no worse than its limit; market orders fill whole; with funds enforced the result is affordable |
| OrderLaws.ExecutedMoney | app/engine/matching.py:435-515 | an executed fill changes equity by exactly the signed gap less charges, never upwards, and with funds enforced leaves available funds at or above zero |
| OrderLaws.FillKeeps | app/engine/matching.py:255-262 | booking a fill keeps every order's accounts: filled quantity is the sum of its fills, average within half a micro-rupee a fill of the true mean and within the limit, FILLED exactly when complete |
| OrderLaws.SubmitKeeps | app/engine/matching.py:518-657 | submitting keeps the order accounts, changes no terminal order, raises no equity and books only affordable fills |
| OrderLaws.SweepOneKeeps | app/engine/market.py:457-500 | so does the engine's look at one working order |
| Outcomes.SweepOutcome | app/engine/market.py:457-500 | the whole state a sweep of a working order leaves: untouched while its trigger is not reached; filled, at least in part, exactly when it is at the touch of an open market on a side that is not locked and available funds would not be negative afterwards; CANCELLED exactly when they would be; otherwise left working, a woken stop TRIGGERED |
| Outcomes.FillableAtTouch | app/engine/matching.py:466-488 | something of a working order can fill exactly when it has no limit or its limit is at a positive touch or through it; the price is that of the walk and respects the limit |
| Outcomes.StopWakes | app/engine/market.py:457-484 | swept in a stock that is not halted or suspended a dormant stop wakes exactly when the last price has reached its trigger, and until then nothing changes |
| Outcomes.SweepLeaves | app/engine/market.py:442-470 | a terminal order, or one in a stock that is unknown, halted or suspended, is left alone |
| OrderLaws.CancelKeeps | app/engine/matching.py:660-668 | a cancel makes an open order CANCELLED, keeping what it has filled; books, fills, every other order and a terminal one are untouched |
| Traces.StepKeeps | app/engine/matching.py:189-267 | every step of a team keeps the order accounts and continues its history |
| Traces.OrdersAreTheirFills | app/engine/matching.py:255-262 | over every run of a new team each order's filled quantity, status and average are those of its fills; REJECTED orders have none |
| Traces.SweepIsARun | app/engine/market.py:442-500 | the pass over a team's working orders is the run that sweeps each in turn, and leaves a team that is not active alone |
| Traces.RetryChangesNothing | app/engine/matching.py:544-555 | a client id that was ever recorded stays recorded, so submitting it again changes nothing, whatever happened between |
| Traces.StopsWait | app/engine/matching.py:312-318 | in any run a stop order that is triggered or has a fill was woken by one step, dormant or not yet placed before it, in whose market the last price was at or above the trigger of a buy, at or below that of a sell |
| Traces.BustKeeps | app/engine/riskdesk.py:201-245 | busting a team keeps the order accounts and leaves it out, with no working order |
| Traces.OutForever | app/engine/matching.py:582-591 | absent an operator override, a team that is out never has a working order or a new fill again |
| Traces.NoMoneyPump | app/engine/matching.py:435-515 | at fixed prices no sequence of orders, sweeps and cancels raises equity or takes available funds below zero |
| Traces.FundedFillIsCovered | app/engine/matching.py:386-418 | every fill the funds check lets through leaves the team within its leverage cap, not worth less than nothing, and in no margin warning or call |
| Traces.NoSelfInflictedCall | app/engine/matching.py:386-418 | at fixed prices no sequence of orders brings on a margin warning or call |
| Gates.FillsOnlyWhenAllowed | app/engine/matching.py:459-464 | in any run every fill, forced covers and square-offs included, was booked by a step handed a market that was open and in which its stock was ACTIVE, or at its upper circuit and the fill a sale, or at its lower circuit and the fill a buy |
| Gates.SubmitRecords | app/engine/matching.py:579-657 | a new request leaves exactly one row with its terms and touches no other; a REJECTED row has no fill and an untouched book; any other row has a quantity in range and in lots and prices on the tick grid, for an active team in a listed tradable stock with the market open or about to open; a market order ends FILLED or REJECTED |
| Gates.ToleranceRespected | app/engine/matching.py:490-500 | a market order that fills when placed fills within its slippage tolerance of the touch |
| OrderLaws.CancelWorkingKeeps | app/engine/riskdesk.py:239-242 | cancelling working orders cancels exactly the open ones in scope, touches nothing else, keeps the order accounts and changes no terminal order |
| Traces.ResearchIsPaidFor | app/routers/trading.py:461-494 | a report is sold exactly for cash in hand: its cost is paid and recorded and cash stays at or above zero; without the cash nothing changes |
| RiskDesk.CoverLegsEffect | app/engine/riskdesk.py:127-160 | bought at real prices, in any market, each leg whose stock can be bought fills whole, each stock moves by exactly the planned shares of it, no short turns long, and equity falls by exactly what the covers cost in spread, slippage and charges |
| RiskDesk.PlanNonempty | app/risk.py:268-288 | with the target at or above maintenance, a team in CALL or BUST with a short has something to buy back |
| RiskDesk.LiquidateProgress | app/engine/riskdesk.py:106-198 | an acting sweep covers at least one share and never flips a short, unless the team is out |
| RiskDesk.ActsExactly | app/engine/riskdesk.py:106-126 | the desk acts exactly on an active team that is worth nothing, or is short with equity under the maintenance level |
| RiskDesk.LiquidateOutcome | app/engine/riskdesk.py:106-198 | in any market a team in trouble has exactly the planned shares covered of each short that can be bought now, and is BUSTED exactly when those covers cost its equity or more; otherwise it stays in with what is left, and a team not in trouble is untouched |
| RiskDesk.SurvivesItsCovers | app/engine/riskdesk.py:52-198 | at fixed prices, in any market and over any number of ticks, a team worth more than its covers cost in spread, slippage and charges is never busted, and is poorer by exactly that |
| RiskDesk.DeskSettles | app/engine/riskdesk.py:52-198 | at fixed prices in an open market where each shorted stock can be bought, in as many ticks as it has shares short a team ends as it was with no shorts or out of trouble, or some tick found it in trouble with no more equity than its covers cost; one that was never in trouble is left alone |
| RiskDesk.BustFlattens | app/engine/riskdesk.py:205-245 | in any market a busted team is out of every position whose closing side can be dealt in and keeps the rest as they were; where each can be, it keeps none |
| RiskDesk.BorrowFees | app/engine/riskdesk.py:271-281 | the loop adds up the fees of the priced shorts, each settled on its own |
| RiskDesk.BorrowNearExact | app/engine/riskdesk.py:248-294 | the day's fee is a whole non-negative number of paise, within half a paisa for each short of the rate on the value borrowed, and nothing without shorts |
| RiskDesk.BorrowCosts | app/engine/riskdesk.py:283-291 | charging it lowers equity and cash of an active team by exactly what is due, of any other by nothing, and moves nothing else |
| Exchange.Order.BookFill | app/engine/matching.py:255-262 | filled quantity, weighted average, charges and status after a fill |
| Exchange.Team.ExecuteFill | app/engine/matching.py:189-267 | cash, position, ledger, order and fill record move together |
| Exchange.Team.CheckFunds | app/engine/matching.py:386-418 | refuses exactly when the fill would leave available funds below zero |
| Exchange.Team.PriceOrder | app/engine/matching.py:466-488 | how much could fill now and at what price |
| Exchange.Team.TryExecute | app/engine/matching.py:435-515 | nothing, a refusal that changes nothing, or the fill |
| Exchange.Team.Replayed | app/engine/matching.py:544-555 | finds a client id exactly when some order carries it |
| Exchange.Team.SubmitOrder | app/engine/matching.py:518-657 | the whole submission: replay, refusal recorded as a REJECTED row, dormant stop, fill or rest |
| Exchange.Team.SweepTeamOrders | app/engine/market.py:442-500 | the pass over an active team's working orders does to each in turn what `Outcomes.SweepOutcome` says |
| Exchange.Team.CancelOrder | app/engine/matching.py:660-668 | cancels an open order, refuses a terminal one |
| Exchange.Team.LiquidateTeam | app/engine/riskdesk.py:106-198 | plan, cover leg by leg, revalue, bust if nothing is left: the step of `RiskDesk.LiquidateOutcome` |
| Exchange.Team.BustTeam | app/engine/riskdesk.py:201-245 | close every tradable position, cancel what is working, mark the team out |
| Exchange.Team.ChargeBorrowFees | app/engine/riskdesk.py:248-294 | one ledger row for the day's borrow fees of an active team |
| Exchange.Team.BuyResearch | app/routers/trading.py:453-494 | a report is sold only for cash in hand |
| Tape.Instrument.ApplyBand | app/engine/pricing.py:160-177 | the clamped price and the circuit status of a proposed price |
| Tape.Instrument.Tick | app/engine/market.py:286-301 | one engine tick of one instrument, with the day's range following |
| Tape.Instrument.Jump | app/engine/market.py:247-275 | an instant jump, or a finished move, lands on its target held to the band |
| Tape.Instrument.GoEx | app/routers/admin.py:1449-1452 | price, reference and previous close marked ex-dividend |
| Tape.Instrument.StartDay | app/engine/market.py:743-752 | a fresh reference and day range, circuits cleared |
| Tape.Instrument.Split | app/routers/admin.py:1521-1523 | the day's price fields scaled and snapped |
| Tape.Instrument.SetBandPct | app/routers/admin.py:415-433 | a new band width; nothing else changes until the next price change |
| Tape.Instrument.Undo | app/routers/admin.py:461-465 | the price put back, snapped |
| Tape.BandedHolds | app/engine/pricing.py:160-177 | any grid price is brought inside the rounded band with the status of the side it touched; halted stocks do not move |
| Tape.BandIsAPercentage | app/engine/pricing.py:160-177 | the edges of the band are the ticks nearest to so many per cent under and over the day's reference |
| Tape.MoveLands | app/engine/market.py:239-301 | a tick takes a trading stock to the tick nearest the multiplied price, a jump to the one nearest the operator's price or percentage, or to the edge of the band, marked so, when that is at or past it; the day's range follows a tick; nothing else changes |
| Tape.CorrectionLands | app/routers/admin.py:1449-1523 | a dividend takes its amount off the price and makes that the reference and previous close, a split scales six prices by its ratio, an undo sets the price, each snapped to a tick; a new day keeps the price, measures the day from it and releases a circuit |
| Tape.TapeHolds | app/engine/market.py:239-301 | over any sequence of ticks, jumps, new days, halts, band changes and surviving corrections the price is on the grid and at least a tick; after a tick or jump of a trading stock it is in the band with the matching status; halted, only a correction moves it |
| Tape.BandPersists | app/engine/market.py:239-301 | once in its band a price stays in the band of the day through ticks, jumps, new days, halts, resumptions and dividends, until a split, an undo or a change of the band itself |
| Tape.PricesStayOnGrid | app/routers/admin.py:464 | no sequence of moves, dividends, splits and undos at all takes price or reference off the tick grid |
| Tape.SurvivesExactly | app/routers/admin.py:1449-1452 | a dividend, split or undo leaves price and reference at a tick or more exactly when they were at half a tick or more before snapping |
| Tape.DividendCanEraseAPrice | app/routers/admin.py:1409-1452 | a dividend under the price, so accepted, that takes a stock at its minimum price to zero |
| Tape.UndoSurvives | app/routers/admin.py:461-465 | undoing an action that began from a price on the tape restores that very price |
| Corporate.PayDividend | app/routers/admin.py:1409-1452 | every holder credited and every short debited, the price marked ex-dividend; refused, changing nothing, unless the amount is under the price |
| Corporate.SplitHolding | app/routers/admin.py:1514-1519 | one account's holding scaled to whole shares, cost scaled the other way, nothing else touched |
| Corporate.DividendNeutral | app/routers/admin.py:1409-1452 | a dividend changes equity by holding x (ex-price - price + amount), zero exactly when the team holds none or the amount is a whole number of ticks |
| Corporate.SmallDividendIsAGift | app/routers/admin.py:1396-1398 | an accepted dividend of two paise on a five-paisa tick that leaves the price alone and a holder two paise richer |
| Corporate.SplitNeutral | app/routers/admin.py:1504-1523 | a split changes equity by at most half a tick a new share plus less than one new share; by nothing exactly when what snapping the price adds to the new shares is what the dropped fraction was worth, which where no fraction is dropped is when the team holds none or the scaled price is a whole number of ticks |
| Corporate.ThreeForOneIsAGift | app/routers/admin.py:1493-1494 | a three-for-one split at Rs 100 that makes the holder of one share a tick richer |
| Clock.MarketEngine.Tick | app/engine/market.py:176-216 | the clock's part of one tick in every market state |
| Clock.MarketEngine.AdvanceClock | app/engine/market.py:680-711 | breaker expiry, close, last-day blackout |
| Clock.MarketEngine.MaybeStartNextDay | app/engine/market.py:719-730 | next day, or final after the last |
| Clock.MarketEngine.StartDay | app/engine/market.py:732-764 | a day starts in pre-open with its timer set and breaker and blackout cleared |
| Clock.MarketEngine.OpenTrading | app/engine/market.py:766-776 | the open, with its timer |
| Clock.MarketEngine.CloseDay | app/engine/market.py:778-808 | the close, with the timer of the break |
| Clock.MarketEngine.Finalise | app/engine/market.py:810-823 | the end, with no timer |
| Clock.MarketEngine.Freeze | app/engine/market.py:825-837 | whole seconds left are kept and the timer stopped; nothing if frozen already |
| Clock.MarketEngine.Resume | app/engine/market.py:839-850 | the timer set again from the seconds kept |
| Clock.DaysOnlyAdvance | app/engine/market.py:176-216 | over any ticks, trips included, the day number never falls or passes the last day, each tick is a step of the day's cycle, and FROZEN and FINAL are fixed points |
| Clock.PhaseLasts | app/engine/market.py:176-216 | no phase is cut short: before its end, or with automatic advance off, a pre-open and a break stay as they are and a session goes on, its end unmoved and halted only by trips |
| Clock.PhaseEnds | app/engine/market.py:680-823 | at the first tick at or after its end each phase gives way to the next, with that one's own length to run; before it the last day goes into blackout exactly when little enough of it is left |
| Clock.HaltLasts | app/engine/market.py:683-694 | a trip halts the market for the whole length of the breaker, the session's clock running on, and the first tick at or after that reopens it |
| Clock.TickDescends | app/engine/market.py:680-730 | with automatic advance a tick at least one period later lowers days left, phase and ticks left in it and in a halt, or reaches FINAL, but for the halt that a trip may start |
| Clock.ReachesFinal | app/engine/market.py:680-823 | so every started day that is between days, pre-open, open or halted by the breaker leads to FINAL within a stated number of ticks at least one period apart, plus a breaker's worth for each trip |
| Clock.OthersStay | app/engine/market.py:176-216 | and no other does: frozen, final, or halted by an operator with no breaker to end it, a started day stays as it is |
| Clock.CompetitionTicks | app/engine/market.py:680-823 | a whole competition is FINAL after its days times the ticks its sessions last and three more a day, plus those of each trip |
| Clock.FreezingConserves | app/engine/market.py:825-850 | over any number of freeze and resume pairs open time is never gained and less than a second is lost for each; freezing twice is freezing once |
| Clock.ResumePicksUp | app/engine/market.py:825-850 | from any state to any state, a resumed day has the whole seconds that were left when it was frozen, and no timer if there were none |
| Locks.ExclusiveStep | app/db.py:107-115 | whoever is inside a locked section holds its team's lock and took it last |
| Locks.FreshStep | app/routers/trading.py:99-135 | what has been read inside a locked section stays equal to what is committed |
| Locks.EveryScheduleIsSerial | app/db.py:88-115 | under every interleaving of locked sections each team's state is that of its completed sections run serially in lock order, each once, rollbacks included |
| Locks.EveryJobCanFinish | app/db.py:107-115 | no deadlock: from any reachable state some schedule completes and releases every section |
| Locks.InvariantsSurvive | app/routers/admin.py:961-978 | whatever each locked section of a team keeps true is true of its committed state under every interleaving with any sections of other teams |
| Locks.NoJointOverspend | app/routers/trading.py:99-135 | no set of simultaneous orders, cancels and whole sweeps of a team's working orders takes its available funds below zero at fixed prices |
| Locks.SweepIsOneJob | app/engine/market.py:442-500 | the sweep of all a team's working orders, committed once, is one of those locked sections |
| Locks.NoJointOverdraft | app/routers/trading.py:453-494 | no set of simultaneous research buys takes cash below zero |
| Results.MaxDrawdown | app/results.py:120-140 | the one-pass fall is the maximum of curve[i] - curve[j] over all i <= j, and the percentage is that of the peak it fell from to the nearest millionth of a per cent |
| Results.ApplyRanking | app/results.py:258-280 | the sorted and stamped table |
| Results.TableIsDetermined | app/results.py:258-280 | the table holds every team once in strict order of the tie-breaks, ranked from 1, whatever order the results arrived in |
| Results.AheadMeans | app/results.py:258-276 | no busted team ranks above a survivor; survivors rank by account value, then drawdown, then trades; busted teams by how long they lasted |
| Results.AheadExactly | app/results.py:258-276 | exactly when one line is ahead of another: a survivor of a busted team, then account value, of busted teams the one that lasted longer, then drawdown, trades and registration |

## Left out

- HTTP handlers, authentication, WebSocket broadcasts, CSV and YAML loading, AI drafting, the terminals: input, output and glue.
- SQL, the ORM and its identity map: rows are values or objects, a commit is one step.
- Floating point in drift, volatility, impact and the risk-adjusted score: the price multiplier is arbitrary, the score is not modelled.
- Candles, snapshots, the index value, the leaderboard, depth ladders, day volume, the start price, awards: derived or for display.
- Scenarios playing, and recovery after a restart.
- The breaker's threshold: whether it trips is an input to a tick. That it lets every session close is not claimed, since it can trip again each time.
- That a split leaves the index unchanged is not claimed.
- Paths without the team lock are atomic steps of the accounting model (`Traces`) and are not in `Locks`: borrow fees at the close, dividends and splits, the cancelling of orders at the close, on a split and on a suspension, and an operator's change of a team's status.
- The unlocked first half of approving an adjustment, and the database row lock.
- Forced covers while a stock cannot be bought: their market orders stay PENDING until they are cancelled or swept. `RiskDesk.LiquidateOutcome` says what each look of the desk then does; `RiskDesk.DeskSettles` assumes the case away, since no number of ticks covers such a short.
- Notifications: rejection reasons, banners, the set of teams already warned, the distance to a call.
- The error raised for an unknown symbol: no row can be recorded, so the state is unchanged, and that is what the model says.
- Corporate.SplitHolding: models one account; the handler's loop over accounts repeats it.
- Tape.TapeHolds, Tape.BandPersists: require every dividend, split and undo in the sequence to survive rounding, because `Tape.SurvivesExactly` shows the rest do not keep a price at one tick.
- Audit.TeamReconciles: requires that no split in the run leaves the team a fraction of a share, because truncating one moves the books by its value; `Audit.PositionsAreTheFillTable` does not.
- Offers.OfferIsTaken: is about market orders; what becomes of a limit or stop order for the quantity offered is `Offers.SubmitOutcome`, since part of it may rest.
- Gates.FillsOnlyWhenAllowed: a sweep and the risk desk are handed a market state read before the team's lock, so a freeze committed in between is not seen by the step under way; "open" is the state it was handed.
- Clock.MarketEngine.Tick: takes one time for the whole tick, where the breaker and the freeze read the clock again.
- Results.ApplyRanking: models the in-place sort on a sequence of values, so aliasing between result rows is not captured.
