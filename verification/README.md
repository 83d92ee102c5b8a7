# Restaurant backend: verified model

A Dafny model of the parts of the restaurant backend that keep state or do real arithmetic, with
machine-checked proofs of what they promise. Services that update rows in place are classes whose
methods change fields; queries and formulas are functions; and the laws that span calls are lemmas.

| file | models |
|---|---|
| `Stock.dfy`, `Ledger.dfy`, `FefoOptimal.dfy`, `Alerts.dfy`, `LockOrder.dfy` | `app/services/inventory.py`: on-hand lots, movements, the earliest-expiry-first draw, low-stock alerts, product locks |
| `Idempotency.dfy` | `app/services/idempotency.py`: claims as interleaved transactions over one unique index |
| `Money.dfy` | `app/pricing/money.py`: conversion, rounding, the largest-remainder split |
| `Dates.dfy`, `Billing.dfy` | `app/services/billing.py` and `_add_months` of `app/services/income.py` |
| `BusinessDay.dfy`, `Rollup.dfy` | `app/services/business_day.py`, `demand.py`, `analytics_feed.py` |
| `EventCalendar.dfy`, `NormalDemand.dfy`, `Forecast.dfy` | the forecast pipeline |
| `Menu.dfy`, `Availability.dfy` | menu versions and what a till may sell |
| `Prelude.dfy` | sums, sorting, order-free folds |

How the source is represented:

- A table is a sequence or map held in a field; a row's primary key is its position; a unique index is
  a uniqueness invariant. A query is a function of the tables, and where its row order is the
  database's choice the result is compared as a multiset.
- A raised error is a failure result that leaves every field unchanged, because the request's
  transaction is rolled back. `MultipleResultsFound` is such a failure.
- Stock quantities are whole thousandths of a unit, with callers already at that scale. Decimal
  factors are exact reals and `_q` is an explicit rounding to 0.001, ties to even.
- Dates are day numbers, except in billing, where the calendar matters. `today`, `as_of` and `now`
  are parameters.

What the proofs found where the code does less than its wording suggests:

- Stepping a month at a time loses a long day for good (31 January, 28 February, 28 March), while
  `_add_months` recovers it. `Dates.SteppingMeetsClosedForm` says exactly when they agree.
- The "still in progress" answer of the idempotency re-select cannot be reached: a committed row is
  never in flight (`Idempotency.SelectDecides`). Only a lost second insert gives it.
- `adjust_stock` and `mark_waste_or_expiry` look a batch up without its expiry, so they are refused
  as ambiguous exactly when one batch code spans several lots (`Ledger.RefusedWhenBatchSpansLots`), which
  two receipts under different expiries bring about (`Ledger.TwoExpiriesBlockAdjustment`).
- A billing run commits only where it created an invoice, so it can lose an advance of the cursor when
  its session closes; `Billing.RerunCreatesNothing` shows that this changes no invoice, then or later.
- `apply_sale_deduction` ignores the batch code it is given (`Ledger.Ledger.ApplySaleDeduction`).
- A menu item that is no combo may list components, itself among them (`Menu.MenuService.AddItem`).

## Model

| member | source | states |
|---|---|---|
| Stock.Strip | app/services/inventory.py:670 | a stripped batch code is clean, and stripping a clean one changes nothing |
| Stock.StripTrims | app/services/inventory.py:670 | stripping removes the space at both ends and nothing else |
| Stock.GetItem | app/services/inventory.py:1002-1027 | none, the one, or several rows match; undated matches only undated when an expiry is asked for |
| Stock.ReLookupFindsSameRow | app/services/inventory.py:468-486 | looking a selected lot up again by its own batch code and expiry finds that very row |
| Stock.OrderSumIsAvailable | app/services/inventory.py:423-466 | summing the selected lots gives what the aggregate availability query gives |
| Stock.FefoOrderIsOrdered | app/services/inventory.py:423-442 | the draw order is earliest expiry first, undated last, then row id, over exactly the drawable lots |
| Stock.DrawRowsIsFefo | app/services/inventory.py:385-488 | drawing down that order removes exactly the quantity, empties every usable lot ordered before the last one touched, and leaves expired and later lots alone |
| Stock.FefoDrawUnique | app/services/inventory.py:385-488 | that description leaves one possible outcome |
| Stock.PostingConserves | app/services/inventory.py:644-815 | posting a delta with its movement keeps on-hand equal to recorded deltas for every product and batch |
| Stock.RedatingConserves | app/services/inventory.py:533-558 | re-dating a row keeps that balance although it writes no movement |
| FefoOptimal.DrawTakesUsable | app/services/inventory.py:385-488 | a draw takes exactly its quantity from what was usable that day and touches no other product or place |
| FefoOptimal.AnyDrawKeepsAtMost | app/services/inventory.py:385-488 | whatever the policy, what is left usable at a later date is at most a bound fixed by the stock before |
| FefoOptimal.FefoKeepsExactly | app/services/inventory.py:385-488 | earliest-expiry-first attains that bound at every later date at once |
| FefoOptimal.StepKeepsDominance | app/services/inventory.py:385-488 | stock usable at every date from today on stays at least the rival's across a receipt or dispatch |
| FefoOptimal.FefoServesWheneverAnyPolicyDoes | app/services/inventory.py:385-488 | on any timeline, if some policy over unexpired lots serves every dispatch, so does earliest-expiry-first, and it ends with no less usable stock at any date |
| FefoOptimal.FefoRunUnique | app/services/inventory.py:385-488 | events and starting stock leave one earliest-expiry-first run, so the ledger's own receipts and dispatches are that run |
| FefoOptimal.LedgerIsNeverShort | app/services/inventory.py:385-488 | however far the ledger has come through a timeline that some policy can serve, its next dispatch finds enough |
| Ledger.FindOrCreate | app/services/inventory.py:676-733 | select, upsert, select again ends at the one matching row or at a new one |
| Ledger.LoopMeetsSpec | app/services/inventory.py:463-488 | the loop's result has every property of the draw, with one movement per touched lot carrying what it lost |
| Ledger.DrawAlertsOnce | app/services/inventory.py:463-488 | a multi-lot draw lowers the product's total by its quantity and raises one alert if that crosses the level, else none |
| Ledger.Ledger.constructor | app/services/inventory.py:123-123 | an empty ledger balances |
| Ledger.Ledger.Book | app/services/inventory.py:735-815 | the new row table, the movement and the alert of one posting, keeping rows non-negative and unique, balanced, and alerts exact |
| Ledger.Ledger.GuardRefuses | app/services/inventory.py:975-1000 | who asks is checked first, then the place, then the product, each with its own error |
| Ledger.Ledger.ApplyDelta | app/services/inventory.py:644-815 | the one write path: every row that changes or opens, and the movement, is of the place, location type and product named in the call; which row that is, by how much it moves, and each way the call is refused with nothing changed |
| Ledger.Ledger.ReceiveStock | app/services/inventory.py:125-157 | a receipt grows by its quantity the one lot of the named place and type, product, batch and expiry, or opens it, and no state of the stock refuses it |
| Ledger.Ledger.AdjustStock | app/services/inventory.py:160-187 | a correction by batch code alone: it succeeds iff one row of the named place, product and batch, or a new one, can carry it, and then moves that row alone |
| Ledger.RefusedWhenBatchSpansLots | app/services/inventory.py:1002-1027 | a lookup by batch code alone is refused as ambiguous iff the code spans several lots |
| Ledger.TwoExpiriesBlockAdjustment | app/services/inventory.py:160-225 | after two receipts of one code under different expiries no adjustment or single-row removal of it succeeds |
| Ledger.Ledger.MarkWasteOrExpiry | app/services/inventory.py:190-225 | a removal from one row of the named place, product and batch: its exact outcome and errors |
| Ledger.Ledger.DrawFefo | app/services/inventory.py:468-488 | the loop ends where the recursive draw ends, movement for movement |
| Ledger.Ledger.TakeFrom | app/services/inventory.py:470-486 | one round debits the very row that was selected |
| Ledger.Ledger.DispatchFefo | app/services/inventory.py:385-488 | succeeds iff the quantity is positive, the place and product are the caller's, and the unexpired stock of exactly that place, type and product covers it; then exactly the quantity is taken from those rows, dated before undated and soonest first, with at most the one due alert; otherwise nothing changes |
| Ledger.Ledger.ApplySaleDeduction | app/services/inventory.py:491-530 | the same from branch stock, errors and alert included, whatever batch code is given |
| Ledger.Ledger.WasteFefo | app/services/inventory.py:228-348 | the same over rows that may be expired, optionally pinned to a batch or an expiry, with what is usable stated row by row |
| Ledger.Ledger.UpdateExpiry | app/services/inventory.py:533-558 | only that row's date changes; refused exactly for another place's row, or where another row has its product, place and batch with that date |
| Alerts.AlertLogIsExact | app/services/inventory.py:894-925 | an alert exists exactly for each removal that took the total of a watched product, at a place with staff, from above its level in units to at or below it |
| Alerts.AlertsAreEdgeTriggered | app/services/inventory.py:894-925 | between any two alerts for a product some positive movement took its total back above the level |
| Alerts.RemovalsAlertOnce | app/services/inventory.py:767-815 | a run of removals raises exactly one alert if it crosses the level as a whole, else none |
| LockOrder.SortLockOrder | app/services/inventory.py:35-44 | ascending, without repeats, the same products |
| LockOrder.LockOrderIsCanonical | app/services/inventory.py:35-44 | requests for the same products lock them in the same order |
| LockOrder.RunKeepsOrder | app/services/inventory.py:35-44 | no product is ever locked by two transactions |
| LockOrder.NoDeadlock | app/services/inventory.py:35-44 | in every reachable state with an unfinished transaction, some transaction can step |
| LockOrder.RunsAreBounded | app/services/inventory.py:35-44 | every run has at most as many steps as locks and releases, and has that many exactly when all have finished |
| LockOrder.FinishedHeldItsRequest | app/services/inventory.py:35-44 | a transaction that finishes has held the lock of every product of its request at some moment, and never any other |
| LockOrder.OppositeOrdersDeadlock | app/services/inventory.py:35-44 | without the order, two transactions taking any two locks in opposite orders can block each other for ever |
| Idempotency.StepKeepsInv | app/services/idempotency.py:79-160 | every step of every client keeps the index unique, keys and committed work in step, and answers recorded |
| Idempotency.ReachedKeepsInv | app/services/idempotency.py:79-160 | so does every interleaving of any number of clients |
| Idempotency.ExactlyOnce | app/services/idempotency.py:1-37 | work for a key commits at most once, a replay returns what that work stored for the same body, and no committed key is in flight |
| Idempotency.WorkIsWhatWasCompleted | app/services/idempotency.py:64-74 | over any run, each committed piece of work carries the response and status that its client passed to `complete`, in a step taken while it was at work, for its own key and body |
| Idempotency.ReplayIsWhatWasCompleted | app/services/idempotency.py:110-160 | so every replay answers with what a committed client of the same key and body passed to `complete`, a missing status reading as 200 |
| Idempotency.FreshKeyCommits | app/services/idempotency.py:64-108 | from any state, a first claim of a key can insert, complete with any answer and commit exactly that |
| Idempotency.CommittedKeysStay | app/services/idempotency.py:55-74 | a committed key keeps its stored response whatever runs afterwards |
| Idempotency.CommittedKeyIsNotReclaimed | app/services/idempotency.py:88-108 | after a key has committed no claim of it is at work in any later state, and one still to start loses its insert |
| Idempotency.SelectDecides | app/services/idempotency.py:110-160 | the re-select replays iff the stored body is the same, reports key reuse iff it differs, retries iff the key is gone |
| Idempotency.LateClaimIsAnswered | app/services/idempotency.py:88-160 | a claim that comes after the commit of its key, or waited for it, answers with the committed response for the same body and with key reuse for another |
| Idempotency.BlockedMeansHolderCanEnd | app/services/idempotency.py:88-108 | a waiting claim waits on an open transaction, and either way that one ends lets it through |
| Idempotency.RollbackFreesKey | app/services/idempotency.py:1-37 | a rollback frees the key for the next claim to work |
| Money.ConversionRoundTrips | app/pricing/money.py:85-105 | an amount converts iff it is some whole number of minor units, and the conversions are inverse |
| Money.ConversionIsHundredfold | app/pricing/money.py:75-105 | in the five known currencies an amount converts iff a hundred times it is whole; any other currency is refused |
| Money.IncrementsAreBest | app/pricing/money.py:108-129 | half modes give a nearest multiple with the stated tie rule; down and up the nearest on their side |
| Money.RoundToLandsOnMultiple | app/pricing/money.py:108-129 | the result is a multiple less than an increment away, multiples stay, debits mirror credits |
| Money.RoundToIsBest | app/pricing/money.py:108-129 | among all multiples of the increment, each mode gives the one its name says, for either sign, ties included |
| Money.SplitProportional | app/pricing/money.py:132-168 | the split meets its contract for any sign and for all-zero weights, and fails exactly on empty or negative weights |
| Money.ShareOut | app/pricing/money.py:157-168 | the loop gives each slot its floor or one more, extra units to the largest remainders, lower index first |
| Money.SplitConservesWithinQuota | app/pricing/money.py:132-168 | shares sum to the total, each is the floor or ceiling of its quota in magnitude, zero weight gets zero |
| Money.SplitIsFair | app/pricing/money.py:132-168 | more weight never gets less; equal weights differ by at most one, lower index first |
| Money.LargestRemaindersFirst | app/pricing/money.py:157-168 | whoever has the larger remainder, and of equal remainders the lower index whatever the weights, is rounded up first |
| Money.SplitIsUnique | app/pricing/money.py:132-168 | the contract has one answer |
| Money.SplitMirrors | app/pricing/money.py:154-168 | negating the total negates the split |
| Money.SplitIsOptimal | app/pricing/money.py:132-168 | no integers with the same sum deviate less in total from the exact proportional shares |
| Dates.KeysOrderDates | app/services/billing.py:18-25 | the numeric key orders dates as the calendar does |
| Dates.MonthsHaveTheirLength | app/services/billing.py:18-25 | month lengths and leap years are those of the Gregorian day count |
| Dates.ChainIsIncreasing | app/services/billing.py:18-25 | stepping by months always moves to a later date |
| Dates.SteppingMeetsClosedForm | app/services/income.py:89-93 | k single steps land in the closed form's month, never later; on its day iff no month passed is too short for it, so always up to the 28th |
| Dates.ClampingSticks | app/services/billing.py:18-25 | 31 January plus two steps is 28 March, while the closed form gives 31 March |
| Billing.ChainHasNoRepeats | app/services/billing.py:79-117 | invoices on the monthly chain are strictly later one after another |
| Billing.DueCountIsExact | app/services/billing.py:272-302 | the due count is exactly the number of chain dates up to `as_of` from the given one on |
| Billing.PendingIsExact | app/services/billing.py:288-302 | the cycles pending are exactly those dated not after `as_of` |
| Billing.CatchUpIsExact | app/services/billing.py:288-297 | on any books a catch-up ends after `as_of` and has invoiced exactly the due dates that had none, each once, unpaid, at the plan's amount; the count is those dates |
| Billing.CatchUpInvoicesDueDates | app/services/billing.py:288-302 | after a catch-up every due date has an invoice, the old ones stay, and each new one is unpaid, at the plan's amount, for a due date that had none |
| Billing.CatchUpsCompose | app/services/billing.py:272-302 | catching up to one day and then to a later one is catching up to the later one at once |
| Billing.RerunCreatesNothing | app/services/billing.py:288-302 | whether a run's advance was committed or, having created nothing, was lost, a rerun creates nothing and every later run ends as if nothing had been lost |
| Billing.CatchUpKeepsChain | app/services/billing.py:272-302 | on the monthly chain a catch-up adds exactly the due dates beyond the last invoice and stays on the chain |
| Billing.LostAdvanceStaysOnChain | app/services/billing.py:298-300 | where nothing was created, the old cursor still fits the invoices |
| Billing.SecondCatchUpIsIdle | app/services/billing.py:288-302 | a second catch-up to the same day adds nothing |
| Billing.PaymentKeepsChain | app/services/billing.py:198-241 | on the chain, paying the last invoice opens the next month and moves the cursor to it; any other toggle sets a flag and nothing else |
| Billing.Account.constructor | app/services/billing.py:28-45 | a new account has no invoices and its first cycle a month on, if it has a plan amount or a tier |
| Billing.Account.SeedSignupInvoices | app/services/billing.py:120-163 | on any books and day, adds the day's and the next cycle's invoice where missing, refused iff both exist; at signup this starts the chain |
| Billing.Account.SetInvoicePaid | app/services/billing.py:219-241 | the exact books after any toggle of any invoice; a gap-free prefix of the monthly chain with the last unpaid and the cursor at it or one beyond stays one |
| Billing.Account.EnsureNextUnpaidAfterPayment | app/services/billing.py:198-216 | on any books, the following month is open and the cursor is not before it |
| Billing.Account.GenerateInvoice | app/services/billing.py:244-269 | one cycle of any account: nothing unless due; else the cursor strictly advances and an invoice appears iff its date had none |
| Billing.Account.CatchUp | app/services/billing.py:291-297 | the loop ends with the caught-up books, the cursor after `as_of`, and the count of dates that had no invoice |
| Billing.Account.RunCycles | app/services/billing.py:288-297 | the inner loop, one cycle at a time until none is due, ends with the caught-up books and the count of invoices added |
| Billing.ProcessDueBillingCycles | app/services/billing.py:272-302 | an account's books change iff it was active, has a plan amount and had a cursor not after `as_of`; then its due dates are invoiced and its cursor is past `as_of`; the count is the invoices created, and past the last commit only cursors moved |
| Billing.BillingJob | app/jobs/billing_cycle.py:11-22 | after the session closes and loses what was not committed, the due dates of exactly those accounts are invoiced and counted, no other account has changed, a rerun would create none, and accounts on the chain still are |
| BusinessDay.DateIsTheWindowHolding | app/services/business_day.py:50-93 | a moment has a business day iff it lies in that day's window |
| BusinessDay.SmallHoursBelongToTheDayBefore | app/services/business_day.py:50-64 | by the wall clock, a moment before the cutoff hour belongs to the previous calendar date and any other to its own |
| BusinessDay.DaysPartitionTime | app/services/business_day.py:50-93 | windows are 24 hours and abut, and later moments never get an earlier day |
| Rollup.GroupsAreSold | app/services/demand.py:111-163 | the grouped queries have a row iff something was sold, or refused, that day |
| Rollup.JoinedMember | app/services/demand.py:111-128 | the join has a row for every line of every order and no other |
| Rollup.DemandRollup.RebuildRange | app/services/demand.py:95-215 | in the window there is a row exactly where a line of a sent, unrefunded order sold the product or a shortage refused it, with units and revenue summed line by line, the distinct orders and the refused units; every other row stays, and the count is the rows written |
| Rollup.DemandRollup.RunForBranch | app/services/demand.py:227-260 | the same for the branch's recent business days, the last being the one whose window holds now; it reports the window and the count |
| Rollup.DemandRollup.InsertRefusals | app/services/demand.py:192-211 | a refused product that sold nothing still gets a row, with zero units |
| Rollup.RebuildsDependOnlyOnCoverage | app/services/demand.py:95-215 | after any run of rebuilds a day's rows depend only on whether it was covered |
| Rollup.RebuildsEqualUnion | app/services/demand.py:95-215 | overlapping rebuilds in any order equal one rebuild of their union |
| Rollup.RollupMatchesHistory | app/services/analytics_feed.py:39-97 | rows with an order behind them are exactly the direct query's rows, with the same units and revenue |
| EventCalendar.Winner | app/services/event_calendar.py:327-338 | the largest matching multiplier, if any matches |
| EventCalendar.ActiveIsExact | app/services/event_calendar.py:181-202 | a day's query returns exactly the restaurant's events that cover it and are restaurant-wide or that branch's |
| EventCalendar.UpcomingIsExact | app/services/event_calendar.py:204-232 | a window's query returns exactly the events that reach some day of it |
| EventCalendar.FactorFromEvents | app/services/event_calendar.py:278-354 | the loop computes the fold of the events: multipliers compound, the lowest weight wins, each part is listed |
| EventCalendar.WeightIsLowest | app/services/event_calendar.py:300-305 | the weekday weight is the lowest of the listed events, or neutral |
| EventCalendar.MultiplierIsProduct | app/services/event_calendar.py:307-354 | the multiplier is the product of the listed parts, at most one per event |
| EventCalendar.FactorIgnoresOrder | app/services/event_calendar.py:278-354 | the order of events changes neither number and only reorders the parts |
| EventCalendar.ProductIgnoresOrder | app/services/event_calendar.py:278-354 | the product of the listed multipliers does not depend on their order |
| EventCalendar.FactorIgnoresOtherOverrides | app/services/event_calendar.py:254-276 | only the overrides of the listed events and this product matter |
| EventCalendar.PreloadedDayIsActive | app/services/event_calendar.py:181-231 | filtering a preloaded window to a day gives the events of the day's own query |
| EventCalendar.FactorFor | app/services/event_calendar.py:357-379 | the single-day convenience form |
| EventCalendar.DailyWeightIsLowest | app/services/event_calendar.py:300-305 | a day's weekday weight is the lowest of the events that reach the day, or neutral |
| EventCalendar.DailyPartsAreExact | app/services/event_calendar.py:307-354 | every part listed is that of an event that reaches the day: the product's own number if it has one, else the largest multiplier of a fitting tag; and every event that moves the product is listed |
| EventCalendar.DailyPartsAreCounted | app/services/event_calendar.py:307-354 | there are as many parts as events that reach the day and move the product |
| EventCalendar.PreloadRefinesDaily | app/services/forecast.py:329-363 | for every day of the window and every product the preloaded form gives the single-day factor, parts up to order |
| NormalDemand.QIsMonotone | app/services/normal_demand.py:119-120 | rounding to 0.001 never reverses an order |
| NormalDemand.QIsNearest | app/services/normal_demand.py:119-120 | rounding gives a nearest thousandth, and of two equally near the even one |
| NormalDemand.Snapshot.GetStats | app/services/normal_demand.py:231-253 | cached or not, the statistics are those of the inputs |
| NormalDemand.Snapshot.Predict | app/services/normal_demand.py:351-404 | after any calls, a prediction is what an uncached computation gives, and every field of it is what the normal days since the first sale say |
| NormalDemand.PredictionMeans | app/services/normal_demand.py:255-404 | the baseline is the 28-day mean that the assumption fills up, the weekday factor the mean of the counted days a multiple of seven from the day over the mean of all, slid by its trust and held to its band, the lift the refused units a day up to double |
| NormalDemand.CountSince | app/services/normal_demand.py:236-250 | counts exactly the normal days from the first sale on, missing days as zero |
| NormalDemand.NormalDays | app/services/normal_demand.py:481-518 | exactly the window's dates that no applicable event covers, in order |
| NormalDemand.LoadHistory | app/services/normal_demand.py:426-452 | the histories hold exactly the rollup's rows of the window, and the first-seen day is the earliest of them |
| NormalDemand.ReadAssumptions | app/services/normal_demand.py:454-464 | an entry for each asked product of the restaurant and no other |
| NormalDemand.Load | app/services/normal_demand.py:417-518 | a snapshot of what the tables say, row by row: the branch's sales and refusals of the 56 days before, the first day of each product, the assumptions of the asked products, and the days no event of the branch reaches |
| NormalDemand.WeekdayRatiosBalance | app/services/normal_demand.py:306-349 | raw weekday ratios weighted by weekday counts sum to the day count |
| NormalDemand.BlendFades | app/services/normal_demand.py:271-304 | the blend lies between assumption and average, and is the average from 28 days on and not before |
| NormalDemand.TrustIsShare | app/services/normal_demand.py:306-349 | trust in a weekday's ratio lies between nothing and everything |
| NormalDemand.SlideIsBetween | app/services/normal_demand.py:306-349 | a ratio is only slid toward neutral, never past it |
| NormalDemand.WeekdayFactorInBand | app/services/normal_demand.py:306-349 | the applied weekday factor stays in its band after rounding |
| NormalDemand.UnmetLiftIsBounded | app/services/normal_demand.py:358-376 | counting refusals never lowers a baseline and at most doubles a positive one |
| NormalDemand.ShadowIgnoresRefusals | app/services/normal_demand.py:351-404 | with the switch off, units, baseline and weekday factor do not depend on the refusals |
| NormalDemand.SwitchMakesShadowLive | app/services/normal_demand.py:351-404 | switching on makes the shadow figure the baseline and moves nothing else behind it |
| Forecast.MergeIsClampedBaseline | app/services/forecast.py:171-184 | the merged figure is baseline times the ratio clamped to [0.30, 5.00] for every baseline that can occur, and for which others (a negative one, which the schemas refuse) it is not |
| Forecast.HalfUpIsNearest | app/services/forecast.py:209-210 | suggested units are a nearest whole number, ties away from zero |
| Forecast.DirectLineMeans | app/services/forecast.py:137-240 | the same figures, field by field, of the line the daily lookups give |
| Forecast.MergeIsMonotone | app/services/forecast.py:171-184 | a larger baseline never merges to a smaller figure |
| Forecast.CappedMeansOutsideBand | app/services/forecast.py:171-201 | a line says it was capped iff a positive baseline met a ratio outside the band |
| Forecast.FigureStaysInBand | app/services/forecast.py:171-184 | whatever the multipliers, units stay between 0.30 and 5.00 times the baseline |
| Forecast.DialSpansNeutralToFull | app/services/forecast.py:165-169 | weight 1 applies the weekday pattern in full, weight 0 not at all, and between them never past either |
| Forecast.IfCountedNeverBelow | app/services/forecast.py:185-190 | the figure with refusals counted is never below the forecast, rounded or whole |
| Forecast.IfCountedIsWhatSwitchingGives | app/services/forecast.py:185-190 | what is shown as "if counted" is what the forecast becomes when the switch is turned on |
| Forecast.CatalogueIsExact | app/services/forecast.py:244-286 | a product is forecast iff it is sellable there, has history at the branch or an assumption unless all are included, and was asked for |
| Forecast.CatalogueKeepsOrder | app/services/forecast.py:244-286 | the catalogue lists its products in table order, none twice |
| Forecast.ForBranch | app/services/forecast.py:288-364 | from the tables alone: every day of the window has, in order, a line for every product of the catalogue, that of the daily lookups; its raw units are baseline times the weekday pattern as let through times the product of the multipliers it lists, its units the baseline times that ratio held to [0.30, 5.00], the comparison the same on the baseline with refusals, and its events exactly those of the day that move the product |
| Menu.HighestNo | app/services/menu.py:38-46 | the highest version number of the restaurant, or 0, so the next one is new |
| Menu.AddItemAcceptance | app/services/menu.py:72-154 | an item is accepted iff the draft is open, its kind fits, its price converts, its parts are simple items of the version and its groups are the version's own, linked once |
| Menu.AddGroupAcceptance | app/services/menu.py:157-189 | a group is accepted iff the draft is open, its bounds are in order and every option's product and price are good |
| Menu.PublishAcceptance | app/services/menu.py:192-203 | a publish is accepted iff the version is an open draft of the restaurant with at least one item |
| Menu.StepKeepsSound | app/services/menu.py:37-231 | every call keeps one live version per restaurant, unique numbers, and components that are simple items of their own version |
| Menu.RunKeepsSound | app/services/menu.py:37-231 | so does any run of calls, and versions only move forward |
| Menu.PublishedContentNeverChanges | app/services/menu.py:59-69 | once a version has left DRAFT no run changes its items, components, links or groups |
| Menu.PublishMakesLive | app/services/menu.py:192-231 | a publish makes exactly that version live for its restaurant and touches no other restaurant |
| Menu.LiveIsUnambiguous | app/services/menu.py:248-258 | reading the live menu never finds two |
| Menu.MenuService.constructor | app/services/menu.py:33-33 | an empty catalogue is sound |
| Menu.MenuService.CreateDraft | app/services/menu.py:37-56 | appends a draft in the default currency, numbered one above the restaurant's highest or 1 |
| Menu.MenuService.AddItem | app/services/menu.py:72-154 | succeeds iff all of that holds and then appends exactly the item asked for at its price in minor units; else it changes nothing and reports the first failing check |
| Menu.MenuService.AddModifierGroup | app/services/menu.py:157-189 | succeeds iff all of that holds and then appends exactly the group asked for with its options' prices in minor units; else it changes nothing and reports the first failing check |
| Menu.MenuService.Publish | app/services/menu.py:192-231 | succeeds iff the version is an open draft of the restaurant with an item; then it is published, the restaurant's live versions are archived and no other changes; each refusal has its own exact condition and changes nothing |
| Menu.MenuService.ArchiveLive | app/services/menu.py:206-217 | the loop archives exactly the restaurant's live versions |
| Menu.MenuService.GetPublished | app/services/menu.py:248-258 | returns the one live version, or not found iff there is none |
| Availability.OnHandMap | app/services/availability.py:60-82 | per product, the branch's in-date stock over all batches |
| Availability.OnHandIsDispatchable | app/services/availability.py:60-82 | that sum is what a dispatch on the same day could ship |
| Availability.ManualMap | app/services/availability.py:85-101 | the marks in force now; lapsed ones do not count |
| Availability.States | app/services/availability.py:104-198 | the two passes give every item of the version its own state |
| Availability.StateMeansSellable | app/services/availability.py:137-198 | a combo is available iff it has no live manual 86 and every component is available; a stock-gated item iff it has none and something can be shipped |
| Availability.StateAnswers | app/services/availability.py:104-198 | each state is the answer read off the mark rows and stock rows alone |
| Availability.Poll | app/services/availability.py:104-198 | from the tables to the answer, for any menu the authoring rules can produce: an item is available iff no unlapsed row marks it off and it, or every part of it, has no stock gate or in-date stock; with the count, the reason, the cause and the time the mark lapses |
| Availability.Board.SetManual | app/services/availability.py:201-246 | the mark replaces the item's own at that branch and changes no other, and each (branch, item) keeps one row |

## Left out

- Sub-scale quantities: `round_qty` and the unit rules of `app/services/units.py`; callers are taken to be at ledger scale.
- Database internals: SQL text, isolation levels and lock waits, except where a protocol is modelled as steps; ids are positions, so numbers that a rolled-back insert skips do not appear.
- Row locks inside the ledger's methods: calls run one after another, and the lock order is a separate state machine over abstract locks.
- `apply_dispatch` of the inventory service, the single-row form that `mark_waste_or_expiry` already shows, and the listing queries.
- Alert delivery: recipients, messages and links; only the decision to fire is modelled.
- The claim protocol is a state machine over steps instead of a class updated in place, because interleaving is what it is about; each client claims once and calls `complete` before its only commit.
- Canonical JSON and the hash of a request body: two bodies are the same when their hashes are.
- Decimal's 28-digit context and Python's year limits: arithmetic and dates are unbounded.
- Business days under daylight-saving changes, time-zone lookup and naive datetimes: the offset is constant.
- Billing off the monthly chain: `record_initial_payment`, edits of `next_billing_date` and clearing a plan amount are not modelled. The engine's contracts hold of any books, and the chain is claimed of accounts seeded at signup.
- `run_nightly`: the per-branch failure handling around `run_for_branch`.
- The `Money` value class: currency-checked additions and comparisons, one line each.
- The other analytics views: `waste_history`, `inventory_snapshot`, `hot_products`, `upcoming_events`.
- The order of `sales_history` rows and its product-name join.
- Product names, and the name order in which the catalogue query lists products: the table is taken in that order. Maturity labels, engine names and the note sentences.
- The shadow claim holds first-seen dates fixed: a refusal-only rollup row can move `first_seen` (`app/services/normal_demand.py:447-451`), so no claim is made from the refusal log to the forecast.
- Calendar generation and the write calls of the event calendar: two windows of a year can share a key, and the later overwrites the earlier.
- Concurrent publishing: the code takes no lock, so menu calls run one after another.
- Menu text fields, images and sort order, audit rows, and the wording of availability reasons.
- Income reporting other than `_add_months`, the HTTP layer, authentication, staff provisioning and migrations.
