# Verified models of the micro-enterprise and ceramics addons

This project models, in Dafny, the algorithms the addons cannot afford to get
wrong, and proves what they promise over every input and every run.

- **URSSAF cash-basis ledger.** Payments, cash-basis journal lines, deliveries
  and tickets become recognised events (`DeliveryMatching`, `Reconciliation`,
  `CashBasis`, `Recognition`); declarations claim each event once, are frozen
  by filing and close a permanent horizon (`Ledger`, `LedgerOperations`);
  periods tile time (`Calendar`, `Periods`); levies are grouped and rounded
  (`Levies`, `Rates`). `FiledTurnover` joins them: whatever run of creating,
  moving, computing, filing, resetting and deleting came before, drafts computed on
  any books and filings on books that only grew since, filing past an invoice's
  last payment leaves the filed declarations holding exactly the invoice's
  total, to the cent. Growth includes receipts proved later (`ReceiptMethods`).
  `FilingExactly` says when a filing succeeds and what it then holds, by the events
  alone. `Scenario` carries one such run through, and `BackdatedRun` follows a payment
  recorded after a filing but dated before it.
- **Kiln firing.** The life of a firing and its kiln slot (`KilnSlots`,
  `KilnFloor`), the one charge of a shared load (`KilnLoads`), the ramp and
  soak schedule (`KilnSchedule`) and the import of controller programmes
  (`KilnProgram`).
- **Graph searches.** Dependency cycles (`DependencyGraph`), implied groups and
  company rules (`GroupRules`), and the ceramics lot trace (`LotTrace`), all
  against the paths of a relation (`Paths`).
- **Ware.** Board contents within their order (`Boards`, `BoardFloor`) and the
  bisque inspection's balance of accepted and lost pieces (`Inspection`).
- **Arithmetic kernels.** GS1 and Luhn check digits and barcode keys
  (`CheckDigits`), the keyed lookup cache (`LookupCache.dfy`, module
  `Lookups`), the Otsu threshold (`Otsu`), and the pack key with the variants
  found through it (`PackKeys`, `PackVariants`).

Records become datatypes, and classes whose methods carry out the source's
writes; each such method is proved to compute a specification function, and
the theorems are about runs of that function. Money is whole cents rounded
half away from zero, dates are day numbers, kiln times are minutes, quantities
are exact. An action that raises changes nothing, as Odoo rolls back.

Where a promise fails on some inputs, the model keeps the code as it is and
proves exactly when it holds:

- two windows of a kiln stay apart: `StepKeepsDisjointExactly`, `HoursFitLaterStarts`, with the clashes the source lets through in `MovingPastPlanningMayClash`, `LongerHoursMayClash` and `EnteringPastPlanningMayClash`;
- one rate applies on a day: `RateIsTheOnlyMatchExactly`, with `StrayKeyColumnIsAmbiguous`;
- a proposed period is a calendar period: `ProposalFollowsTheCalendarExactly`, with `PeriodicitySwitchShortensQuarter`;
- periods tile time: `DeleteKeepsTilingExactly`, `MoveKeepsTilingExactly`;
- a delivery is given to one line: `RefundSliceGivenAgainExactly`, with `RefundSliceOverlaps`;
- a recorded payment keeps its amount: `BackdatedPaymentExactly`, `BackdatedPaymentIsFiled`, with `BackdatedPaymentShiftsAmount`;
- a cash-basis line keeps its amount: `GrowthKeepsFinalAmountExactly` and `CorrectedIsFinalExactly`, with `EarlierDatedLineShiftsAmount`, `FurtherLineShiftsAmount` and `UnpostedLineHoldsBack`;
- an edit only shifts later rows: `EditShiftsLaterRowsExactly`, with `MissingTargetCarriesEditOn`; stored segments always meet the condition, and outside the tests `schedule` is given nothing else;
- an imported peak is independent of order: `PeakConvergesExactly`, `KnownPeakConvergesExactly`;
- the lead of a load stays: `LeadStaysLaterExactly`;
- board quantities inside a split: `OverflowInsideSplitExactly`;
- every offer finds its pack: `FindsExactly`, with `ExactOfferMayFindNothing`, and a key is stable: `PackKeyStableExactly`.

## Model

| member | source | states |
|---|---|---|
| `FiledTurnover.SettledInvoiceIsDeclaredInFull` | addons/l10n_fr_micro_urssaf/models/urssaf_declaration.py:1151-1308 | From an empty ledger, over any run whose filings were on books that only grew since, by later payments, journal lines, tickets and proofs of receipt, drafts being computed on any books: once a period reaching a settled invoice's last payment is filed, all filed declarations together hold exactly the invoice's total of each recognised category |
| `FiledTurnover.FiledAmountsAddUp` | addons/l10n_fr_micro_urssaf/models/urssaf_declaration.py:1151-1290 | After any such run and a successful filing, for any selection of keys whose events fall in the filed window, the filed evidence sums to exactly the generated amounts: nothing missing, nothing twice |
| `FiledTurnover.SettledOriginIsDeclaredInFull` | addons/l10n_fr_micro_urssaf/models/urssaf_declaration.py:580-631 | The same for an invoice recognised by cash-basis journal lines: over any run, once its last line's period is filed, the filed declarations hold exactly its category total |
| `FiledTurnover.TicketIsDeclaredInFull` | addons/l10n_fr_micro_urssaf/models/urssaf_declaration.py:449-485 | The same for a ticket: over any run, once its date is filed, the filed declarations hold under its keys exactly what its lines of each category add up to |
| `FilingExactly.FilingSucceedsExactly` | addons/l10n_fr_micro_urssaf/models/urssaf_declaration.py:1151-1290 | A filing succeeds if and only if the declaration is a draft, tracking started, nothing else stands in the way, no other draft holds a generated event, every event left to it has a proved method, and in every category those events and the stored adjustment come to at least zero |
| `FilingExactly.FilingHolds` | addons/l10n_fr_micro_urssaf/models/urssaf_declaration.py:1211-1290 | What it then holds: the events nobody else holds, in the order generated, with their prior flag, its period and adjustments kept |
| `FilingExactly.AdjustmentDecidesFiling` | addons/l10n_fr_micro_urssaf/models/urssaf_declaration.py:1257-1265 | When nothing else stands in the way, storing an adjustment and filing succeeds if and only if every category, that adjustment counted in its own, is at least zero |
| `Scenario.InstalmentsAreDeclaredInFull` | addons/l10n_fr_micro_urssaf/models/urssaf_declaration.py:1151-1290 | A concrete run meets those hypotheses: the first third is filed while the second instalment's receipt is unproved, a draft finds that, and once it is proved the filed evidence holds the full hundred cents |
| `Scenario.UnprovedReceiptBlocksFiling` | addons/l10n_fr_micro_urssaf/models/urssaf_declaration.py:1249-1280 | In that run the second period cannot be filed before the receipt is proved |
| `ReceiptMethods.ProofKeepsEvents` | addons/l10n_fr_micro_urssaf/models/urssaf_declaration.py:335-639 | Proving receipts changes no recognised event but for the proof |
| `ReceiptMethods.EarlierEventsSurviveProof` | addons/l10n_fr_micro_urssaf/models/urssaf_declaration.py:634-639 | An event recognised from earlier books is recognised with the same date and amount from later ones, whichever receipts were proved in between |
| `BackdatedRun.FilingAddsUnclaimed` | addons/l10n_fr_micro_urssaf/models/urssaf_declaration.py:1202-1290 | On whatever books, a filing keeps what was filed and adds exactly the generated events nobody else claims |
| `BackdatedRun.OpenInvoiceIsFiled` | addons/l10n_fr_micro_urssaf/models/urssaf_declaration.py:1275-1290 | Once its window is filed, an invoice not settled yet is held at the rounded proportions of its payments |
| `BackdatedRun.BackdatedPaymentIsFiled` | addons/l10n_fr_micro_urssaf/models/urssaf_declaration.py:1151-1290 | A payment recorded after that filing is filed with the amount it has when first seen; dated before a known one it leaves the invoice at the rounded proportions of all payments, the total exactly when these add up to it |
| `DeliveryMatching.InvoicedBefore` | addons/l10n_fr_micro_urssaf/models/urssaf_declaration.py:700-727 | The quantity invoiced earlier on the same sale line, by date, move and line, refunds aside |
| `DeliveryMatching.DeliveriesAre` | addons/l10n_fr_micro_urssaf/models/urssaf_declaration.py:694-696 | The deliveries a line is matched with are the completed moves to the customer by moment, then id, each with its quantity on its day |
| `DeliveryMatching.WalkDeliveries` | addons/l10n_fr_micro_urssaf/models/urssaf_declaration.py:728-762 | The skip-then-take loop prices exactly the shares of the reference walk, each at its part of the price and the last one at the remainder |
| `DeliveryMatching.VatGoodsEventsForLine` | addons/l10n_fr_micro_urssaf/models/urssaf_declaration.py:682-762 | The whole of one line's event list: manual date, walk over sorted completed deliveries, or nothing |
| `DeliveryMatching.VatOperationDate` | addons/l10n_fr_micro_urssaf/models/urssaf_declaration.py:765-767 | The operation date is the first event's date, none without events |
| `DeliveryMatching.SkipTakeIsGlobalSlice` | addons/l10n_fr_micro_urssaf/models/urssaf_declaration.py:713-762 | A separate skip-then-take walk equals the line's slice of one global first-in-first-out match of all demands |
| `DeliveryMatching.OwnSharesAreGlobalSlice` | addons/l10n_fr_micro_urssaf/models/urssaf_declaration.py:694-762 | Every invoice or receipt line of a sale line gets, computed on its own, exactly its slice of the global match |
| `DeliveryMatching.NoDeliveryOverused` | addons/l10n_fr_micro_urssaf/models/urssaf_declaration.py:694-762 | All such lines together never use more of a delivery than was delivered |
| `DeliveryMatching.NoMoveOverused` | addons/l10n_fr_micro_urssaf/models/urssaf_declaration.py:694-762 | In the records: no stock move gives the lines more than it delivered |
| `DeliveryMatching.EventDatesNeverGoBack` | addons/l10n_fr_micro_urssaf/models/urssaf_declaration.py:694-762 | Within a line later events are never dated before earlier ones, so the first date is the earliest |
| `DeliveryMatching.FullyDeliveredValue` | addons/l10n_fr_micro_urssaf/models/urssaf_declaration.py:728-762 | A fully delivered line is valued at exactly its amount after rounding; every event that does not complete its line, in a line still waiting for goods all of them, is the nearest cent to its share of the price; dates and keys are those of the deliveries |
| `DeliveryMatching.UnitsAreUsed` | addons/l10n_fr_micro_urssaf/models/urssaf_declaration.py:728-762 | The units of a delivery inside a line's slice are as many as its walk allots |
| `DeliveryMatching.RefundSliceGivenAgainExactly` | addons/l10n_fr_micro_urssaf/models/urssaf_declaration.py:700-762 | A refund takes goods an invoice or receipt line also takes if and only if it has a quantity, more was delivered than invoiced before it, and a sale line follows it |
| `DeliveryMatching.RefundSliceOverlaps` | addons/l10n_fr_micro_urssaf/models/urssaf_declaration.py:700-727 | A refund walks but is not counted as earlier quantity, so its slice is given again to a later invoice line |
| `Reconciliation.RecognisePayment` | addons/l10n_fr_micro_urssaf/models/urssaf_declaration.py:534-576 | The inner loop turns one payment into its events per category, the settling payment taking the remainder |
| `Reconciliation.InvoiceEventsLoop` | addons/l10n_fr_micro_urssaf/models/urssaf_declaration.py:507-576 | The events of one invoice in a window, prior payments counted without being emitted |
| `Reconciliation.ThroughIs` | addons/l10n_fr_micro_urssaf/models/urssaf_declaration.py:523-532 | The payments counted are those dated by the window's end, each once, by date and then id |
| `Reconciliation.ReconciliationLoop` | addons/l10n_fr_micro_urssaf/models/urssaf_declaration.py:496-577 | The events of all invoices in a window |
| `Reconciliation.RecognitionIsStable` | addons/l10n_fr_micro_urssaf/models/urssaf_declaration.py:533-547 | A payment's recognised amount does not change when later payments are recorded |
| `Reconciliation.ConsecutiveWindows` | addons/l10n_fr_micro_urssaf/models/urssaf_declaration.py:496-577 | Two consecutive windows recognise exactly the list one covering window would |
| `Reconciliation.AnyCutGivesTheSameEvents` | addons/l10n_fr_micro_urssaf/models/urssaf_declaration.py:496-577 | However time is cut into consecutive windows the concatenation is the single-window list |
| `Reconciliation.SettledInvoiceAddsUp` | addons/l10n_fr_micro_urssaf/models/urssaf_declaration.py:533-547 | A settled invoice's events sum exactly to each category total; an unsettled one's to the rounded proportions |
| `Reconciliation.BackdatedPaymentExactly` | addons/l10n_fr_micro_urssaf/models/urssaf_declaration.py:523-547 | When a payment is recorded late with an earlier date, the known ones keep their amounts if and only if it does not settle the invoice or no rounding remainder exists |
| `Reconciliation.BackdatedPaymentTotal` | addons/l10n_fr_micro_urssaf/models/urssaf_declaration.py:523-547 | With amounts kept as first recognised, a backdated payment leaves the invoice at its rounded proportions; settling it reaches the total if and only if the known amounts would not have to change |
| `Reconciliation.WholeBalanceAtFaceValue` | addons/l10n_fr_micro_urssaf/models/urssaf_declaration.py:538-547 | A category that is the whole balance is recognised at the face value of its payments, in whatever order they are recorded |
| `Reconciliation.BackdatedPaymentShiftsAmount` | addons/l10n_fr_micro_urssaf/models/urssaf_declaration.py:523-547 | A concrete invoice whose earlier recognised amount such a payment changes |
| `CashBasis.FindLast` | addons/l10n_fr_micro_urssaf/models/urssaf_declaration.py:601-602 | The last event of a group by date and line |
| `CashBasis.NormalizeCabaEvents` | addons/l10n_fr_micro_urssaf/models/urssaf_declaration.py:580-631 | Which event is corrected to what, all others untouched |
| `CashBasis.CorrectedIsFinalExactly` | addons/l10n_fr_micro_urssaf/models/urssaf_declaration.py:589-617 | In a window that recognises a line the corrected event carries its final amount if and only if no later line, posted or not, holds the correction back or nothing is to correct |
| `CashBasis.CorrectedIsFinal` | addons/l10n_fr_micro_urssaf/models/urssaf_declaration.py:580-631 | So with every cash-basis line posted it does in every window |
| `CashBasis.UnpostedLineHoldsBack` | addons/l10n_fr_micro_urssaf/models/urssaf_declaration.py:589-597 | An unposted later line keeps a window from correcting 50 cents to 51 |
| `CashBasis.SettledOriginAddsUp` | addons/l10n_fr_micro_urssaf/models/urssaf_declaration.py:589-617 | The cash-basis lines of a settled invoice recognise exactly its category total |
| `CashBasis.GrowthKeepsFinalAmountExactly` | addons/l10n_fr_micro_urssaf/models/urssaf_declaration.py:580-631 | When lines are added a line keeps what it recognises in the end if and only if starting or stopping to take the correction finds nothing to correct, and going on taking it finds the group and the total grown alike |
| `CashBasis.GrowthKeepsFinalAmount` | addons/l10n_fr_micro_urssaf/models/urssaf_declaration.py:580-631 | So in a journal that grew that way every line keeps it |
| `CashBasis.FurtherLineKeepsExactly` | addons/l10n_fr_micro_urssaf/models/urssaf_declaration.py:580-631 | For an invoice settled before: if and only if the line took no correction, the new lines come to nothing, or there was nothing to correct |
| `CashBasis.LateSettlementKeepsExactly` | addons/l10n_fr_micro_urssaf/models/urssaf_declaration.py:589-617 | For an invoice settled since: if and only if a later line settles it or there is nothing to correct |
| `CashBasis.EarlierDatedLineShiftsAmount` | addons/l10n_fr_micro_urssaf/models/urssaf_declaration.py:580-631 | A settling line dated before the first one moves it from 33 to 34 cents |
| `CashBasis.FurtherLineShiftsAmount` | addons/l10n_fr_micro_urssaf/models/urssaf_declaration.py:580-631 | A further line on a settled invoice moves the corrected one from 51 back to 50 cents |
| `Recognition.TicketTotalsAre` | addons/l10n_fr_micro_urssaf/models/urssaf_declaration.py:454-463 | The insertion-ordered dictionary of a ticket holds the category sums of its lines |
| `Recognition.TicketDateIs` | addons/l10n_fr_micro_urssaf/models/urssaf_declaration.py:408-414 | A ticket is dated by its last payment, or by itself without payments |
| `Recognition.TicketAmounts` | addons/l10n_fr_micro_urssaf/models/urssaf_declaration.py:449-485 | The events of one ticket sum, in each category, to the ticket lines of that category |
| `Recognition.PosAmounts` | addons/l10n_fr_micro_urssaf/models/urssaf_declaration.py:449-485 | The ticket events of a window sum, in each category, to the lines of the tickets dated in it |
| `Recognition.PosEventsLoop` | addons/l10n_fr_micro_urssaf/models/urssaf_declaration.py:449-485 | One event for each ticket dated in the window and each category with a total, in order |
| `Recognition.RecognitionEventsLoop` | addons/l10n_fr_micro_urssaf/models/urssaf_declaration.py:634-639 | The three engines' events joined, the first one corrected |
| `Recognition.GeneratedKeysAreDistinct` | addons/l10n_fr_micro_urssaf/models/urssaf_declaration.py:634-639 | No two generated events share a key and every event lies in the window asked for |
| `Recognition.NormalisedAre` | addons/l10n_fr_micro_urssaf/models/urssaf_declaration.py:580-639 | The corrected events of a window, each with its final amount |
| `Recognition.LaterEndKeepsEvents` | addons/l10n_fr_micro_urssaf/models/urssaf_declaration.py:634-639 | Computing through a later period end yields the same earlier events with the same amounts |
| `Recognition.FurtherPaymentsKeepEvents` | addons/l10n_fr_micro_urssaf/models/urssaf_declaration.py:496-577 | What was recognised before a payment arrived stays recognised unchanged after it arrived |
| `Recognition.EarlierEventsAreKept` | addons/l10n_fr_micro_urssaf/models/urssaf_declaration.py:634-639 | An event recognised from earlier books in any window is recognised identically from later books in every window around its date |
| `Ledger.StepKeepsValid` | addons/l10n_fr_micro_urssaf/models/urssaf_declaration.py:1151-1308 | Every operation keeps periods apart, keys distinct and held once, and the horizon at or after every filed period |
| `Ledger.RunKeepsValid` | addons/l10n_fr_micro_urssaf/models/urssaf_declaration.py:1151-1308 | The same over any run of create, move, adjust, compute, file, reset, delete and horizon writes |
| `Ledger.FilingClaimsEveryEvent` | addons/l10n_fr_micro_urssaf/models/urssaf_declaration.py:1275-1290 | After a successful filing every event from the tracking start to the period end is held by exactly one declaration, a filed one |
| `Ledger.FiledEvidenceIsFrozen` | addons/l10n_fr_micro_urssaf/models/urssaf_declaration.py:227-250 | Whatever is done short of resetting it, a filed declaration keeps its period, evidence and adjustments |
| `Ledger.HorizonNeverMovesBack` | addons/l10n_fr_micro_urssaf/models/res_company.py:111-160 | What the horizon once reached it keeps over any run |
| `Ledger.EveryFiledPeriodStaysClosed` | addons/l10n_fr_micro_urssaf/models/res_company.py:140-160 | Every period end ever filed stays at or before the horizon, also after reset or deletion |
| `Ledger.StepKeepsTilingExactly` | addons/l10n_fr_micro_urssaf/models/urssaf_declaration.py:164-250 | One command keeps the gap-free tiling if and only if it moves or deletes no period from between two others |
| `Ledger.RunKeepsTilingExactly` | addons/l10n_fr_micro_urssaf/models/urssaf_declaration.py:164-250 | The periods tile time throughout a run if and only if every command does |
| `LedgerOperations.UrssafLedger.CreateDeclaration` | addons/l10n_fr_micro_urssaf/models/urssaf_declaration.py:94-99 | Creates a draft exactly when the period is accepted |
| `LedgerOperations.UrssafLedger.MoveDeclaration` | addons/l10n_fr_micro_urssaf/models/urssaf_declaration.py:227-245 | A filed declaration cannot move; a draft moves exactly when the new period is accepted |
| `LedgerOperations.UrssafLedger.WriteAdjustment` | addons/l10n_fr_micro_urssaf/models/urssaf_declaration.py:1377-1391 | The adjustment of one box is stored on a draft exactly when it is zero or has a reason |
| `LedgerOperations.UrssafLedger.DeleteDeclaration` | addons/l10n_fr_micro_urssaf/models/urssaf_declaration.py:248-250 | Only a draft can be deleted |
| `LedgerOperations.UrssafLedger.ClaimedSources` | addons/l10n_fr_micro_urssaf/models/urssaf_declaration.py:1196-1201 | A key is found claimed if and only if another declaration holds it |
| `LedgerOperations.UrssafLedger.Collect` | addons/l10n_fr_micro_urssaf/models/urssaf_declaration.py:1211-1265 | The evidence is every generated event nobody else claims, with its prior flag, and the finding whether a draft claim, unproven method or negative box stands in the way |
| `LedgerOperations.UrssafLedger.ActionCompute` | addons/l10n_fr_micro_urssaf/models/urssaf_declaration.py:1151-1273 | The new ledger after a computation; refusals change nothing |
| `LedgerOperations.UrssafLedger.AdvanceHorizon` | addons/l10n_fr_micro_urssaf/models/res_company.py:140-160 | The horizon covers the date, never moves back, and moves no further than the date |
| `LedgerOperations.UrssafLedger.ActionFile` | addons/l10n_fr_micro_urssaf/models/urssaf_declaration.py:1275-1290 | Recomputes, refuses with everything rolled back, or freezes and advances the horizon; when it succeeds is `FilingExactly.FilingSucceedsExactly` |
| `LedgerOperations.UrssafLedger.ActionResetToDraft` | addons/l10n_fr_micro_urssaf/models/urssaf_declaration.py:1292-1308 | A filed declaration reopens only with a reason |
| `LedgerOperations.UrssafLedger.WriteHorizon` | addons/l10n_fr_micro_urssaf/models/res_company.py:111-138 | A set horizon is neither cleared nor moved back |
| `Periods.CheckPeriod` | addons/l10n_fr_micro_urssaf/models/urssaf_declaration.py:164-217 | Accepted if and only if ordered, overlapping nobody and adjoining the neighbours |
| `Calendar.DayNumberIsOrdinal` | addons/l10n_fr_micro_urssaf/models/urssaf_declaration.py:102-135 | The month lengths the proposals count with give every date the day number of the proleptic Gregorian calendar, by its closed form with leap years |
| `Periods.TilingCovers` | addons/l10n_fr_micro_urssaf/models/urssaf_declaration.py:164-217 | In a gap-free tiling every day between two covered days is covered |
| `Periods.CreateKeepsTiling` | addons/l10n_fr_micro_urssaf/models/urssaf_declaration.py:164-217 | Creating an accepted period keeps one gap-free tiling |
| `Periods.DeleteKeepsTilingExactly` | addons/l10n_fr_micro_urssaf/models/urssaf_declaration.py:248-250 | Deleting keeps non-overlap always, and the tiling if and only if no period lies before it or none after it |
| `Periods.MoveKeepsTilingExactly` | addons/l10n_fr_micro_urssaf/models/urssaf_declaration.py:164-217 | An accepted move keeps the tiling if and only if the period stood at an end or keeps its bounds |
| `Periods.DefaultGet` | addons/l10n_fr_micro_urssaf/models/urssaf_declaration.py:102-135 | The proposal starts the day after the last period, or at the tracking or activity start, and ends with its month, quarter or first-period term |
| `Periods.ProposalIsAccepted` | addons/l10n_fr_micro_urssaf/models/urssaf_declaration.py:102-217 | Whatever was declared so far, the proposed period passes the period check |
| `Periods.ProposedFromStart` | addons/l10n_fr_micro_urssaf/models/urssaf_declaration.py:102-135 | From the start of a month or quarter the proposal is exactly that month or quarter |
| `Periods.ChainedProposalsTile` | addons/l10n_fr_micro_urssaf/models/urssaf_declaration.py:102-135 | Chained proposals, at any periodicity each, leave no gap and no overlap |
| `Periods.ProposalFollowsTheCalendarExactly` | addons/l10n_fr_micro_urssaf/models/urssaf_declaration.py:102-135 | A proposal is a calendar month or quarter if and only if it is not the longer first one and starts with a month or quarter |
| `Periods.QuarterFromMonthExactly` | addons/l10n_fr_micro_urssaf/models/urssaf_declaration.py:102-135 | From the start of a month the quarterly proposal is a whole quarter if and only if the month opens one |
| `Periods.ChainedProposalsFollowTheCalendarExactly` | addons/l10n_fr_micro_urssaf/models/urssaf_declaration.py:102-135 | From the second proposal on each is a calendar period if and only if it is monthly or starts with a quarter, as it does whenever the periodicity did not just change to quarters |
| `Ledger.ProposalsAreChained` | addons/l10n_fr_micro_urssaf/models/urssaf_declaration.py:94-135 | Declarations created one after another for the proposed periods are all accepted and form the chain of proposals |
| `Ledger.ProposedLedgerFollowsTheCalendar` | addons/l10n_fr_micro_urssaf/models/urssaf_declaration.py:94-135 | A ledger created that way tiles time from the company's start and follows the calendar from the second declaration on |
| `Periods.PeriodicitySwitchShortensQuarter` | addons/l10n_fr_micro_urssaf/models/urssaf_declaration.py:102-135 | Switching to quarters in mid-quarter proposes one short period |
| `Rates.RateFor` | addons/l10n_fr_micro_urssaf/models/urssaf_rule.py:113-129 | Finds a rate if and only if one applies, and the first in the table's order |
| `Rates.CheckValidity` | addons/l10n_fr_micro_urssaf/models/urssaf_rule.py:89-110 | A rule is accepted exactly when its dates and rate are in order and no other rule of its key overlaps it |
| `Rates.StoringKeepsConsistent` | addons/l10n_fr_micro_urssaf/models/urssaf_rule.py:89-110 | Storing an accepted rule, new or rewritten, keeps every pair of rules of one key apart in time |
| `Rates.RateIsTheOnlyMatchExactly` | addons/l10n_fr_micro_urssaf/models/urssaf_rule.py:89-129 | Every look-up finds at most one rule if and only if no two rules alike in the columns it reads are in force together |
| `Rates.RateIsTheOnlyMatch` | addons/l10n_fr_micro_urssaf/models/urssaf_rule.py:89-129 | So the overlap refusal suffices once unused key columns are empty |
| `Rates.StrayKeyColumnIsAmbiguous` | addons/l10n_fr_micro_urssaf/models/urssaf_rule.py:89-129 | A stray entry in an unused column lets two contribution rates both be accepted and some look-up match twice |
| `Levies.SumRounded` | addons/l10n_fr_micro_urssaf/models/urssaf_declaration.py:1400-1472 | A levy is the sum over rate groups of each group's rounded product |
| `Levies.RefreshAmounts` | addons/l10n_fr_micro_urssaf/models/urssaf_declaration.py:1400-1472 | The box's current, prior, computed, declared and levy amounts from its sources and manual adjustment; where the sources share a rate, each levy is the nearest cent to amount times rate, the contribution times its coefficient, over a hundred per cent |
| `Levies.SharedRatesLevy` | addons/l10n_fr_micro_urssaf/models/urssaf_declaration.py:1434-1440 | Which rate and coefficient each levy reads: for sources that share them, the levy is the nearest cent to their total times rate times coefficient |
| `Levies.LevyIgnoresOrder` | addons/l10n_fr_micro_urssaf/models/urssaf_declaration.py:1400-1472 | Each levy is the same for every order of the sources |
| `Levies.GroupBasesSumToTurnover` | addons/l10n_fr_micro_urssaf/models/urssaf_declaration.py:1400-1472 | The group bases of every levy sum to the unrounded turnover, manual adjustment included |
| `Levies.LevyWithinHalfCentPerGroup` | addons/l10n_fr_micro_urssaf/models/urssaf_declaration.py:1400-1472 | Each levy is within half a cent per distinct rate, and coefficient for the contribution, of the exact sum of amount times rate, in the stored scales |
| `DependencyGraph.Checker.Visit` | tools/check_addons.py:548-558 | The coloured search finishes the addon, keeps colours, trail and order consistent, and without a report leaves it finished |
| `DependencyGraph.Checker.CheckGraph` | tools/check_addons.py:535-561 | A cycle is reported if and only if the repository's graph has one; every reported trail is a real path ending in a repeated addon |
| `DependencyGraph.Checker.ReportUnknown` | tools/check_addons.py:536-543 | Exactly the dependencies that are neither in the repository nor known are reported |
| `DependencyGraph.CycleIsReturn` | tools/check_addons.py:545-561 | The graph has a cycle if and only if some addon depends on one that reaches it |
| `DependencyGraph.ClosedTrailIsCyclic` | tools/check_addons.py:548-558 | A real path ending in a repeated addon contains a cycle |
| `DependencyGraph.OrderedIsAcyclic` | tools/check_addons.py:548-558 | An order with every dependency before its addon excludes cycles |
| `GroupRules.ImpliedGroupClosure` | tools/check_addons.py:433-441 | The worklist ends with exactly the groups reachable by implications |
| `GroupRules.CollectGrants` | tools/check_addons.py:464-478 | The permissions each group is granted on each company-owned model |
| `GroupRules.CollectRules` | tools/check_addons.py:480-517 | The permissions company-bounded rules cover, globally and by group |
| `GroupRules.MissingFor` | tools/check_addons.py:519-525 | What neither global rules nor rules of the group's closure cover |
| `GroupRules.MissingIsUncovered` | tools/check_addons.py:519-525 | A permission is missing if and only if granted and covered by no rule of a reachable group |
| `GroupRules.CheckCompanyRules` | tools/check_addons.py:451-532 | Silent if and only if every granted permission is covered; a model and group is reported if and only if some permission of it is uncovered, and each finding lists exactly the uncovered ones |
| `LotTrace.ConnectedTrace` | addons/mb_ceramics_workflow/models/stock_lot.py:38-77 | The frontier search ends with exactly the lots and productions of the starting lot's component |
| `LotTrace.ComponentIsShared` | addons/mb_ceramics_workflow/models/stock_lot.py:38-77 | Every lot of a component gets the same answer |
| `Otsu.OtsuThreshold` | tools/benchmark_azure_inventory_preprocessing.py:23-45 | The smallest threshold of greatest between-class variance, or the default when nothing splits |
| `Otsu.VarianceDecomposition` | tools/benchmark_azure_inventory_preprocessing.py:36-43 | Between-class variance plus pixel count times within-class scatter does not depend on the threshold |
| `Otsu.GreatestBetweenIsLeastWithin` | tools/benchmark_azure_inventory_preprocessing.py:36-43 | Ranking by between-class variance is ranking by within-class scatter, reversed |
| `Otsu.FirstBestHasLeastScatter` | tools/benchmark_azure_inventory_preprocessing.py:23-45 | The returned threshold has least within-class scatter among all splits |
| `KilnSlots.StepKeepsDisjointExactly` | addons/mb_ceramics_firing/models/mb_firing.py:179-228 | One command leaves the windows of every kiln apart if and only if a firing it enters or moves past planning fits between the others and new hours fit the stored starts |
| `KilnSlots.ReplaceKeepsDisjointExactly` | addons/mb_ceramics_firing/models/mb_firing.py:200-228 | Any change of one firing keeps them apart if and only if the firing is closed or fits |
| `KilnSlots.CreateKeepsDisjointExactly` | addons/mb_ceramics_firing/models/mb_firing.py:347-360 | The same for a new firing |
| `KilnSlots.HoursKeepDisjointExactly` | addons/mb_ceramics_firing/models/mb_kiln_program.py:187-207 | New programme hours keep them apart if and only if every firing on the programme then ends before, or starts after, each other one of its kiln |
| `KilnSlots.HoursFitLaterStarts` | addons/mb_ceramics_firing/models/mb_kiln_program.py:187-207 | With positive hours only the firings that start no earlier have to be looked at |
| `KilnSlots.RunKeepsDisjointExactly` | addons/mb_ceramics_firing/models/mb_firing.py:179-404 | The firing-plus-cooling windows of one kiln stay pairwise disjoint throughout a run, hours and edits past planning included, if and only if every command meets that condition |
| `KilnSlots.NoSharedMinute` | addons/mb_ceramics_firing/models/mb_firing.py:200-228 | Two occupying firings of one kiln never hold the same minute |
| `KilnSlots.MovingPastPlanningMayClash` | addons/mb_ceramics_firing/models/mb_firing.py:200-228 | A loading, firing or cooling firing moved onto another's window is accepted |
| `KilnSlots.LongerHoursMayClash` | addons/mb_ceramics_firing/models/mb_kiln_program.py:187-207 | Longer programme hours stretch planned windows into each other and are accepted |
| `KilnSlots.EnteringPastPlanningMayClash` | addons/mb_ceramics_firing/models/mb_firing.py:347-360 | A firing recorded past planning on an occupied window is accepted |
| `KilnSlots.TerminalIsForever` | addons/mb_ceramics_firing/models/mb_firing.py:370-409 | Completed and cancelled firings never change again and are never deleted, over any run |
| `KilnSlots.UnloadingIsHonest` | addons/mb_ceramics_firing/models/mb_firing.py:622-659 | Over any run in which firings become unloaded through the actions, every unloaded firing had cooled or carries the interruption and its reason |
| `KilnSlots.OpensOnceCooledExactly` | addons/mb_ceramics_firing/models/mb_firing.py:596-641 | A firing that ended may be unloaded if and only if its programme's cooling minutes have passed since, whatever the hours became meanwhile, and at once without a programme |
| `KilnFloor.Kilns.CheckPlannedSlot` | addons/mb_ceramics_firing/models/mb_firing.py:200-228 | Free if and only if the firing has a window and clashes with no occupying firing of its kiln |
| `KilnFloor.Kilns.CheckWrite` | addons/mb_ceramics_firing/models/mb_firing.py:200-276 | The constraints run on a written firing |
| `KilnFloor.Kilns.CheckLoadCompatibility` | addons/mb_ceramics_firing/models/mb_firing.py:229-276 | A firing's programme, if any, belongs to its kiln and to its kind |
| `KilnFloor.Kilns.CreateFiring` | addons/mb_ceramics_firing/models/mb_firing.py:347-360 | A new firing, refused unless its constraints hold |
| `KilnFloor.Kilns.WriteFiring` | addons/mb_ceramics_firing/models/mb_firing.py:370-404 | An edit, refused on terminal firings and failing constraints |
| `KilnFloor.Kilns.ActionLoad` | addons/mb_ceramics_firing/models/mb_firing.py:539-549 | Only a planned firing enters loading |
| `KilnFloor.Kilns.ActionStart` | addons/mb_ceramics_firing/models/mb_firing.py:588-594 | Only a compatible loading firing starts |
| `KilnFloor.Kilns.ActionFinish` | addons/mb_ceramics_firing/models/mb_firing.py:596-611 | Only a burning firing ends, recording when its cooling will |
| `KilnFloor.Kilns.ActionUnload` | addons/mb_ceramics_firing/models/mb_firing.py:622-641 | Only a cooled firing is unloaded |
| `KilnFloor.Kilns.ActionForceUnload` | addons/mb_ceramics_firing/models/mb_firing.py:643-659 | Early opening needs a reason and is recorded |
| `KilnFloor.Kilns.ActionCancel` | addons/mb_ceramics_firing/models/mb_firing.py:576-586 | Only planned and loading firings are cancelled |
| `KilnLoads.Lead` | addons/mb_ceramics_firing/models/mb_firing.py:420-431 | The carrying order is least by reservation, start and id, and missing only for an empty load |
| `KilnLoads.LeadComesFirst` | addons/mb_ceramics_firing/models/mb_firing.py:420-431 | No order of the load is reserved when the lead is not; among equals the lead starts no later, and has the smallest id of those that start with it |
| `KilnLoads.LoadBook.SyncGroupDuration` | addons/mb_ceramics_firing/models/mb_firing.py:411-449 | The lead gets the occupation, the others nothing, and with a reserved lead the others lose their reservations |
| `KilnLoads.LoadBook.WriteLoad` | addons/mb_ceramics_firing/models/mrp_workorder.py:125-154 | A link write recharges the loads left and entered and gives removed orders their own duration |
| `KilnLoads.LoadBook.ActionLoad` | addons/mb_ceramics_firing/models/mb_firing.py:539-574 | Ready orders enter the load, the others are recorded as missed, the load is charged |
| `KilnLoads.ChargedOnceSumsToOccupation` | addons/mb_ceramics_firing/models/mb_firing.py:411-449 | The durations of a load charged once sum to the firing minutes of its programme, with the cooling minutes if the carrying order occupies them, and to nothing without firing minutes |
| `KilnLoads.ChargedLoadLasts` | addons/mb_ceramics_firing/models/mb_kiln_program.py:226-245 | Recharging a load charges the firing minutes in all, exactly the cooling minutes more when the lead occupies the cooling, and nothing when none are declared; a reserved lead is booked that long |
| `KilnLoads.ChargeFillsWindowExactly` | addons/mb_ceramics_firing/models/mb_firing.py:411-449 | The charge is as long as the kiln window of the firing if and only if there is no cooling, or firing minutes are declared and the lead occupies the cooling; a lead reserved from the planned start then ends with the window |
| `KilnLoads.ResyncChargesOnce` | addons/mb_ceramics_firing/models/mb_firing.py:411-449 | After recharging, one order carries the whole occupation and no other order a duration or a reservation |
| `KilnLoads.RunKeepsCharges` | addons/mb_ceramics_firing/models/mrp_workorder.py:116-154 | After any run of loadings, assignments, removals and hour corrections every load is charged once, with at most one reservation |
| `KilnLoads.WriteMovesOrders` | addons/mb_ceramics_firing/models/mrp_workorder.py:125-154 | A link write gives each named order the link, its own duration back when it leaves every load, and changes no other order whose load is neither left nor entered |
| `KilnLoads.ResyncIdempotent` | addons/mb_ceramics_firing/models/mb_firing.py:411-449 | Charging again at the same moment changes nothing |
| `KilnLoads.LeadStaysLaterExactly` | addons/mb_ceramics_firing/models/mb_firing.py:420-431 | At every later moment the same order leads if and only if it is reserved or started, or no order of the load has a start |
| `KilnLoads.LoadingPartitions` | addons/mb_ceramics_firing/models/mb_firing.py:539-574 | Loading splits planned orders into exactly the ready ones loaded and the others missed; none stays planned and no other order's links change |
| `KilnSchedule.Schedule` | addons/mb_ceramics_firing/models/program_schedule.py:39-69 | The loop yields the rows of the recursive walk |
| `KilnSchedule.RowsFollowController` | addons/mb_ceramics_firing/models/program_schedule.py:32-69 | Each row starts where and when the one before ended, and its ramp times its rate is sixty times the degrees to go, below full power, and nothing otherwise |
| `KilnSchedule.TotalMinutes` | addons/mb_ceramics_firing/models/program_schedule.py:72-74 | The total is the sum of ramps and soaks |
| `KilnSchedule.PeakTemperature` | addons/mb_ceramics_firing/models/program_schedule.py:77-81 | The greatest target, none without targets |
| `KilnSchedule.ConcatenationShifts` | addons/mb_ceramics_firing/models/program_schedule.py:39-69 | Scheduling a concatenation is scheduling the first part, then the second from where it left off, shifted in time |
| `KilnSchedule.DetourNeverShortens` | addons/mb_ceramics_firing/models/program_schedule.py:32-69 | A detour never shortens a programme and costs nothing when its temperature lies on the way |
| `KilnSchedule.EditShiftsLaterRowsExactly` | addons/mb_ceramics_firing/models/program_schedule.py:39-69 | An edit leaves earlier rows alone and shifts the rows after the next segment by one constant if and only if there are none, the next segment has a target, or the edit ends at the old temperature |
| `KilnSchedule.StoredEditShiftsLaterRows` | addons/mb_ceramics_firing/models/mb_kiln_program_segment.py:90-123 | Stored targets are plain numbers, so every edit of a stored programme leaves earlier rows alone and shifts the rows after the next by one constant |
| `KilnSchedule.MissingTargetCarriesEditOn` | addons/mb_ceramics_firing/models/program_schedule.py:52-57 | A missing target, which the schedule accepts though no stored segment has one, lets an edit change a later ramp itself |
| `KilnSchedule.StorageOrderDoesNotMatter` | addons/mb_ceramics_firing/models/mb_kiln_program_segment.py:90-123 | Numbered segments schedule the same however stored |
| `KilnSchedule.StoredRowsFollowNumbers` | addons/mb_ceramics_firing/models/mb_kiln_program_segment.py:90-110 | Stored segments run by number, then id, from a kiln at 20 degrees, each row as its segment says |
| `KilnProgram.SegmentValuesLoop` | addons/mb_ceramics_firing/models/mb_kiln_program.py:364-376 | The cleaned segments, none lost or added, in number order |
| `KilnProgram.UnknownProgramIsCreated` | addons/mb_ceramics_firing/models/mb_kiln_program.py:279-376 | What a new programme shows: every reported segment with its own fields, the hours they take from a cold kiln, twelve hours of cooling, the highest target as peak, and the kind by 600 and 1100 degrees |
| `KilnProgram.KilnPrograms.ApplyProvider` | addons/mb_ceramics_firing/models/mb_kiln_program.py:294-361 | Matches by label then slot, creates when unknown unless the label is taken, ignores what is not newer, otherwise replaces the profile |
| `KilnProgram.ImportsKeepAnswers` | addons/mb_ceramics_firing/models/mb_kiln_program.py:294-361 | Over any payloads a programme keeps its name, kind, declared hours and hand-typed segments, and its recorded date never goes back |
| `KilnProgram.ImportConverges` | addons/mb_ceramics_firing/models/mb_kiln_program.py:294-361 | For one slot any non-empty series ends with the newest payload's segments and date |
| `KilnProgram.OrderAndRepeatsDoNotMatter` | addons/mb_ceramics_firing/models/mb_kiln_program.py:294-361 | Two series of the same payloads in any order with any repeats end alike |
| `KilnProgram.PeakConvergesExactly` | addons/mb_ceramics_firing/models/mb_kiln_program.py:294-361 | The stored peak is independent of order if and only if the newest firing names a target or none names one other than zero |
| `KilnProgram.KnownSlotConverges` | addons/mb_ceramics_firing/models/mb_kiln_program.py:248-361 | A programme already known by slot or label, perhaps renamed, ends with the newest payload if it is news to it and otherwise stays as it was |
| `KilnProgram.KnownOrderAndRepeatsDoNotMatter` | addons/mb_ceramics_firing/models/mb_kiln_program.py:248-361 | There too two series of the same payloads end alike |
| `KilnProgram.KnownPeakConvergesExactly` | addons/mb_ceramics_firing/models/mb_kiln_program.py:294-361 | There the peak is independent of order if and only if the newest is no news or names a target, or no news names a target other than the stored peak |
| `CheckDigits.Gs1CheckDigitValid` | tools/benchmark_upcitemdb_lookup.py:149-158 | Accepted if and only if the length is 8, 12, 13 or 14 and the weighted sum of all digits is a multiple of ten |
| `CheckDigits.LuhnIsValid` | addons/l10n_fr_micro_enterprise/wizard/l10n_fr_micro_setup_wizard.py:17-25 | Accepted if and only if the doubled-digit sum is a multiple of ten |
| `CheckDigits.DigitsAreRead` | tools/benchmark_upcitemdb_lookup.py:145-146 | Wherever a digit stands in a text it is read as its value, and any other character as nothing |
| `CheckDigits.ValidateIdentifiers` | addons/l10n_fr_micro_enterprise/wizard/l10n_fr_micro_setup_wizard.py:191-201 | Accepted if and only if both lengths and checks hold and the SIRET starts with the SIREN |
| `CheckDigits.OneDigitErrorIsCaught` | tools/inventory_label_regions.py:128-137 | Under either check two numbers differing in one digit never both pass |
| `CheckDigits.OddDistanceSwapIsCaughtExactly` | addons/l10n_fr_micro_enterprise/wizard/l10n_fr_micro_setup_wizard.py:17-25 | A swap of neighbours, or of any digits an odd distance apart, passes if and only if they are equal or differ by five (GS1) or are 0 and 9 (Luhn) |
| `CheckDigits.EvenDistanceSwapIsInvisible` | tools/benchmark_upcitemdb_lookup.py:149-158 | A swap of digits an even distance apart is never seen |
| `CheckDigits.LeadingZerosKeepValidity` | tools/benchmark_upcitemdb_lookup.py:149-165 | Leading zeros never change whether a barcode is valid |
| `CheckDigits.SameKeyExactly` | tools/benchmark_upcitemdb_lookup.py:161-165 | Valid barcodes share a key if and only if they spell one number, and the key is itself a valid barcode |
| `CheckDigits.NormalizingKeepsKey` | tools/inventory_label_regions.py:140-144 | Normalising keeps validity and key and is idempotent |
| `CheckDigits.NormalizedIsAKey` | tools/inventory_label_regions.py:140-144 | Between 12- and 13-digit codes the normalised forms agree if and only if the keys do |
| `Lookups.LookupCache.Get` | tools/benchmark_upcitemdb_lookup.py:70-93 | The answer read from the rows, mismatch included |
| `Lookups.LookupCache.Put` | tools/benchmark_upcitemdb_lookup.py:95-134 | The row stored, or why the call is refused with nothing stored |
| `Lookups.PutAcceptedExactly` | tools/benchmark_upcitemdb_lookup.py:95-111 | A put is accepted if and only if its time to live is positive, its barcode is valid, and its candidate, if any, carries a valid barcode of the same number |
| `Lookups.AnswersLatestUnexpired` | tools/benchmark_upcitemdb_lookup.py:70-134 | Over any history a barcode is answered with the latest accepted put for its number, whatever lengths were used, exactly while unexpired; no stored row fails its own check |
| `Boards.RunStaysWithin` | addons/mb_ceramics_workflow/models/mb_board_content.py:65-176 | In every state reached by creating, writing, transferring, splitting and deleting, an order's current rows stay within its quantity |
| `Boards.TransferConserves` | addons/mb_ceramics_workflow/models/mb_board_content.py:131-146 | Succeeds if and only if the row is current and the board fits; every order keeps its total and the same ware stands on the new board |
| `Boards.TransferredRowIsKeptExactly` | addons/mb_ceramics_workflow/models/mb_board_content.py:42-44 | A transferred row cannot be deleted while its replacement exists; afterwards it can if and only if no other row names it |
| `Boards.SplitConserves` | addons/mb_ceramics_workflow/models/mb_board_content.py:148-176 | Succeeds if and only if the row is current and leaves a quantity; order and board quantities are conserved and the new order is exactly filled |
| `Boards.SplitKeepsOperation` | addons/mb_ceramics_workflow/models/mb_board_content.py:158-175 | A split row waits for the new order's first work order of the operation it waited for, or for none when there is none |
| `Boards.OverflowInsideSplitExactly` | addons/mb_ceramics_workflow/models/mb_board_content.py:158-176 | Inside the split the original order overflows if and only if its rows exceed what it keeps |
| `Boards.CreateRefusedExactly` | addons/mb_ceramics_workflow/models/mb_board_content.py:65-113 | New rows are refused if and only if they would break the rule |
| `Boards.WriteRefusedExactly` | addons/mb_ceramics_workflow/models/mb_board_content.py:65-120 | A write is refused if and only if its outcome would break the rule |
| `BoardFloor.Floor.CheckRow` | addons/mb_ceramics_workflow/models/mb_board_content.py:65-99 | The row check with its aggregate |
| `BoardFloor.Floor.CreateRows` | addons/mb_ceramics_workflow/models/mb_board_content.py:102-113 | New rows with their first open operation, all or none |
| `BoardFloor.Floor.WriteRows` | addons/mb_ceramics_workflow/models/mb_board_content.py:115-120 | Changed rows, all or none |
| `BoardFloor.Floor.TransferTo` | addons/mb_ceramics_workflow/models/mb_board_content.py:131-146 | Removal and replacement as one step |
| `BoardFloor.Floor.SplitForLater` | addons/mb_ceramics_workflow/models/mb_board_content.py:148-176 | Divides the order, then moves the row, as one step |
| `Inspection.ConfirmBalances` | addons/mb_ceramics_workflow/wizard/mb_bisque_inspection.py:148-215 | Exactly when a confirmation succeeds; then stock gains the accepted and losses the lost quantity on both paths, together the order, and its boards are cleared |
| `Inspection.ScrapUndoes` | addons/mb_ceramics_workflow/wizard/mb_bisque_inspection.py:123-146 | Scrapping a whole output succeeds if and only if no lot was short, and undoes it lot by lot |
| `Inspection.OutputAddsUp` | addons/mb_ceramics_workflow/wizard/mb_bisque_inspection.py:83-100 | The output, one movement a lot, sums to the produced quantity with no lot twice |
| `Inspection.RunBalances` | addons/mb_ceramics_workflow/wizard/mb_bisque_inspection.py:148-215 | Over any run of inspections and board moves stock and losses together gain exactly what was inspected |
| `Inspection.InspectedAtMostOnce` | addons/mb_ceramics_workflow/wizard/mb_bisque_inspection.py:148-152 | No order is inspected twice |
| `Inspection.Wizard.PrepareExactMaterialConsumption` | addons/mb_ceramics_workflow/wizard/mb_bisque_inspection.py:55-81 | Passes if and only if every material is reserved exactly and tracked lines name lots |
| `Inspection.Wizard.ScrapAll` | addons/mb_ceramics_workflow/wizard/mb_bisque_inspection.py:123-146 | Scraps lot by lot, stopping at a missing one |
| `Inspection.Wizard.ActionConfirm` | addons/mb_ceramics_workflow/wizard/mb_bisque_inspection.py:148-215 | The confirmation step by step; a refusal changes nothing |
| `PackKeys.KeyWithinFivePercent` | addons/mb_catalogue_sync/models/mb_catalogue_units.py:61-77 | From ten on the key is within a twentieth of the quantity |
| `PackKeys.KeyMonotone` | addons/mb_catalogue_sync/models/mb_catalogue_units.py:61-77 | A larger pack never gets a smaller key |
| `PackKeys.KeyIdempotent` | addons/mb_catalogue_sync/models/mb_catalogue_units.py:61-77 | The key of a key is the key |
| `PackKeys.PackKeyStableExactly` | addons/mb_catalogue_sync/models/mb_catalogue_units.py:61-77 | A pack's key has itself as key if and only if the quantity exceeds one half; below, the key is zero and has none |
| `PackVariants.UnitsByDefinition` | addons/mb_catalogue_sync/models/mb_catalogue_units.py:17-30 | The units that are read, and each factor as the metric or United States definition gives it, to the digits kept |
| `PackVariants.Template.GroupPacks` | addons/mb_catalogue_sync/models/product_template.py:204-212 | The groups by key and unit, with their members in order |
| `PackVariants.Template.Common` | addons/mb_catalogue_sync/models/product_template.py:216-228 | The most published, then whole, then largest quantity |
| `PackVariants.Template.SyncPackVariants` | addons/mb_catalogue_sync/models/product_template.py:190-258 | Keeps every earlier label and adds exactly one for each group |
| `PackVariants.Template.VariantForPack` | addons/mb_catalogue_sync/models/product_template.py:260-274 | Finds a variant if and only if one carries the wanted key |
| `PackVariants.OfferFindsItsPack` | addons/mb_catalogue_sync/models/product_template.py:190-274 | After a sync every offer whose group's label keeps the key finds a variant of its key |
| `PackVariants.TwoDecimalOffersAllFind` | addons/mb_catalogue_sync/models/product_template.py:176-274 | When quantities have at most two decimals every offer finds its variant |
| `PackVariants.FindsExactly` | addons/mb_catalogue_sync/models/product_template.py:176-274 | After any sync an offer finds a variant if and only if its group's label keeps the key, an earlier variant carries it, or another group's label reads as it |
| `PackVariants.OneGroupFindsExactly` | addons/mb_catalogue_sync/models/product_template.py:176-274 | On a fresh product with one group, an offer finds a variant if and only if the label keeps the key |
| `PackVariants.ExactOfferMayFindNothing` | addons/mb_catalogue_sync/models/product_template.py:176-274 | An offer of 470 ml that survives its label still finds nothing when the group is labelled 475 ml |
| `PackVariants.LabelIgnoresOrder` | addons/mb_catalogue_sync/models/product_template.py:216-228 | A group's label does not depend on the order of its offers |
| `PackVariants.SyncAgainAddsNothing` | addons/mb_catalogue_sync/models/product_template.py:190-258 | Syncing the same offers again leaves the list of labels as it is |

## Left out

- Odoo's record layer, access groups, translations, views, reports, chatter and row locks. Each action is one atomic step.
- Binary floating point: money is whole cents, quantities, temperatures and hours are exact, so tolerance comparisons are equalities on quantities already in the unit's rounding.
- Time zones, foreign-currency columns and receipt-method labels of an event; whether its method is known is kept.
- The final sort of recognised events by date and key text; no property depends on that order.
- Mandate, configuration, classification and missing-rate findings: one parameter of a computation says whether any exists.
- Turnover thresholds, the versement and ACRE lookups by date, annual forms and the VAT activity record.
- Direct edits of draft evidence lines outside a computation, and several companies side by side.
- Several sale lines on one invoice line and unit conversion between invoice and delivery.
- FiledTurnover.SettledInvoiceIsDeclaredInFull: payments are recorded in date order; what a backdated one changes is `Reconciliation.BackdatedPaymentExactly`.
- FiledTurnover.SettledOriginIsDeclaredInFull: the journal grew so that every line keeps its amount; when it does is `CashBasis.GrowthKeepsFinalAmountExactly`, and the source does not enforce it. Cash-basis lines are posted.
- Recognition.RecognitionEventsLoop: the engines' events in order, without the final sort by date and key text.
- LedgerOperations.UrssafLedger.ActionCompute: findings not about the events are one parameter, and rate columns and threshold results are not written.
- CashBasis.NormalizeCabaEvents: assumes what the engine yields, one event for each line and category, so no two events of a group tie.
- Periods.DefaultGet: dates from year 0 on, as day numbers.
- Levies.RefreshAmounts: rates arrive on the sources; looking them up for each event is `Rates.RateFor`, and threshold-dependent columns are not modelled.
- KilnSlots.RunKeepsDisjointExactly: company, maximum temperature and the ban on loaded orders in a planned firing are not part of the slot model.
- KilnSlots.TerminalIsForever: the provider synchronisation, which may refresh evidence on a closed firing, is not modelled.
- KilnFloor.Kilns.CheckPlannedSlot: the ban on loaded work orders in a planned firing is not modelled.
- KilnFloor.Kilns.CheckWrite: company, maximum temperature and work order checks are not modelled.
- KilnFloor.Kilns.CheckLoadCompatibility: company, maximum temperature and work order checks are not modelled.
- KilnFloor.Kilns.CreateFiring: the same checks and replanning are not modelled.
- KilnFloor.Kilns.WriteFiring: the same checks, and releasing planned orders of a closed firing, are not modelled.
- KilnFloor.Kilns.ActionLoad: only the state change; the orders are `KilnLoads.LoadBook.ActionLoad`.
- KilnFloor.Kilns.ActionStart: compatibility leaves out company, temperature and work orders.
- KilnFloor.Kilns.ActionUnload: finishing the loaded work orders is not modelled.
- KilnFloor.Kilns.ActionForceUnload: finishing the loaded work orders is not modelled.
- KilnFloor.Kilns.ActionCancel: releasing work orders, leaves and carriers is not modelled.
- KilnLoads.RunKeepsCharges: an hour correction stands for a loading, burning or cooling firing, the ones the source recharges; finished firings keep their old charge.
- KilnLoads.LoadBook.ActionLoad: the missed reason is kept as a flag, and the state change is `KilnFloor.Kilns.ActionLoad`.
- Replanning through Odoo's scheduler (`_mb_replan_slot`, `_mb_reserve_slot`) and the planned-versus-physical link checks of work orders.
- BackdatedRun.BackdatedPaymentIsFiled: between the two filings only drafts are worked on, and nobody claims the new payment yet.
- KilnProgram.ImportConverges: a payload that repeats a segment number, which the database refuses, is accepted by the model.
- Reading manifests, access lists and rule files: the searches start from the parsed graph, grants and rules.
- CheckDigits.Gs1CheckDigitValid: digits are 0 to 9; other characters Unicode calls digits are dropped.
- Cache storage: the provider and schema columns are constants, a candidate's other fields one opaque text, and the cache starts empty.
- Boards.SplitConserves: Odoo's split is taken to keep the original's work orders and to create one new order of the moved quantity.
- Changing an order's quantity outside a split, which the board check does not watch.
- Inspection.ConfirmBalances: completing an order is taken to put the produced quantity on hand in its lots; session closing, labels and pick flags are not modelled.
- Inspection.Wizard.ActionConfirm: the same completion is a flag of the sheet.
- PackVariants.Template.SyncPackVariants: a label is its quantity and unit, printing and parsing its text taken as exact; new labels keep the order of the groups, not of the label text; one variant stands for one label, and units are given in lower case without blanks.
- Supplier prices, offers and vendor mappings of the catalogue; recipes and their approval.
- HTTP clients, providers, image work, scripts, packaging and continuous integration.
