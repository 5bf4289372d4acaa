# FuelGrid: a verified model of the stock, reporting and finance core

FuelGrid runs fuel stations on PostgreSQL. Its Go packages are repositories over tables: the SQL
inside a method is the state transition, and comments state the locking protocol. This project models the hard core of those
packages in Dafny and proves what they promise.

| files | what they model |
|---|---|
| `Numeric.dfy` | rounding to a `numeric` column, half away from zero, and when it commutes with addition |
| `StockLedger.dfy` | the tank stock ledger under interleaved transactions: advisory locks on hashed keys, inserts, commits, rollbacks |
| `SealRace.dfy` | a seal's two reads among concurrent postings |
| `Transfers.dfy` | receiving stock transfers, statement by statement, interleaved with each other and with any other ledger traffic |
| `DecimalText.dfy` | decimal strings and the textual negation that reversals rest on |
| `SealChain.dfy`, `TankBook.dfy` | one tank's chain of sealed reconciliations, as functions on a value and as the class that updates the tables |
| `ReportRegistry.dfy`, `ReportSpec.dfy`, `ReportCompiler.dfy`, `ReportMeaning.dfy`, `ReportCorrectness.dfy` | the report builder: its datasets, its validator, its query compiler, the meaning of queries and of reports, and the proof that they agree |
| `FigureOrder.dfy`, `ReportOrder.dfy` | figures compared by their text, and reports sorted by a measure |
| `LikePattern.dfy`, `ReportJoins.dfy` | LIKE patterns and the joins behind two datasets |
| `OutboxDrain.dfy`, `Outbox.dfy`, `EventBus.dfy` | the outbox publisher, alone and among concurrent crashing ones, the bus, and the deduplicating notification consumer |
| `ExportJobs.dfy` | the export-job queue with claims, reclaims and workers that outlive a reclaim |
| `ShiftLocks.dfy` | FOR SHARE / FOR UPDATE around days, shifts, cash and approvals |
| `Journal.dfy`, `JournalReports.dfy`, `PostingRace.dfy` | the double-entry journal, accounting periods, statements, exports, and postings in flight while a period is locked |
| `CreditExposure.dfy` | fuel authorizations, charges and payments against credit and spending limits |
| `Receivables.dfy` | invoices, payment allocations, voiding |
| `GoodsReceipt.dfy` | receiving against a purchase order |
| `Calibration.dfy` | strapping charts |
| `Wrappers.dfy` | options and results |

Conventions. Litres are thousandths and money is cents, as the columns store them; an amount that a
caller supplies is a `real` and is rounded where the source rounds it. A protocol that the source runs
concurrently is a step machine: a state, a function that applies one step, a fold over a sequence of
steps; a step whose guard fails is a statement that waits or is refused, and changes nothing. Code that
updates tables is also a class whose methods are proved against the step functions. Clocks, hashes,
generated ids and the outcomes of handlers are parameters.

## Findings

Eight promises of the source hold only under a condition. Each has an input that breaks it and a proof of exactly when it holds.

- A row's running balance is the sum of its ledger exactly when the amount written is not halfway between two thousandths, or has the sign of the balance it leads to: the movement and the balance are rounded separately. The condition is on the row's own insert; drift never carries to later rows (`StockLedger.RunningBalances`, `StockLedger.InsertBalance`, `StockLedger.HalfwayAmountDrifts`).
- A seal leaves the ledger on the dip exactly when transfers in the ledger and what the anchor misses cancel: the book figure does not sum transfers, and a genesis opening ignores what was posted before it (`SealChain.BookFigure`, `SealChain.TransferEscapesSeal`).
- A seal's figures are documented to reflect the ledger at seal time. They are summed first and the watermark is read later, after the write-off. Whatever others do in between, the sums are those of the sealed period up to the seal's own write-off if and only if the seal holds the tank's key when it sums, and the handler does not (`SealRace.KeyIffNoGap`, `SealRace.SaleInNoPeriod`; the size of the error is `SealRace.SealedFigureIs`).
- An export over a range with no unlocked period is documented as final. Serially it is final exactly when every day of the range lies in a locked period; a day that no period covers passes the flag and can still be posted to (`JournalReports.FinalIffLocked`, `JournalReports.UncoveredRangeNotFinal`).
- A locked period is documented to reject everything. Its entries are final from the lock on if and only if no posting that had already read its status is in flight at that moment (`PostingRace.FinalAtTheLock`, `PostingRace.EntryAfterLock`).
- An allocation keeps an invoice's outstanding amount and status in step exactly when it is not halfway between two cents and does not leave a remainder below half a cent. Over every run the invoice owes its amount less the posted allocations plus one cent for each half cent, less what voids take back (`Receivables.ReducedExactly`, `Receivables.OutstandingDrifts`, `Receivables.HalfCentDrifts`, `Receivables.RemainderStaysOpen`).
- A line stays within its receiving tolerance exactly when no accepted receipt on it is lifted across the cap by rounding; the overshoot is at most half a thousandth (`GoodsReceipt.NeverOverReceived`, `GoodsReceipt.OvershootBounded`, `GoodsReceipt.HalfThousandthPassesCap`).
- A report sorted by a measure is sorted by the text of the aggregate. Two rows that the first keys tie on stand in the order the next key asks for exactly when the whole part of the smaller figure is at most the equally many leading digits of the larger's, or, among negative figures, when it is not (`ReportOrder.MeasureSortIsText`, `FigureOrder.TextOrderIs`, `ReportOrder.TenBeforeNine`).

## Model

| member | source | states |
|---|---|---|
| Numeric.RoundShift | internal/inventory/repo.go:163-166 | rounding a stored value plus an amount equals the value plus the rounded amount exactly when the amount is not halfway or has the sign of the sum |
| StockLedger.MaxSeq | internal/inventory/periods.go:45-52 | the watermark bounds every row of the tank the reader sees, and is one of them or zero |
| StockLedger.InsertBalance | internal/inventory/repo.go:143-181 | an insert under the tank's lock stores the true running balance if and only if its two casts agree |
| StockLedger.HalfwayAmountDrifts | internal/inventory/repo.go:163-166 | a run of two postings after which the stored balance and the sum of litres part |
| StockLedger.StepKeepsInv | internal/inventory/repo.go:144-152 | every lock, insert, commit, release and rollback keeps the ordering of rows and the lock discipline |
| StockLedger.UncommittedIsLockedSuffix | internal/inventory/repo.go:143-181 | in every reachable state, for any hash of lock keys, uncommitted rows of a tank follow its committed ones and belong to the lock holder |
| StockLedger.RollbackKeepsBalances | internal/inventory/repo.go:144-152 | a rollback never removes a row some remaining balance counted, so each remaining row's balance is right or wrong as before |
| StockLedger.RunningBalances | internal/inventory/repo.go:139-181 | in every reachable state a committed row's balance is the sum of the tank's committed rows up to it if and only if the casts of its own insert agreed |
| StockLedger.WatermarkIsFinal | internal/inventory/periods.go:22-52 | once MAX(seq) was read, the tank's rows up to it never change again, whatever runs, so period sums ending there are final |
| StockLedger.WatermarkInTransaction | internal/inventory/periods.go:22-52 | the tank's rows up to a transaction's own watermark change only with that transaction: committed or rolled back with it; the period sums it saw are final once it commits, and change exactly when it rolls back non-zero rows of its own |
| SealRace.SealedFigureIs | services/api/internal/server/reconciliation_handlers.go:537-587 | whatever runs between a seal's sum and its watermark, the sealed period holds what was summed plus the gap: the size of the error |
| SealRace.KeyFirstClosesGap | services/api/internal/server/reconciliation_handlers.go:537-560 | with the tank's key held before the sum, under every schedule the gap is the seal's own write-off and nothing else |
| SealRace.KeyIffNoGap | services/api/internal/server/reconciliation_handlers.go:537-587 | in every reachable state an open seal sums its period whatever others do before the mark is read if and only if it holds the tank's key when it sums |
| SealRace.SaleInNoPeriod | services/api/internal/server/reconciliation_handlers.go:537-587 | a run in which a sale is under the watermark and in neither period |
| Transfers.MovesKeep | internal/enterprise/central_commercial.go:308-378 | every statement of every receive, and any other traffic, keeps keys held in order, legs posted by the order's own job, and both legs on record exactly for received orders |
| Transfers.WantedKeysRise | internal/enterprise/central_commercial.go:329-338 | along a chain of waits, a receive that someone waits for is past its order's row lock, and the lock keys asked for strictly rise |
| Transfers.NoDeadlock | internal/enterprise/central_commercial.go:329-338 | in no reachable state does any set of receives wait in a cycle |
| Transfers.ReceiveMovesStock | internal/enterprise/central_commercial.go:339-377 | completing a receive moves its litres from source to target and nowhere else, leaves the source not overdrawn, and marks an approved or dispatched order received |
| Transfers.ReceiveConservesStock | internal/enterprise/central_commercial.go:353-369 | no statement of a receive changes the committed litres of all tanks together |
| Transfers.ReceivedOnce | internal/enterprise/central_commercial.go:309-315 | an order has no committed leg until it is received and from then on the same one outgoing and one incoming leg forever |
| Transfers.LifeOfOrder | internal/enterprise/central_commercial.go:243-378 | an order appears as a valid draft, keeps its tanks, product and litres, is approved once while nobody receives it, and becomes received exactly when a receive of it commits |
| Transfers.LedgerRuns | internal/inventory/repo.go:143-181 | every run of the stock ledger that posts for no order is a run of this system, so the theorems above hold beside any such traffic |
| Transfers.ReceivedIffReceivable | internal/enterprise/central_commercial.go:308-378 | from every reachable state a receive whose order row and keys are free completes if and only if the order is approved or dispatched, both tanks hold its product and the source holds its litres; otherwise it leaves everything as it was |
| DecimalText.NegateIsNegation | internal/inventory/repo.go:298-315 | on every well-formed decimal text negation negates the value, and a minus appears exactly on negative results |
| DecimalText.TextRoundTrip | internal/inventory/repo.go:122-128 | reading back what the column prints gives the stored figure |
| DecimalText.OneWholeText | internal/reportbuilder/composer.go:287-304 | a whole number has exactly one well-formed text without fraction, leading zero or minus zero, and that is the one printed |
| DecimalText.NegateStored | internal/inventory/repo.go:302-315 | on stored figures the text of the contra is the text of the negated figure |
| DecimalText.NegateTwice | internal/inventory/repo.go:302-315 | negating a stored figure's text twice gives it back |
| SealChain.ClosingBookIs | internal/reconciliation/repo.go:156-210 | the book figure is the ledger sum less transfers and less what the anchor misses, for any anchor |
| SealChain.PostedShows | internal/reconciliation/repo.go:156-210 | a movement after the anchor changes the figure of its own kind, sales with the opposite sign, and the book figure unless it is a transfer; and no other figure |
| SealChain.WatermarkIs | internal/reconciliation/repo.go:156-210 | the figures cover the anchor and every row, and nothing beyond |
| SealChain.AnchorIsUnique | internal/reconciliation/repo.go:347-366 | seals that tie on the watermark carry equal figures, so the anchor does not depend on which row the query returns |
| SealChain.GenesisDrift | internal/reconciliation/repo.go:258-278 | a genesis opening misses exactly the counted rows before it |
| SealChain.SealSettles | services/api/internal/server/reconciliation_handlers.go:534-586 | after a seal the dip is the anchor, computing again asks for no write-off, and the ledger is the dip plus transfers and an unchanged drift |
| SealChain.SealIff | services/api/internal/server/reconciliation_handlers.go:534-590 | a drafted day is sealed if and only if a hundred times the difference between the dip and the ledger less transfers and drift is within that figure times the tolerance; then exactly the difference is posted as the reconciliation's adjustment, the day is frozen on the two figures, and no other day is touched |
| SealChain.SealedForever | internal/reconciliation/repo.go:527-605 | no operation ever changes a sealed reconciliation |
| SealChain.ReverseNets | internal/inventory/repo.go:261-296 | a reversed movement and its contra cancel in the sum of their kind and of the ledger |
| SealChain.ReversedIff | internal/inventory/repo.go:265-296 | a movement can be reversed if and only if it was not yet and, for deliveries, sales and transfers, the opening stands; then it alone is marked, the opposite row is appended, and a second reversal is refused |
| SealChain.RunKeeps | internal/reconciliation/repo.go:570-605 | over every run all seals miss the same amount and no watermark passes the ledger |
| SealChain.BookFigure | internal/reconciliation/repo.go:156-210 | over every run the book figure equals the ledger sum if and only if transfers and drift cancel |
| SealChain.CleanSeals | services/api/internal/server/reconciliation_handlers.go:545-586 | without transfers and with openings set on an empty balance, the book figure is the ledger sum and every seal leaves the ledger on the dip |
| SealChain.TransferEscapesSeal | internal/reconciliation/repo.go:158-175 | a run after which the dip agrees with the ledger and the seal moves the ledger off it |
| TankBook.CastNegated | internal/inventory/repo.go:284-296 | printing, negating and casting back a stored figure negates it |
| TankBook.TankLedger.PostMovement | internal/inventory/repo.go:143-181 | appends the cast amount or refuses without change, for a missing opening, a bad number or a second opening |
| TankBook.TankLedger.SetOpeningBalance | internal/inventory/repo.go:381-412 | posts an opening unless a genuine one exists |
| TankBook.TankLedger.ReverseMovement | internal/inventory/repo.go:265-296 | marks the movement and posts the exact opposite through the negated text, or leaves the ledger as it was |
| TankBook.TankLedger.LastSealed | internal/reconciliation/repo.go:350-366 | returns a sealed day with the highest watermark, or none when there is none |
| TankBook.TankLedger.FindAnchor | services/api/internal/server/reconciliation_handlers.go:134-157 | last seal, else genuine opening, else nothing |
| TankBook.TankLedger.PersistDraft | internal/reconciliation/repo.go:530-566 | saves the computed figures unless the day is sealed |
| TankBook.TankLedger.PostWriteOff | internal/reconciliation/repo.go:231-256 | appends the adjustment |
| TankBook.TankLedger.SealDay | services/api/internal/server/reconciliation_handlers.go:513-590 | computes, refuses outside tolerance, writes off, reads the watermark and freezes, as `SealChain.Seal` does, or changes nothing; `SealChain.SealIff` says on the tables when it goes through |
| ReportRegistry.DimById | internal/reportbuilder/registry.go:136-143 | finds the dimension with the id or there is none |
| ReportRegistry.MeasureById | internal/reportbuilder/registry.go:145-152 | finds the measure with the id or there is none |
| ReportRegistry.FilterById | internal/reportbuilder/registry.go:154-161 | finds the filter with the id or there is none |
| ReportRegistry.RegistryApart | internal/reportbuilder/registry.go:191-477 | in every dataset the columns behind sensitive measures are read by nothing else |
| ReportSpec.Validate | internal/reportbuilder/spec.go:103-187 | accepts exactly the specifications that name offered dimensions, aggregates and operators, with well-shaped values, selected sorts and a limit in range, and a refusal names a defect the specification has |
| ReportSpec.AcceptedIff | internal/reportbuilder/spec.go:54-207 | a specification is valid if and only if it selects something within four dimensions, none twice, eight measures, twelve filters, two hundred listed values and a limit of a thousand, and everything it names is offered |
| ReportCompiler.SelectDimensions | internal/reportbuilder/composer.go:107-117 | dimension i becomes select item i with its ordinal, alias and column |
| ReportCompiler.SelectMeasures | internal/reportbuilder/composer.go:119-147 | visible measures continue the ordinals; sensitive ones are omitted and listed |
| ReportCompiler.BuildConditions | internal/reportbuilder/composer.go:157-170 | tenant first, station scope if it applies, then each filter bound after the arguments so far |
| ReportCompiler.BuildOrderBy | internal/reportbuilder/composer.go:328-346 | resolved sorts in order, or the grouped dimensions |
| ReportCompiler.LimitOf | internal/reportbuilder/composer.go:188-195 | a positive limit is kept or cut to the maximum, anything else is the default |
| ReportCompiler.Compose | internal/reportbuilder/composer.go:80-196 | the loops build exactly the query, arguments, columns and omissions of the compiler function, or refuse |
| ReportCorrectness.ConditionsMean | internal/reportbuilder/composer.go:157-170 | with placeholders looked up in the arguments, a row passes the conditions exactly when it is in scope and passes each filter with its own values |
| ReportCorrectness.PlaceholdersExact | internal/reportbuilder/composer.go:238-270 | read in order the placeholders are exactly 1 to the number of arguments |
| ReportCorrectness.FilterArgsMean | internal/reportbuilder/composer.go:238-270 | the arguments a filter binds make its operator mean what was asked of the requested values: one of them, between both ends, a known other value, found somewhere inside |
| ReportCorrectness.CoerceKeeps | internal/reportbuilder/composer.go:277-314 | a bound value says the requested one, a text as itself, a whole number as its one decimal text, a boolean as its word, except for a fraction sent to an integer column |
| ReportCorrectness.RequestIs | internal/reportbuilder/composer.go:277-314 | exactly one bound value is the one requested of a column, and it is the one bound: a number cut toward zero for an integer column, a truth value for a boolean one, and for any other the text that says it |
| ReportCorrectness.RegistryKeepsValues | internal/reportbuilder/registry.go:217-477 | no registered filter loses a value |
| LikePattern.WrappedMeans | internal/reportbuilder/composer.go:253-256 | a value between percent signs matches exactly the texts in which it occurs as a pattern, with the case of a closing backslash |
| LikePattern.PlainOccurs | internal/reportbuilder/composer.go:253-256 | a value without special characters matches exactly the texts that contain it |
| ReportCorrectness.SameOrder | internal/reportbuilder/composer.go:328-346 | order keys, resolved through aliases and ordinals, are the columns the sorts mean |
| ReportCorrectness.SameCells | internal/reportbuilder/composer.go:107-147 | the output row of a group is its dimension values followed by the visible measures over its members |
| ReportCorrectness.ComposedReport | internal/reportbuilder/composer.go:100-155 | column i describes select item i; there is no query exactly when nothing is left to select |
| ReportCorrectness.ShownAre | internal/reportbuilder/composer.go:119-147 | a reader with the permission gets every measure asked for and an empty omission list; one without gets exactly those that are not sensitive, in order, and the others are listed |
| ReportCorrectness.RefusedIff | internal/reportbuilder/composer.go:80-98 | a report is compiled if and only if there is a tenant and the reader sees all of it, or has a station grant in a dataset that tells stations apart; otherwise the first failing condition is named |
| ReportCorrectness.CompilationIsCorrect | internal/reportbuilder/composer.go:80-231 | for every valid specification, table and database the possible results of the query are exactly the answers to the report |
| ReportCorrectness.QueryIgnoresOtherRows | internal/reportbuilder/composer.go:84-93 | rows of other tenants or ungranted stations never affect the result, its order or its cut |
| ReportCorrectness.QueryIgnoresSensitive | internal/reportbuilder/composer.go:119-128 | without the permission the columns behind sensitive measures never affect the result, in any registered dataset |
| ReportJoins.JoinIgnoresOtherTenants | internal/reportbuilder/registry.go:263-298 | in the joined datasets movements and tanks of other tenants never affect the result |
| ReportJoins.JoinIgnoresUngranted | internal/reportbuilder/registry.go:263-298 | nor do tanks of stations the reader has no grant for, or movements on them |
| FigureOrder.TextOrderIs | internal/reportbuilder/composer.go:130-134 | of two different figures of any scales the smaller's text sorts first if and only if their leading digits stand in order |
| FigureOrder.SameDigitsKeepOrder | internal/reportbuilder/composer.go:130-134 | non-negative figures with equally many whole digits keep their order |
| FigureOrder.PrintsAsStored | internal/reportbuilder/composer.go:130-134 | a figure of three places prints as a litre column does |
| ReportOrder.MeasureSortIsText | internal/reportbuilder/composer.go:328-346 | in every result, two rows tied on the first keys and told apart by the figures of the next stand as asked if and only if text order agrees with those figures, for any number of keys |
| ReportOrder.FaithfulResult | internal/reportbuilder/composer.go:328-346 | where in the columns sorted by any two groups' figures agree with text order, the results are exactly the answers ranked by value, cut included |
| ReportOrder.DimensionSortIsRanked | internal/reportbuilder/composer.go:328-346 | a report sorted by dimensions only is ranked right whatever its measures hold |
| ReportOrder.TenBeforeNine | internal/reportbuilder/composer.go:130-134 | revenue of nine and of ten shillings, smallest first: the only result puts the ten first |
| EventBus.InProcessBus.Subscribe | internal/events/bus.go:51-55 | appends the handler to its type and leaves other types alone |
| EventBus.InProcessBus.Publish | internal/events/bus.go:62-80 | runs all matching handlers in order whatever fails, and reports an error exactly when one failed |
| EventBus.NotificationTable.CreateFromEvent | internal/notifications/repo.go:103-139 | inserts or returns what the key already holds, and says which |
| EventBus.NotificationTable.HandleEvent | services/api/cmd/api/notifications_subscriber.go:60-99 | creates the notifications of the targets up to the first error: each user reached has one, under the event's tenant and key, with the content of the first target of that user unless it was already there, and no other key changes |
| OutboxDrain.Publisher.Fetch | internal/events/publisher.go:153-163 | takes exactly the first pending rows, a full batch or as many as there are |
| OutboxDrain.OldestFirst | internal/events/publisher.go:153-163 | a tick takes a full batch, or all pending rows if there are fewer, and never a row before an older pending one |
| OutboxDrain.Publisher.ProcessOnce | internal/events/publisher.go:143-279 | publishes what succeeded, counts what failed, parks what failed ten times, and touches nothing else |
| OutboxDrain.TenTicks | internal/events/publisher.go:205-268 | ten ticks settle the oldest batch whatever the handlers do |
| OutboxDrain.DrainBound | internal/events/publisher.go:21-42 | n pending rows are settled within ten ticks per batch, rounded up |
| Outbox.OutboxSafety | internal/events/publisher.go:143-279 | over every run with concurrent publishers and crashes a row is never both published and parked, a published row had a dispatch where every handler succeeded, and parked means ten failed attempts |
| Outbox.RoundIs | internal/events/publisher.go:143-279 | from every reachable state a publisher that fetches waiting rows, dispatches each and commits leaves exactly those rows published where every handler succeeded and one attempt further where not, and every other row and batch as it was |
| Outbox.BackInWaiting | internal/events/publisher.go:143-163 | an appended event waits with no attempts, and a crash puts the rows of its batch back in waiting with the attempts they had |
| Outbox.SettledIsFinal | internal/events/publisher.go:151-163 | a published or parked row never changes again |
| Outbox.HandleAgain | internal/notifications/repo.go:95-139 | handling an event again as far or less far adds nothing, further continues |
| Outbox.SameAsOneDelivery | internal/notifications/repo.go:95-139 | after any schedule of redeliveries an event's notifications are those of one delivery |
| Outbox.NotesAreTargets | services/api/cmd/api/notifications_subscriber.go:60-99 | over every run each notification of an event belongs to one of its targets, under the event's tenant, with the content of that user's first target |
| Outbox.OneNotePerUser | internal/notifications/repo.go:95-139 | over every run with any redelivery a published event has exactly one notification for each user it targets, with the content of that user's first target, and no other: as many as there are users |
| ExportJobs.WritesBounded | internal/exportjobs/repo.go:207-337 | every write of a job spends its budget |
| ExportJobs.QueueSafety | internal/exportjobs/repo.go:207-337 | over every run, zombies included, attempts stay within the cap, queued jobs have attempts left, a terminal job got one terminal write, and writes per job are bounded |
| ExportJobs.TerminalForever | internal/exportjobs/repo.go:262-337 | a terminal job never changes again |
| ExportJobs.LifeOfJob | internal/exportjobs/repo.go:146-337 | a job appears queued when enqueued and runs from a claim, which counts an attempt and notes the time, until it is completed, fails or is reclaimed from a silent worker |
| ExportJobs.NoneStuck | internal/exportjobs/repo.go:245-260 | over every run a running job whose worker is silent is queued again or failed by a reclaim with a later cut-off |
| ExportJobs.ReclaimIs | internal/exportjobs/repo.go:231-260 | reclaiming touches exactly the jobs running since before the cut-off |
| ExportJobs.OutcomeIsKept | internal/exportjobs/repo.go:266-337 | a job keeps the result it was completed with, or the reason it failed with, whatever runs later |
| ExportJobs.ExportQueue.ClaimNext | internal/exportjobs/repo.go:207-229 | claims the oldest queued job, or there is none |
| ExportJobs.ExportQueue.ReclaimStale | internal/exportjobs/repo.go:245-260 | fails stale jobs out of attempts, queues other stale ones, leaves the rest |
| ExportJobs.ExportQueue.Complete | internal/exportjobs/repo.go:266-288 | completes a running job only |
| ExportJobs.ExportQueue.CompleteQueued | internal/exportjobs/repo.go:295-318 | completes a queued job only |
| ExportJobs.ExportQueue.Fail | internal/exportjobs/repo.go:322-337 | fails a running job only |
| ShiftLocks.OthersUndisturbed | internal/operations/repo.go:134-171 | what a transaction checked under its row lock survives any commit that could run beside it |
| ShiftLocks.CheckedJob | services/api/internal/server/shift_exceptions_handlers.go:113-147 | a check that lets a transaction go on makes what it then relies on true, and a lock is granted only where none conflicts |
| ShiftLocks.BooksStayClosed | internal/operations/shifts.go:157-268 | in every committed state of every interleaving an open shift is on an open day, and no approved shift has an unresolved exception or cash that was not received or approved with a difference |
| ShiftLocks.DoneIffAccepted | internal/operations/shifts.go:157-268 | a transaction that nobody hinders does its work if and only if the tables accept it: open day, closable day, open or closed shift, new or unsettled cash, nothing open or awaiting; it touches nothing else, and when refused nothing at all |
| ShiftLocks.OpenedAndResolved | internal/operations/exceptions.go:113-133 | a day is opened once, and a resolved exception stays with its shift, resolved |
| Journal.JournalRepo.PostEntry | internal/accounting/journal.go:100-152 | casts the lines to cents, posts a balanced entry into an open enough period line by line, so that each account is debited and credited with what was asked, or leaves the journal as it was and says why |
| Journal.JournalRepo.ReverseEntry | internal/accounting/journal.go:272-313 | posts the swapped lines on the original's date and marks it, unless reversed or locked |
| Journal.JournalRepo.CreatePeriod | internal/accounting/periods.go:56-71 | adds a period unless its dates are reversed or overlap another |
| Journal.JournalRepo.Transition | internal/accounting/periods.go:123-164 | moves a period along one of the four edges, from the stated status only |
| Journal.RunKeeps | internal/accounting/journal.go:100-152 | over every run entries balance, periods do not overlap, and reversals mirror what they reverse |
| Journal.PostingLands | internal/accounting/journal.go:100-152 | an accepted entry raises the debits and the credits of each account by exactly the rounded amounts the caller asked for on it |
| Journal.PostedIff | internal/accounting/journal.go:100-152 | over every run an entry is accepted if and only if a period that takes postings has its day, every line names an account and fills one side, and both sides come to the same positive amount |
| Journal.ReversalLands | internal/accounting/journal.go:270-313 | a reversal credits each account with what the original debited and debits it with what the original credited |
| Journal.ReversedIff | internal/accounting/journal.go:270-313 | over every run an entry can be reversed if and only if no entry reverses it yet and its day is in a period that is not locked, and none is reversed twice |
| Journal.LifeOfPeriod | internal/accounting/periods.go:123-164 | over every run a period is closed only after it was closing, locked only after it was closed, and stays locked |
| Journal.MovedIff | internal/accounting/periods.go:123-164 | a period moves exactly along the four edges from the status it has, and nothing else changes |
| JournalReports.AccountingEquation | internal/accounting/reports.go:64-129 | at every date assets are liabilities plus retained plus net income, which is the income statement from the first entry |
| JournalReports.EntryShows | internal/accounting/reports.go:64-129 | an entry of n between two accounts moves each heading of the balance sheet and of the income statement by n where an account is of its kinds and the date counts, and no other |
| JournalReports.AssetOnCredit | internal/accounting/reports.go:64-129 | an asset bought on credit raises assets and liabilities by its price and leaves retained and net income alone |
| JournalReports.ReversalParity | internal/accounting/journal.go:270-310 | a chain of k reversals contributes the original when k is even and nothing when k is odd, per account and on one date |
| JournalReports.FinalIffLocked | internal/accounting/exports.go:23-63 | no further run changes the export and the income statement of a range if and only if every day of it is locked |
| JournalReports.UncoveredRangeNotFinal | internal/accounting/exports.go:50-63 | a range no period covers is reported as not provisional and is not final |
| JournalReports.ProvisionalOnCovered | internal/accounting/exports.go:50-63 | on a range without gaps the flag is false exactly when all days are locked |
| PostingRace.LockedIsFinal | internal/accounting/periods.go:166-190 | over each run from a locked state the period's entries stay as they are if and only if no posting in flight at the lock commits in it |
| PostingRace.OneEntryEach | internal/accounting/periods.go:166-190 | a locked period gains exactly one entry for each posting that was past its check at the lock and commits |
| PostingRace.FinalAtTheLock | internal/accounting/periods.go:166-190 | no continuation changes a locked period's entries if and only if no posting to it is in flight when it is locked |
| PostingRace.EntryAfterLock | internal/accounting/periods.go:166-190 | a run that commits an entry into a locked period |
| CreditExposure.WindowIsSince | internal/fleet/authorizations.go:135-146 | summing since the window began is summing the window, for every calendar |
| CreditExposure.RequestKeeps | internal/fleet/authorizations.go:75-191 | a request keeps every customer within credit and every limit within its cap |
| CreditExposure.CreditSafety | internal/fleet/credit_profiles.go:112-163 | over every run without override balance plus live holds stays within the credit limit and spending in every calendar window and scope within its cap |
| CreditExposure.AllowedIff | internal/fleet/authorizations.go:75-191 | a request in whole cents is allowed if and only if with its hold in place the customer stays within the credit limit and within every cap |
| CreditExposure.HoldLasts | internal/fleet/authorizations.go:75-191 | an allowed request holds the rounded amount against its customer for one hour, a refused one nothing, and releasing expired holds takes nothing live away |
| CreditExposure.LapsesAfterAnHour | internal/fleet/authorizations.go:75-191 | the exposure of every customer after a request and any time is that without it, plus the rounded amount within the hour |
| CreditExposure.LifeOfAuth | internal/fleet/authorizations.go:265-311 | an authorization keeps all but its status; it stops being approved exactly when fulfilled, cancelled, voided, or released after it expired |
| CreditExposure.NeverRevived | internal/fleet/authorizations.go:265-311 | over every run an authorization that is no longer approved never is again and is not fulfilled after |
| CreditExposure.ChargeRecords | internal/receivables/repo.go:242-283 | a charge is posted exactly when the credit left by the balance and all approved holds covers it, and then raises that balance by the rounded amount and no other |
| CreditExposure.PaymentRecords | internal/receivables/repo.go:286-300 | a payment lowers its customer's balance by the rounded amount and no other |
| CreditExposure.BalanceIsRecorded | internal/receivables/repo.go:242-310 | over every run a balance is the accepted charges less the payments |
| CreditExposure.NewAccount | internal/receivables/repo.go:164-179 | a new customer can be charged in whole cents exactly up to the limit |
| CreditExposure.BlockedIsRefused | internal/receivables/repo.go:213-240 | from blocking to unblocking nothing is charged to a customer and no hold is made for them, over every run |
| CreditExposure.CreditDesk.RequestAuthorization | internal/fleet/authorizations.go:75-191 | releases expired holds, decides in order, and holds the rounded amount for an hour only when allowed |
| CreditExposure.CreditDesk.PostCharge | internal/receivables/repo.go:242-283 | posts exactly when the customer is not blocked and balance, all approved holds and the charge fit the limit, and then raises the customer's balance by the rounded amount and nobody else's |
| CreditExposure.CreditDesk.PostPayment | internal/receivables/repo.go:286-300 | lowers the customer's balance by the rounded amount and nobody else's |
| CreditExposure.CreditDesk.FulfillAuthorization | internal/fleet/authorizations.go:265-291 | consumes an approved authorization, and only once |
| Receivables.ReducedExactly | internal/receivables/invoices.go:277-307 | an allocation keeps outstanding and status in step with its rounded amount if and only if its cents agree |
| Receivables.AllocatedIff | internal/receivables/invoices.go:272-307 | an allocation is accepted if and only if the invoice is the payer's, issued or partly paid, and owes at least the amount, which is at least half a cent |
| Receivables.InvoicedIff | internal/receivables/invoices.go:79-123 | an invoice is accepted if and only if every line is positive, and starts as a draft that owes the sum of its lines |
| Receivables.HalfCentDrifts | internal/receivables/invoices.go:277-307 | a run of invoice, issue and payment after which the invoice and the allocation disagree by a cent, and what its void gives back |
| Receivables.RemainderStaysOpen | internal/receivables/invoices.go:277-307 | a run of invoice, issue and payment that leaves nothing outstanding and the invoice partially paid |
| Receivables.RestoreIsExact | internal/receivables/customer_payments.go:199-218 | giving back any number of a payment's allocations adds what they took, up to the invoice's amount, and reopens the invoice |
| Receivables.OutstandingBounded | internal/receivables/invoices.go:272-307 | over every run, whatever the cents, outstanding is between zero and the amount and never below the amount less posted allocations |
| Receivables.OutstandingDrifts | internal/receivables/invoices.go:272-307 | over every run outstanding is the amount less posted allocations plus the drift of accepted half cents, capped at each void by what is still posted |
| Receivables.OutstandingIsExact | internal/receivables/invoices.go:272-307 | where the allocations accepted on an invoice agree with it, its outstanding is the amount less posted allocations and determines the status |
| Receivables.VoidRestores | internal/receivables/customer_payments.go:172-225 | over every run a void gives an invoice back what the payment took up to its amount, and exactly that where the allocations accepted on it agreed |
| Receivables.PaymentTotalIsExact | internal/receivables/customer_payments.go:78-92 | a payment's total is the sum of its allocations, whatever the cents |
| Receivables.WholeItemsAgree | services/api/internal/server/customer_invoices_handlers.go:335-358 | allocations in whole cents always agree |
| Receivables.ReceivablesRepo.ApplyInvoicePayment | internal/receivables/invoices.go:277-307 | reduces an open invoice of the customer that covers the amount, or says why not |
| Receivables.ReceivablesRepo.AddCustomerAllocation | internal/receivables/customer_payments.go:80-92 | records the rounded allocation and adds it to the payment |
| Receivables.ReceivablesRepo.RecordPayment | services/api/internal/server/customer_invoices_handlers.go:322-358 | all allocations or none |
| Receivables.ReceivablesRepo.ReverseCustomerPayment | internal/receivables/customer_payments.go:184-225 | restores each allocation and voids a posted payment once |
| GoodsReceipt.ReceivingIsSound | internal/inventory/deliveries.go:167-349 | over every run a line holds the sum of its deliveries, the lines together hold what was posted to stock, no stored match is over, received means every line within half a percent, and received stock rules out cancelling |
| GoodsReceipt.AcceptedIff | internal/inventory/deliveries.go:167-212 | a receipt is accepted if and only if the order is open for receiving, the tank fits and has an opening, the volume is at least half a thousandth, and the line stays within 100.5 percent |
| GoodsReceipt.MatchIs | internal/inventory/deliveries.go:189-212 | an accepted receipt is recorded short exactly when it leaves its line more than half a percent below the order, and matched otherwise |
| GoodsReceipt.StoredWithinCap | internal/inventory/deliveries.go:189-212 | an accepted receipt is stored within the cap if and only if rounding does not lift it across |
| GoodsReceipt.NeverOverReceived | internal/inventory/deliveries.go:97-103 | over every run a line ends within 100.5 percent of its order if and only if it began there and no accepted receipt on it was lifted across by rounding |
| GoodsReceipt.OvershootBounded | internal/inventory/deliveries.go:189-212 | over every run, whatever the volumes, a line passes the cap by at most half a thousandth |
| GoodsReceipt.WholeVolumesStay | internal/inventory/deliveries.go:189-212 | receipts in whole thousandths are never lifted |
| GoodsReceipt.HalfThousandthPassesCap | internal/inventory/deliveries.go:189-212 | a run from a draft order in which a receipt is accepted at the cap and stored above it |
| GoodsReceipt.LandedCostsAgree | internal/inventory/deliveries.go:258-266 | the stored cost and the stored cost per litre agree to within their rounding |
| GoodsReceipt.PurchaseOrder.AdvanceStatus | internal/inventory/deliveries.go:320-349 | one pass over the lines gives received, partially received or confirmed |
| GoodsReceipt.PurchaseOrder.ReceiveGoodsReceipt | internal/inventory/deliveries.go:167-309 | records the delivery, bumps the line, advances the order and posts the stock, or refuses without change, for a tank without an opening too; never over |
| GoodsReceipt.PurchaseOrder.TransitionPurchaseOrder | internal/procurement/purchase_orders.go:279-323 | moves along a valid transition only |
| Calibration.ParseCSV | internal/calibration/csv.go:24-88 | accepts exactly the charts of two or more lines of numbers with whole rising dips and volumes that never fall, reads both columns, and otherwise names the first line that cannot be read |
| Calibration.SortByDip | internal/calibration/interpolate.go:36-38 | puts the copy in order of dip without losing an entry |
| Calibration.Search | internal/calibration/interpolate.go:44-46 | finds the first entry at or past the dip |
| Calibration.Interpolate | internal/calibration/interpolate.go:31-61 | answers as the sorted chart does |
| Calibration.HitsPoints | internal/calibration/interpolate.go:27-30 | charted points are returned exactly |
| Calibration.BetweenNeighbours | internal/calibration/interpolate.go:54-60 | between two points the volume lies between theirs |
| Calibration.Proportional | internal/calibration/interpolate.go:54-60 | between two neighbouring points the volume lies on the straight line through them |
| Calibration.NonDecreasing | internal/calibration/csv.go:17-23 | more depth never means less fuel, across all segments |
| Calibration.OrderDoesNotMatter | internal/calibration/interpolate.go:27-61 | any order of a valid chart's entries gives the chart's volume, exactly on its range |

## Left out

- HTTP handlers, middleware, permissions, the web app, rendering: plumbing around the repositories.
- Connection pooling, row-level security, Redis, mail, tracing: foreign calls and configuration.
- List, page and get queries, and the plain record keeping packages: they would add only easy members.
- Identity, credentials and rate limits.
- Overflow of `numeric(p, s)` columns, and numeric text with an exponent, a plus sign, NaN or infinity.
- Floating point in volume formatting and chart parsing: exact numbers stand in, and a chart's fields arrive parsed.
- StockLedger: the check that deliveries, sales and transfers need an opening balance is in the serial model of the tank only.
- TankBook: a refused operation is the rollback of its transaction.
- TankBook.TankLedger.PersistDraft: a saved day is sealed or not; whether an unsealed one is a draft or an exception follows from its figures and tolerance and is not stored.
- ReportCompiler.Compose: builds a syntax tree, not SQL text; column labels and the scan of NULL cells into text are left out, and the FROM clause is the table it is given (the joins are in `ReportJoins`).
- ReportOrder: text is compared character by character with a minus before a point and a point before digits, as under the C collation.
- ReportCorrectness.RequestIs: whole numbers beyond 64 bits, and the text of a fraction, which is a parameter.
- ReportCorrectness.CompilationIsCorrect: how a column compares with one bound value, and a value the column's type cannot read, are the database's; both sides use its equality and order.
- ReportCompiler.SelectMeasures: a result key is a pair of measure and aggregate instead of their joined names, so a measure spelled like another's key is not modelled.
- ReportSpec.Validate: aggregates and operators outside the fixed lists, and the display hint, cannot be expressed.
- ShiftLocks: the handover gate, the verification of closing readings and the terminal lock of a day are not part of the protocol here.
- Journal: system-account lookup, memos and the trial balance.
- CreditExposure.CreditSafety: amounts are not negative, as the handlers demand (services/api/internal/server/fleet_authorization_handlers.go:48-51, services/api/internal/server/customers_handlers.go:292-295), and limits do not change during a run.
- JournalReports.FinalIffLocked: there is at least one account; without one nothing can be posted at all.
- CreditExposure.CreditDesk.RequestAuthorization: hold, status and credential checks are one blocked flag, and the limit that refuses is not named.
- CreditExposure.CreditDesk.FulfillAuthorization: the lookup of the sale it is fulfilled by is not modelled.
- Calibration.ParseCSV: fields arrive parsed; quoting and number syntax are not covered.
- CreditExposure: overrides, credential status and litre limits.
- Outbox: the order in which a publisher among several picks rows; any choice of unlocked pending rows is allowed.
