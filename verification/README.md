# Verification of the property-management platform

A Dafny model of the billing, import, identity and infrastructure cores of the platform, with proofs
about every run of them. `dafny verify dfyconfig.toml` checks the whole project.

Money is counted in whole units of 1/10000, the scale of every stored amount. A database table is a
sequence whose positions are the ids, or a map from its natural key. A transaction is one atomic step
that either happens or leaves every table as it was, unless it reads a row before it takes a lock: then
the read and the rest are two steps with anything in between, and what was read may be stale. A call may
stop between two of its steps. Services that update rows in place are classes whose methods are proved
against a step function on the tables; the theorems are about those functions, for every input, every
run and every interleaving.

Three parameters stand for what the database does. `chargeIndex` is the unique index on (tenant, charge
key) of invoice lines and `uuidJournals` the UUID type of `ledger_entries.journal_id`; both hold in the
schema, and safety is proved with and without them. `exclusive` means that of two transactions that read
a refresh token as unconsumed only one can write; the code takes no lock and sets no isolation level, so
it does not hold, and the results that assume it say so.

- **Money** (`Money`, `Ledger`, `Invoices`, `BillingRuns`, `Utilities`, `BillingSystem`, `KeyedPosting`,
  `KeyText`): double-entry posting with posting keys, invoices and credit notes, rent billing runs and
  utility allocations, on their own and on one set of tables.
- **Inventory** (`CsvLine`, `InventoryRules`, `InventoryExport`, `InventoryImport`, `ImportJobs`,
  `ImportClaims`, `ImportDelivery`): the CSV printer and reader (section 2 of RFC 4180), validation, the
  dry run, the claim, the worker, and the way from the commit event to the inventory.
- **Identity** (`AuthUserValidator`, `RefreshTokens`): rotation with reuse detection (section 4.14.2 of
  RFC 9700).
- **Infrastructure and algorithms** (`Outbox`, `Idempotency`, `Operations`, `RateLimit`,
  `DocumentNumbers`, `Periods`, with `Decimal` and `Prelude` shared).

## Where the code differs from what it says

- A posting key in use is meant to be "idempotent success" (ledger.service.ts:246, 332-335), and a failed
  statement of one preview line is meant to be one failure among others (billing-run.service.ts:539-548).
  PostgreSQL accepts no further statement after one that was refused, so in both cases the whole
  transaction is rolled back. The ledger is modelled both ways: `Ledger.PostKeepsBalanceIff` is the
  statement level, `Ledger.BooksStayBalanced` the transaction level, and
  `Ledger.SharedBatchUnbalances` and `Invoices.SkippingDuplicatesBreaksTheBooks` show that the
  rollback is what keeps the books right.
- `ledger_entries.journal_id` is a UUID column (prisma/schema/billing.prisma:386) while voiding and
  applying unapplied cash write other text to it (ledger.service.ts:410, 520). With that column a void of a
  positive total, and any application of unapplied cash, is refused: `Invoices.VoidSucceedsIff`,
  `Ledger.UnappliedPostsIff`.
- The schema has a unique index on (tenant, charge key) of invoice lines (prisma/schema/billing.prisma:299).
  Rent that was posted and voided can then never be billed again: the commit is refused
  (`BillingRuns.CommitOutcome`). With the UUID column only invoices of total 0 can be void and so stand in
  the way; with a text column every voided one does (`BillingRuns.StuckIsVoided`, and at runs
  `BillingSystem.VoidedRentIsStuckIff`).
- Rotating a refresh token reads it without a lock in a READ COMMITTED transaction (auth.service.ts:477-500,
  transaction.service.ts), so "Concurrent refresh detected" does not cover two transactions that overlap:
  `RefreshTokens.OneChainIff` says exactly when a family stays one chain, and
  `RefreshTokens.LateTokensAreReached` shows any number of tokens added after a logout. No check and no
  access token of a revoked session passes all the same (`RefreshTokens.RevocationIsFinal`).
- An idempotency key is looked at before the transaction and again at its end. Two calls that overlap are
  told apart by the tables: posts by the posting key, so that a zero total takes effect twice
  (`KeyedPosting.RacingPostsBothCountIff`), voids by the version read under the lock.
- The utility duplicate check looks only at POSTED and DRAFT invoices, unlike the rent check:
  `Utilities.UtilityBilledOnceWhileUnpaid` holds for unpaid invoices, and
  `Utilities.LiveChargeBilledAgainIff` says exactly when it ends; `BillingSystem.CreditedShareBilledAgain`
  is a run that ends it.
- Claiming a job is said to block the dry run and to prevent a second event (import.service.ts:404); a dry
  run already past its check is not blocked (`ImportClaims.LateDryRunDuplicatesTheEvent`). Checking the
  scope again at commit is meant to keep grant changes from widening writes (import.service.ts:378); the
  check is no transaction, and a dry run by another caller that ends after it brings back rows the
  committing caller may not touch (`ImportClaims.EscapesIff`, `ImportClaims.LateDryRunWidensTheClaim`).
  Checks that overlap count the rows they skip twice (`ImportClaims.OverlappingChecksMiscount`).
- Document numbers repeat when years go backwards, and when two first allocations of a counter overlap,
  since the unique key of a setting row includes the instant it takes effect
  (`DocumentNumbers.DistinctIffYearsStayTogether`, `DocumentNumbers.OverlappingFirstsRepeat`). The look-up
  after a refused insert (billing.rules.ts:223-239) is out of reach for the same reason as above.
- Cells with line feeds survive the line reader but not the file reader (`InventoryRules.PrintedLineSurvivesIff`); a
  BED unit without beds exports a row that validation rejects (`InventoryExport.RowRoundTrip`); the prior
  period key does not pad years below 1000 (`Periods.PriorKeyIsAKeyIff`); years below 100 become years of
  the twentieth century (`Periods.TwoDigitYearsCollide`).
- A rate limiter window of any position admits up to 2*limit - 1 calls (`RateLimit.WindowBound`,
  `RateLimit.WindowBoundIsReached`).

## Model

| member | source | states |
|---|---|---|
| `Money.RoundIsNearest` | apps/api/src/modules/billing/domain/billing.rules.ts:54-56 | a rounded amount is within half of 1/10000 of the value, and an exact half moves away from zero |
| `Money.RoundIsMonotone` | apps/api/src/modules/billing/domain/billing.rules.ts:54-56 | rounding keeps the order of amounts |
| `Money.RoundIsOdd` | apps/api/src/modules/billing/domain/billing.rules.ts:54-56 | rounding treats credits as the mirror image of debits |
| `Ledger.LedgerTable.EnsureDefaultAccounts` | apps/api/src/modules/billing/application/ledger.service.ts:156-243 | after the call the tenant has its old accounts and all six default ones |
| `Ledger.LedgerTable.PostBalancedJournal` | apps/api/src/modules/billing/application/ledger.service.ts:248-338 | refuses fewer than two lines, a non-positive amount or unequal sides with the table as it was; otherwise the outcome and table of writing line by line |
| `Ledger.LedgerTable.WriteLines` | apps/api/src/modules/billing/application/ledger.service.ts:295-337 | lines are appended until one meets a posting key in use; an unknown account leaves nothing behind |
| `Ledger.LedgerTable.PostSuffixedJournal` | apps/api/src/modules/billing/application/ledger.service.ts:408-435 | a journal whose id is text with a suffix: refused as a whole if the journal id column is a UUID, else posted like any other |
| `Ledger.LedgerTable.PostPaymentSettlementJournal` | apps/api/src/modules/billing/application/ledger.service.ts:486-592 | the settlement lines: cash or bank against AR and unapplied cash, or unapplied cash against AR, or no journal; applying unapplied cash is refused where journal ids are UUIDs |
| `Ledger.LedgerTable.PostPaymentReversalJournal` | apps/api/src/modules/billing/application/ledger.service.ts:595-656 | the reversal lines for the parts that are positive, or no journal |
| `Ledger.LedgerTable.PostRefundJournal` | apps/api/src/modules/billing/application/ledger.service.ts:659-720 | the refund lines for the parts that are positive, or no journal |
| `Ledger.PostKeepsBalanceIff` | apps/api/src/modules/billing/application/ledger.service.ts:260-337 | at statement level the books stay balanced unless a duplicate key is met after the first line; a duplicate at the first line and every rejection leave the table as it was |
| `Ledger.BalancedIff` | apps/api/src/modules/billing/application/ledger.service.ts:276-283 | appending lines keeps debits equal to credits, per tenant and currency, exactly when the lines balance among themselves |
| `Ledger.BooksStayBalanced` | apps/api/src/modules/billing/application/ledger.service.ts:248-338 | after any sequence of submitted journals, each a transaction, every tenant and currency balances, no posting key occurs twice, and entries are only appended |
| `Ledger.CreatedIff` | apps/api/src/modules/billing/application/ledger.service.ts:260-337 | lines of distinct keys on known accounts are created exactly when there are two or more, all amounts are positive, debits equal credits and the tenant has none of the keys in use |
| `Ledger.MissingAccountIff` | apps/api/src/modules/billing/application/ledger.service.ts:287-312 | an account that is neither the tenant's nor a default one rejects a journal exactly if no line before it meets a key in use |
| `Ledger.SettlementAcceptedIff` | apps/api/src/modules/billing/application/ledger.service.ts:486-592 | a settlement posts exactly when 0 <= allocated <= cash and some cash came in; its journal is well built |
| `Ledger.ReversalAcceptedIff` | apps/api/src/modules/billing/application/ledger.service.ts:595-656 | a reversal with a positive total is accepted exactly when neither part is negative |
| `Ledger.RefundAcceptedIff` | apps/api/src/modules/billing/application/ledger.service.ts:659-720 | a refund is accepted exactly when its positive parts add up to its amount |
| `Ledger.SettlementMoves` | apps/api/src/modules/billing/application/ledger.service.ts:546-592 | by account movements (debits less credits): an accepted settlement takes the allocation off receivables "1100", books the rest as owed on unapplied cash "1200", brings the whole cash to "1000" or, for other channels than CASH, "1010", and moves no other account |
| `Ledger.UnappliedMoves` | apps/api/src/modules/billing/application/ledger.service.ts:512-545 | applying unapplied cash moves the amount from "1200" to "1100" and nothing else |
| `Ledger.ReversalMoves` | apps/api/src/modules/billing/application/ledger.service.ts:595-656 | a reversal puts the allocated part back on receivables and the rest on unapplied cash, and takes both off cash or bank |
| `Ledger.RefundMoves` | apps/api/src/modules/billing/application/ledger.service.ts:659-720 | a refund takes its amount off cash or bank, against the positive parts from receivables and unapplied cash |
| `Ledger.DispositionMoves` | apps/api/src/modules/billing/application/ledger.service.ts:726-780 | a deposit leaves the liability "2200" for cash, revenue or receivables, by its kind; held or transferred it moves nothing |
| `Ledger.InvoiceMoves` | apps/api/src/modules/billing/application/ledger.service.ts:340-479 | an invoice moves its rounded amount from revenue "4000" to receivables; its void and a credit note move theirs back |
| `Ledger.PairJournalsAreWellBuilt` | apps/api/src/modules/billing/application/ledger.service.ts:340-479 | invoice, void, credit-note, deposit and from-unapplied journals have one line a side, distinct keys and default accounts |
| `Ledger.SharedBatchUnbalances` | apps/api/src/modules/billing/application/ledger.service.ts:520-545 | with text journal ids, were a duplicate key only skipped, settling and then applying unapplied cash under the payment's own batch id would write a debit without its credit |
| `Ledger.UnappliedPostsIff` | apps/api/src/modules/billing/application/ledger.service.ts:512-545 | applying a positive amount of unapplied cash with fresh keys is accepted exactly when journal ids may be text |
| `KeyText.PostingTextIsInjective` | apps/api/src/modules/billing/domain/billing.rules.ts:100-110 | two posting keys have the same text exactly when they are the same key, across all builders, for ids without colons |
| `KeyText.ChargeTextIsInjective` | apps/api/src/modules/billing/domain/billing.rules.ts:92-98 | two rent or utility charge keys have the same text exactly when they are the same key |
| `Invoices.RecomputeTotals` | apps/api/src/modules/billing/application/invoice.service.ts:543-557 | subtotal and tax are the sums over the lines, and the total is their sum |
| `Invoices.InvoiceTables.PostInvoiceRevenueJournal` | apps/api/src/modules/billing/application/ledger.service.ts:340-382 | the AR and revenue pair for the rounded amount, or no journal for an amount that is not positive |
| `Invoices.InvoiceTables.ReverseInvoiceJournal` | apps/api/src/modules/billing/application/ledger.service.ts:384-436 | the mirrored pair, each line pointing at the first original line of the other side; refused where journal ids are UUIDs |
| `Invoices.InvoiceTables.PostCreditNoteJournal` | apps/api/src/modules/billing/application/ledger.service.ts:438-479 | the revenue and AR pair of a credit note, or no journal |
| `Invoices.InvoiceTables.WritePostedInvoice` | apps/api/src/modules/billing/application/invoice.service.ts:209-257 | status, totals, balance, version and journal are written together, or everything is put back |
| `Invoices.InvoiceTables.PostDraftInvoiceInTransaction` | apps/api/src/modules/billing/application/invoice.service.ts:475-530 | a draft is posted; a missing or already posted invoice is left as it is |
| `Invoices.InvoiceTables.Void` | apps/api/src/modules/billing/application/invoice.service.ts:332-432 | checks in the order of the code; a posted invoice without posted credit notes becomes VOID with balance 0 and a mirrored journal, or everything is put back if the journal is refused |
| `Invoices.InvoiceTables.CheckInvoice` | apps/api/src/modules/billing/application/invoice.service.ts:170-216 | checks in the order of the code on the invoice as read; an already posted one is answered unchanged |
| `Invoices.InvoiceTables.ReadCreditNote` | apps/api/src/modules/billing/application/credit-note.service.ts:197-209 | the note is read and its version checked before any lock |
| `Invoices.InvoiceTables.FinishCall` | apps/api/src/modules/billing/application/credit-note.service.ts:135-150 | the rest of a call works on what it read, on the tables as they are by then |
| `Invoices.InvoiceTables.CheckCreditNote` | apps/api/src/modules/billing/application/credit-note.service.ts:89-150 | a note is only started on a POSTED or PARTIALLY_PAID invoice in its currency, with a total in (0, balance] |
| `Invoices.InvoiceTables.WriteCreditNote` | apps/api/src/modules/billing/application/credit-note.service.ts:223-283 | note, invoice and journal change together; the balance falls by the note, to PAID at zero |
| `Invoices.StepKeepsInv` | apps/api/src/modules/billing/application/invoice.service.ts:170-290 | every step of posting, voiding and crediting, also on stale reads, keeps the invariant that ties statuses, balances, notes and posting keys together |
| `Invoices.RunKeepsInv` | apps/api/src/modules/billing/application/invoice.service.ts:170-432 | the invariant holds after any run of such steps |
| `Invoices.BalanceIsReceivable` | apps/api/src/modules/billing/application/invoice.service.ts:223-257 | in every reachable state an invoice that is not a draft has as balance the signed AR sum of its invoice, void and credit-note entries; drafts have no entries; POSTED, PARTIALLY_PAID, PAID and VOID bound balance and posted notes as promised; debits equal credits |
| `Invoices.TotalsStayOfLines` | apps/api/src/modules/billing/application/invoice.service.ts:209-257 | in every reachable state subtotal and tax of an invoice that is no draft are the sums over its lines and its total is both |
| `Invoices.SumsAddUp` | apps/api/src/modules/billing/application/invoice.service.ts:543-557 | those sums take every line once |
| `Invoices.PostAdmittedIff` | apps/api/src/modules/billing/application/invoice.service.ts:170-216 | when a post goes on, is answered as it is, or is refused and why, by the status, version and lines of the row |
| `Invoices.NoteAdmittedIff` | apps/api/src/modules/billing/application/credit-note.service.ts:89-150 | a credit note is started exactly on a POSTED or PARTIALLY_PAID invoice, in its currency, for a positive total of at most its balance |
| `Invoices.NoteTotalIsNear` | apps/api/src/modules/billing/application/credit-note.service.ts:109-113 | the total of a note is within half of 1/10000 a line of the sum of its lines |
| `Invoices.NotePostAdmittedIff` | apps/api/src/modules/billing/application/credit-note.service.ts:197-209 | a post of a note goes on exactly for the version it expects and keeps the row it read |
| `Invoices.VoidSucceedsIff` | apps/api/src/modules/billing/application/invoice.service.ts:332-413 | in every reachable state a void goes through exactly when the version is the expected one, the invoice is POSTED without posted notes and, where journal ids are UUIDs, the total is 0; then status, balance and version of that invoice change and no other invoice or note does |
| `Invoices.NotePostsIff` | apps/api/src/modules/billing/application/credit-note.service.ts:223-283 | a draft note posts exactly when the balance covers it; the balance falls by the note and the invoice is then PAID at zero and PARTIALLY_PAID above |
| `Invoices.NoNoteOnVoid` | apps/api/src/modules/billing/application/credit-note.service.ts:223-274 | posting a note never succeeds on a VOID or PAID invoice, though the status is not looked at again |
| `Invoices.NoteCountsOnce` | apps/api/src/modules/billing/application/credit-note.service.ts:197-283 | a second post of a note, read before the first committed, leaves no trace |
| `Invoices.SkippingDuplicatesBreaksTheBooks` | apps/api/src/modules/billing/application/ledger.service.ts:326-337 | a second post of a note is refused for its key; were that key only skipped, the note would come off the balance again and not off the ledger, whenever the balance still covers it |
| `Invoices.LenientIsStrictOnFreshKeys` | apps/api/src/modules/billing/application/ledger.service.ts:326-337 | where no key is in use, skipping and refusing come to the same |
| `Invoices.StalePostGoesThroughIff` | apps/api/src/modules/billing/application/invoice.service.ts:170-257 | a post that finishes after another post or a void succeeds exactly when the total is zero, and then revives the invoice as POSTED |
| `Invoices.StalePostAfterVoid` | apps/api/src/modules/billing/application/invoice.service.ts:170-257 | at runs from empty books, for every amount: two reads, a post, a void, and the second post goes through exactly for the amount 0 |
| `Invoices.PostingSyncsIff` | apps/api/src/modules/billing/application/invoice.service.ts:209-257 | posting a draft keeps balance and ledger together exactly when its total is not negative |
| `BillingRuns.BuildPreview` | apps/api/src/modules/billing/application/billing-run.service.ts:737-820 | one line per lease in scope with a current term, with the running total, or the currency error |
| `BillingRuns.PreviewedIff` | apps/api/src/modules/billing/application/billing-run.service.ts:749-772 | a preview has a line for a lease exactly when the lease is not deleted, is ACTIVE or in NOTICE, is occupied or has a schedule, has a current term, and is in the run's property if the run has one |
| `BillingRuns.PreviewedAtTerm` | apps/api/src/modules/billing/application/billing-run.service.ts:773-795 | every line is for the rent and in the currency of the current term of its lease |
| `BillingRuns.PreviewOkIff` | apps/api/src/modules/billing/application/billing-run.service.ts:775-782 | a preview goes through exactly when all those leases, and the run if it has a currency, are in one currency |
| `BillingRuns.BillingRunTables.EnsureSchedulesForScope` | apps/api/src/modules/billing/application/billing-run.service.ts:822-839 | every live lease in scope has a schedule afterwards, nothing else changes |
| `BillingRuns.BillingRunTables.PreviewBillingRun` | apps/api/src/modules/billing/application/billing-run.service.ts:217-245 | a preview is stored unless the version is stale, the run is completed or currencies are mixed |
| `BillingRuns.BillingRunTables.ApproveBillingRun` | apps/api/src/modules/billing/application/billing-run.service.ts:282-301 | only a previewed or approved run of the expected version is approved |
| `BillingRuns.PreviewStoredIff` | apps/api/src/modules/billing/application/billing-run.service.ts:217-245 | a preview is stored exactly for a run of the expected version that is not completed and bills in one currency; what it writes, and the reply otherwise |
| `BillingRuns.ApprovedIff` | apps/api/src/modules/billing/application/billing-run.service.ts:282-301 | a run is approved exactly from PREVIEWED or APPROVED in the expected version |
| `BillingRuns.CommitAdmittedIff` | apps/api/src/modules/billing/application/billing-run.service.ts:460-495 | a commit goes on exactly if its run is not completed, has the version asked for and, where approval is required, is APPROVED, FAILED or PARTIAL; a completed run is answered as it is |
| `BillingRuns.LineSkippedOrFailedIff` | apps/api/src/modules/billing/application/billing-run.service.ts:602-633 | a line is skipped exactly if its charge is on a POSTED, PARTIALLY_PAID or PAID invoice of its lease for the period, and else fails exactly if its lease is gone or has no party to bill |
| `BillingRuns.DraftIsUsedAgain` | apps/api/src/modules/billing/application/billing-run.service.ts:635-725 | a draft the run already has for the lease and period is posted, with the line added unless its charge is on it |
| `BillingRuns.IndexRefusesOnlyTaken` | apps/api/src/modules/billing/application/billing-run.service.ts:649-707 | the unique index makes a difference only where the charge is on an invoice line already, and then the line is refused |
| `BillingRuns.CommitTakesStoredPreview` | apps/api/src/modules/billing/application/billing-run.service.ts:505-528 | a commit takes the lines of the preview it read; if there are none it builds and stores one |
| `BillingRuns.BillingRunTables.ReadRun` | apps/api/src/modules/billing/application/billing-run.service.ts:460-495 | the run row is read and checked without a lock; what was read is kept |
| `BillingRuns.BillingRunTables.UpsertAndPostPreviewLine` | apps/api/src/modules/billing/application/billing-run.service.ts:594-735 | skip, fail, abort or post one line, with the books each leaves |
| `BillingRuns.BillingRunTables.CommitPreviewLines` | apps/api/src/modules/billing/application/billing-run.service.ts:529-548 | the loop over the preview lines: failures counted, an aborted statement ends it |
| `BillingRuns.BillingRunTables.PostOrRollBack` | apps/api/src/modules/billing/application/billing-run.service.ts:529-568 | an aborted loop leaves every table as it was |
| `BillingRuns.BillingRunTables.ExecuteCommit` | apps/api/src/modules/billing/application/billing-run.service.ts:505-568 | from the lock on: schedules, stored or rebuilt preview, lines, final status and version |
| `BillingRuns.BillingRunTables.UpdateRow` | apps/api/src/modules/billing/application/billing-run.service.ts:511-568 | COMPLETED, FAILED or PARTIAL by the failures, two version steps, and the preview the commit had to build |
| `BillingRuns.PreviewTotal` | apps/api/src/modules/billing/application/billing-run.service.ts:766-818 | a preview's total is the sum of its lines |
| `BillingRuns.PreviewFacts` | apps/api/src/modules/billing/application/billing-run.service.ts:766-818 | a preview has at most one line per lease, each of a lease examined so far and with the rent key of its lease and period |
| `Invoices.PostingDraftSucceeds` | apps/api/src/modules/billing/application/invoice.service.ts:475-530 | in a consistent state posting a draft always goes through and raises receivables by its total |
| `BillingRuns.DueLinePosts` | apps/api/src/modules/billing/application/billing-run.service.ts:602-735 | a due line becomes one posted invoice of exactly its amount |
| `BillingRuns.CommitEffect` | apps/api/src/modules/billing/application/billing-run.service.ts:529-568 | one commit: it aborts exactly when a due charge sits on a dead invoice line under the unique index; otherwise receivables rise by exactly the due lines, only unbillable leases fail, and every other line is live |
| `BillingRuns.CommitOutcome` | apps/api/src/modules/billing/application/billing-run.service.ts:459-592 | in every reachable state: when a commit is refused, what it adds to receivables, that it ends COMPLETED exactly when each line was live or billable (and then every line is live), FAILED exactly when there are lines and none was, and PARTIAL otherwise |
| `BillingRuns.CommitBillsOnlyItsScope` | apps/api/src/modules/billing/application/billing-run.service.ts:515-568 | every invoice added by a commit that builds its preview is a POSTED one for the current rent of a lease in force, of the run's property if it has one, with one line on the rent key of lease and period |
| `BillingRuns.CommitBillsItsWholeScope` | apps/api/src/modules/billing/application/billing-run.service.ts:509-568 | and no lease of that scope with a term and a party is left out: each has a rent line on a POSTED, PARTIALLY_PAID or PAID invoice afterwards |
| `BillingRuns.StuckIsVoided` | apps/api/src/modules/billing/application/billing-run.service.ts:602-616 | a due charge that is taken sits on a VOID invoice of its lease, of total 0 where journal ids are UUIDs |
| `BillingSystem.VoidedRentIsStuckIff` | apps/api/src/modules/billing/application/billing-run.service.ts:459-592 | at runs from empty tables, for every rent: bill, void, commit a new run; the void goes through exactly when journal ids may be text or the rent is 0, and with the unique index the second commit is refused exactly then |
| `BillingRuns.CompletedMeansBilled` | apps/api/src/modules/billing/application/billing-run.service.ts:550-568 | a commit that ends COMPLETED leaves a live line for every preview line |
| `BillingRuns.RecommitPostsNothing` | apps/api/src/modules/billing/application/billing-run.service.ts:602-616 | committing the same lines again, by any run, changes no table and fails no further lease |
| `BillingRuns.FreshPeriodPostsTheTotal` | apps/api/src/modules/billing/application/billing-run.service.ts:515-568 | from a period with nothing live and billable leases, receivables rise by exactly the previewed total |
| `BillingRuns.BooksStepKeepsCharges` | apps/api/src/modules/billing/application/billing-run.service.ts:602-616 | posts, voids and credit notes keep each rent charge on at most one live line |
| `BillingRuns.SysRunKeepsInv` | apps/api/src/modules/billing/application/billing-run.service.ts:439-592 | the system invariant holds over every interleaving of reads, commits, previews, approvals and invoice steps |
| `BillingRuns.RentBilledOnce` | apps/api/src/modules/billing/application/billing-run.service.ts:460-506 | over every interleaving, with run rows however stale, a rent charge is on at most one POSTED, PARTIALLY_PAID or PAID line, of its own lease and period; with the unique index on at most one line at all |
| `BillingRuns.BillingKeepsInvoicesTrue` | apps/api/src/modules/billing/application/billing-run.service.ts:439-592 | the same interleavings keep every invoice balance equal to the ledger and the ledger balanced |
| `Utilities.ShareIsFair` | apps/api/src/modules/billing/application/utility-allocation.service.ts:79-82 | n equal shares differ from the total by at most n/2 units of 1/10000, and meet it exactly when n divides it |
| `Utilities.PreviewLinesAreTheOccupied` | apps/api/src/modules/billing/application/utility-allocation.service.ts:67-90 | an allocation has one line, on its own charge key, for each lease of the property that is not deleted, is ACTIVE or in NOTICE and is occupied, and for no other |
| `Utilities.AllocationSharesTheTariff` | apps/api/src/modules/billing/application/utility-allocation.service.ts:79-90 | the lines share fixed charge plus one unit at the rate: all for one amount in the tariff's currency, together off by at most half of 1/10000 a line |
| `Utilities.StoredTotalIsNShares` | apps/api/src/modules/billing/application/utility-allocation.service.ts:92-108 | the stored total is n times the share, which is the sum of the lines |
| `Utilities.UtilityTables.PostAllocations` | apps/api/src/modules/billing/application/utility-allocation.service.ts:179-263 | the loop: skip a missing lease, no bill-to party or a POSTED or DRAFT line with the key, else create and post |
| `Utilities.UtilityTables.Commit` | apps/api/src/modules/billing/application/utility-allocation.service.ts:138-268 | a committed run is answered as it is; otherwise all shares post and the run is COMMITTED, or nothing changes |
| `Utilities.ShareSkippedIff` | apps/api/src/modules/billing/application/utility-allocation.service.ts:190-217 | a share is skipped exactly if its lease is gone or has no party, or its charge is on a POSTED or DRAFT invoice of the lease; else only the unique index can refuse it, and what is posted is its invoice |
| `Utilities.AllocationCommit` | apps/api/src/modules/billing/application/utility-allocation.service.ts:179-263 | a commit aborts exactly when a share to be posted has its key on a line the duplicate check does not see, under the unique index; otherwise receivables rise by exactly the shares not covered before |
| `Utilities.FreshAllocationPostsItsTotal` | apps/api/src/modules/billing/application/utility-allocation.service.ts:84-108 | with fresh keys and billable leases a commit raises receivables by exactly the stored total |
| `Utilities.RacingCommitPostsNothing` | apps/api/src/modules/billing/application/utility-allocation.service.ts:138-162 | a second commit that read the run before the first committed posts nothing |
| `Utilities.UtilityBilledOnceWhileUnpaid` | apps/api/src/modules/billing/application/utility-allocation.service.ts:206-217 | after any run of allocations and invoice steps a utility charge is on at most one POSTED or DRAFT line; with the unique index on at most one line at all |
| `Utilities.LiveChargeBilledAgainIff` | apps/api/src/modules/billing/application/utility-allocation.service.ts:207-217 | without the index a live utility charge is billed a second time exactly when no invoice with it is unpaid any more |
| `BillingSystem.CreditedShareBilledAgain` | apps/api/src/modules/billing/application/utility-allocation.service.ts:206-217 | at runs from empty tables, for every amount: a commit, a credit of one unit, then a second commit of the same run that read the run row before the first was done (a later one is answered as committed, and there is one run per property, period and method); without the unique index on charge keys the charge is on two live invoices, with it the second commit is refused |
| `BillingSystem.CommitKeepsUtilities` | apps/api/src/modules/billing/application/billing-run.service.ts:529-548 | a rent commit keeps each utility charge on at most one unpaid line |
| `BillingSystem.AllocateKeepsCharges` | apps/api/src/modules/billing/application/utility-allocation.service.ts:179-263 | an allocation keeps each rent charge on at most one live line |
| `BillingSystem.JointSystem` | apps/api/src/modules/billing/application/billing-run.service.ts:439-592 | over every interleaving of rent runs, allocations, posts, voids and credit notes: invoices true to a balanced ledger, rent on one live line, utilities on one unpaid line, and with the unique index each charge on one line |
| `CsvLine.ParseCsvLine` | apps/api/src/modules/imports/domain/inventory-import.rules.ts:79-104 | the character loop returns the cells of the line |
| `CsvLine.ReadEscaped` | apps/api/src/modules/imports/application/export.service.ts:228-236 | an escaped cell before a comma or at the end is read as that one cell |
| `CsvLine.ReadInvertsPrint` | apps/api/src/modules/imports/application/export.service.ts:228-236 | for every non-empty list of arbitrary strings, parsing the printed line gives the list back |
| `InventoryRules.ParseInventoryCsv` | apps/api/src/modules/imports/domain/inventory-import.rules.ts:107-134 | byte-order mark, line splitting, blank lines, lower-cased headers, missing cells and repeated headers |
| `InventoryRules.ApplyColumnMapping` | apps/api/src/modules/imports/domain/inventory-import.rules.ts:137-154 | mapped columns are added from the unmapped cells, in order |
| `InventoryRules.LastSourceWins` | apps/api/src/modules/imports/domain/inventory-import.rules.ts:146-152 | under a mapped column stands the cell of the last source mapped to it that the row has; columns that are no target stay |
| `InventoryRules.AmenityCodesAreRead` | apps/api/src/modules/imports/domain/inventory-import.rules.ts:268-274 | the amenity codes are exactly the trimmed, non-empty pieces of the cell between "|" and ";" |
| `InventoryRules.FirstErrorIsTold` | apps/api/src/modules/imports/domain/inventory-import.rules.ts:200-266 | a rejected row is told the first check it fails, in the order of the code |
| `InventoryRules.AcceptedIffWellFormed` | apps/api/src/modules/imports/domain/inventory-import.rules.ts:164-298 | a row is accepted exactly when its trimmed, defaulted and upper-cased fields are well formed and its capacity is given where needed; it is accepted as just those fields |
| `InventoryRules.PrintedLineSurvivesIff` | apps/api/src/modules/imports/domain/inventory-import.rules.ts:107-118 | a printed line read as part of a file stays one line exactly when no cell has a line feed, although the line reader itself always reads it back |
| `InventoryExport.ToCsv` | apps/api/src/modules/imports/application/export.service.ts:128-181 | header line and one line per unit or per bed |
| `InventoryExport.PushUnit` | apps/api/src/modules/imports/application/export.service.ts:150-180 | a BED unit with beds prints one row per bed, any other unit one row |
| `InventoryExport.PrintableIff` | apps/api/src/modules/imports/domain/inventory-import.rules.ts:75-77 | the texts a cell can carry through a file are exactly the trimmed ones on one line |
| `InventoryExport.RowRoundTrip` | apps/api/src/modules/imports/domain/inventory-import.rules.ts:164-298 | a printed row of a clean unit validates to exactly its DTO, and is rejected if it is a BED unit without beds |
| `InventoryExport.ReadOfExport` | apps/api/src/modules/imports/domain/inventory-import.rules.ts:107-134 | parsing an exported file gives the header row and one row per printed row with its columns under their names |
| `InventoryExport.ExportImportRoundTrip` | apps/api/src/modules/imports/domain/inventory-import.rules.ts:300-338 | validating an exported file yields, row by row, the result of the row it was printed from |
| `InventoryImport.Worker.UpsertProperty` | apps/worker/src/handlers/inventory-import.handler.ts:177-230 | first row of a run writes the property, later rows use the cache |
| `InventoryImport.Worker.UpsertBuilding` | apps/worker/src/handlers/inventory-import.handler.ts:232-270 | a building is created unless it exists |
| `InventoryImport.Worker.UpsertUnit` | apps/worker/src/handlers/inventory-import.handler.ts:272-339 | first row of a run writes the unit, later rows use the cache |
| `InventoryImport.Worker.UpsertBed` | apps/worker/src/handlers/inventory-import.handler.ts:341-390 | every bed row writes its label |
| `InventoryImport.BedIsWrittenIff` | apps/worker/src/handlers/inventory-import.handler.ts:97-134 | a row writes a bed exactly if it is let by the bed and names bed code and label, under just those |
| `InventoryImport.Worker.LinkAmenities` | apps/worker/src/handlers/inventory-import.handler.ts:392-419 | links each active amenity of the row to property and unit, once |
| `InventoryImport.Worker.ApplyRow` | apps/worker/src/handlers/inventory-import.handler.ts:97-134 | the writes of one row in order, and what the caches remember |
| `InventoryImport.Worker.ApplyRows` | apps/worker/src/handlers/inventory-import.handler.ts:92-142 | wherever the worker is cut off, the database holds a prefix of the writes of an uninterrupted run |
| `InventoryImport.Worker.ProcessInventoryImportCommit` | apps/worker/src/handlers/inventory-import.handler.ts:58-175 | one delivery: nothing for a finished job, else the rows and the final status, or PROCESSING or FAILED when cut off |
| `InventoryImport.RerunAbsorbs` | apps/worker/src/handlers/inventory-import.handler.ts:92-142 | running again after any prefix of the writes gives the inventory of one run |
| `InventoryImport.ImportIsResumable` | apps/worker/src/handlers/inventory-import.handler.ts:58-175 | any number of deliveries cut off anywhere, then a complete one, give the inventory of one uninterrupted run; later deliveries change nothing |
| `InventoryImport.ImportedInventory` | apps/worker/src/handlers/inventory-import.handler.ts:97-142 | what a run leaves under each key: first row per property and unit, last label per bed, the union of buildings and amenity links, everything else untouched |
| `InventoryImport.CachesAreInvisibleIff` | apps/worker/src/handlers/inventory-import.handler.ts:88-91 | the caches change no outcome exactly when first and last row of every property and of every unit agree |
| `InventoryImport.ImportOfExportIsIdentity` | apps/worker/src/handlers/inventory-import.handler.ts:97-142 | importing an export of clean units, none a BED unit without beds, accepts every row as its DTO and leaves the inventory unchanged up to versions |
| `ImportJobs.DryRunRows` | apps/api/src/modules/imports/application/import.service.ts:194-288 | each row's verdict, told from the rows before it, and the counts of the verdicts |
| `ImportJobs.EveryRowIsCounted` | apps/api/src/modules/imports/application/import.service.ts:282-288 | accepted, rejected and skipped rows add up to all rows |
| `ImportJobs.AcceptedIff` | apps/api/src/modules/imports/application/import.service.ts:208-270 | a row is accepted exactly when it is valid, not a duplicate (bed rows excepted), its property is a known one of the caller's scope where there is a scope, and all its amenities are active |
| `ImportJobs.VerdictOnValidRow` | apps/api/src/modules/imports/application/import.service.ts:219-277 | status and reason of every valid row, by duplicate, property and scope, and amenities, in that order |
| `ImportJobs.CompletedMeansEveryRow` | apps/worker/src/handlers/inventory-import.handler.ts:145-153 | a job whose rows are handed over as counted ends COMPLETED exactly when every row was accepted, else PARTIALLY_COMPLETED |
| `ImportJobs.FailedMeans` | apps/worker/src/handlers/inventory-import.handler.ts:145-175 | a delivery ends FAILED exactly if it throws, or gets through with rows counted as accepted and none to apply; one that just stops leaves the job PROCESSING |
| `ImportJobs.LaterRowsOfAUnitAreBeds` | apps/api/src/modules/imports/application/import.service.ts:220-232 | of two accepted rows for one unit the later is a bed row |
| `ImportJobs.UnitTextDecides` | apps/api/src/modules/imports/application/import.service.ts:220-221 | for property codes without a colon the duplicate text stands for exactly one unit |
| `ImportJobs.ColonsMakeFalseDuplicates` | apps/api/src/modules/imports/application/import.service.ts:220-221 | with colons, different units of different properties share a text |
| `ImportJobs.ReapplyPropertyScopeAtCommit` | apps/api/src/modules/imports/application/import.service.ts:515-585 | accepted rows outside the present scope become skipped, and the counts move with them |
| `ImportJobs.ScopeOnlyNarrows` | apps/api/src/modules/imports/application/import.service.ts:378-379 | of one check with nothing in between: the rows still accepted are exactly those accepted before whose property is a known one of the present scope, counts go on matching rows, and a second check changes nothing |
| `ImportJobs.ExportPassesDryRunIff` | apps/api/src/modules/imports/application/import.service.ts:208-280 | an export in the caller's scope passes the dry run whole exactly when no unit but one let by the bed has the unit text of an earlier one |
| `ImportJobs.PlainCodesAreApart` | apps/api/src/modules/imports/application/import.service.ts:220-221 | which holds for distinct units whose property codes have no colon |
| `ImportJobs.ImportOfExportThroughDryRun` | apps/api/src/modules/imports/application/import.service.ts:173-280 | export, validate, dry run, apply leaves the inventory as it was whichever rows are taken for duplicates, and hands every DTO to the worker when units are apart |
| `ImportClaims.ImportJobTable.BeginDryRun` | apps/api/src/modules/imports/application/import.service.ts:161-172 | a dry run is refused while a job is claimed or finished |
| `ImportClaims.ImportJobTable.EndDryRun` | apps/api/src/modules/imports/application/import.service.ts:304-329 | a dry run ends by replacing the rows, writing their counts and queueing the job, whatever its status has become |
| `ImportClaims.ImportJobTable.AdmitCommit` | apps/api/src/modules/imports/application/import.service.ts:361-376 | a commit is refused before any dry run has ended, and a replay once the job is claimed or finished |
| `ImportClaims.ImportJobTable.SkipNextRow` | apps/api/src/modules/imports/application/import.service.ts:543-565 | one row of the scope check is skipped by its id; where a dry run has replaced the rows the commit fails |
| `ImportClaims.ImportJobTable.ClaimJob` | apps/api/src/modules/imports/application/import.service.ts:404-439 | QUEUED or FAILED becomes PROCESSING with one event; anything else is a replay |
| `ImportClaims.ClaimTakesIff` | apps/api/src/modules/imports/application/import.service.ts:404-439 | a claim ends its commit, and takes the job with one more event exactly from QUEUED or FAILED |
| `ImportClaims.HandlerStartsIff` | apps/worker/src/handlers/inventory-import.handler.ts:64-77 | a handler goes to work exactly on a job that was claimed and is not COMPLETED or PARTIALLY_COMPLETED |
| `ImportClaims.HandlerLeaves` | apps/worker/src/handlers/inventory-import.handler.ts:144-175 | the status and the counts a handler leaves, by what it read, what it applied and whether it failed |
| `ImportClaims.RunKeepsInv` | apps/api/src/modules/imports/application/import.service.ts:378-439 | over every interleaving of dry runs, commits step by step and handlers: a claim follows an ended dry run, and while no other has ended since, no row out of the committing caller's scope is accepted but those still on the list of its check |
| `ImportClaims.EscapesIff` | apps/api/src/modules/imports/application/import.service.ts:378-439 | the rows up for a handler leave the committing caller's scope exactly when the last dry run to end accepted a row this caller is denied and no check has skipped it since; that dry run then ended after the check read the rows |
| `ImportClaims.FetchedRowsAreAllowed` | apps/api/src/modules/imports/application/import.service.ts:378-379 | while no dry run has ended since the check, a handler fetches only rows whose property code is known and in the scope of the committing caller |
| `ImportClaims.LateDryRunWidensTheClaim` | apps/api/src/modules/imports/application/import.service.ts:304-329 | a run from a new job, for every file and every scope: a dry run by an unrestricted caller ends between check and claim, and the handler gets every row that caller may import |
| `ImportClaims.UndisturbedCheck` | apps/api/src/modules/imports/application/import.service.ts:515-585 | with nothing in between, the statements of a check come to the rows and counts of `ImportJobs.ScopeOnlyNarrows` |
| `ImportClaims.OverlappingChecksMiscount` | apps/api/src/modules/imports/application/import.service.ts:572-584 | a run from a new job, for every file and scope: after two overlapping checks the counts match the rows exactly if there was nothing to skip |
| `ImportClaims.EventsAreClaims` | apps/api/src/modules/imports/application/import.service.ts:404-439 | the exact law over any interleaving: after the first, a job gets one event for each reopening that a claim follows, and no other |
| `ImportClaims.ReopenedIff` | apps/api/src/modules/imports/application/import.service.ts:304-329 | only a delivery that ends FAILED or a dry run already past its check reopens a job |
| `ImportClaims.OneEventIff` | apps/api/src/modules/imports/application/import.service.ts:404-439 | a job has at most one event exactly when no failed delivery, and no dry run that began before the job was taken and ended after, is followed by a claim |
| `ImportClaims.LateDryRunDuplicatesTheEvent` | apps/api/src/modules/imports/application/import.service.ts:404-426 | a run from a new job, dry-run before it is committed, in which a second dry run ends after the claim and the next commit appends a second event |
| `ImportDelivery.PublishedMeansImported` | apps/worker/src/outbox/outbox-consumer.service.ts:111-186 | over every interleaving of pollers with crashes and handlers cut off after any write: once the event is PUBLISHED the inventory is that of one uninterrupted run; before that one complete delivery is enough; a rejected tenant never touches it |
| `ImportDelivery.DispatchedIff` | apps/worker/src/handlers/inventory-import.handler.ts:69-77 | the event counts as dispatched exactly if the job is finished already, and then the inventory is not touched again, or the handler gets through all the writes |
| `ImportDelivery.OneDeliverySuffices` | apps/worker/src/handlers/inventory-import.handler.ts:58-175 | from any state so reached, one poller that gets through publishes the event and completes the import |
| `AuthUserValidator.AssertActiveUser` | apps/api/src/common/auth/auth-user.validator.ts:10-71 | a token is accepted exactly while its user and session are live with the same token version; it acts for the session's organization only while the session's membership carries it |
| `RefreshTokens.AuthService.CompleteLogin` | apps/api/src/modules/identity/application/auth.service.ts:329-361 | a login adds a session and the first token of a new family |
| `RefreshTokens.AuthService.CheckRefresh` | apps/api/src/modules/identity/application/auth.service.ts:406-475 | every outcome of the checks: refused, reuse detected, context dropped, or passed; told in the rows by `RefreshTokens.CheckPassesIff` and `RefreshTokens.PassedFor` |
| `RefreshTokens.CheckPassesIff` | apps/api/src/modules/identity/application/auth.service.ts:418-454 | a check passes exactly for a token that exists, is unrevoked, unconsumed and not expired, of an active session whose user is not disabled; reuse is detected exactly for such a token that is consumed |
| `RefreshTokens.PassedFor` | apps/api/src/modules/identity/application/auth.service.ts:456-475 | a passed check goes on for the session's organization, unless its membership is gone or suspended: then for none, and the session forgets it |
| `RefreshTokens.AuthService.FindCurrent` | apps/api/src/modules/identity/application/auth.service.ts:477-484 | the transaction's unlocked read: a consumed token is a conflict, else the call goes on with what it read |
| `RefreshTokens.AuthService.WriteReplacement` | apps/api/src/modules/identity/application/auth.service.ts:486-504 | the replacement is added and the token marked by id, whatever it has become since; only exclusive rotations refuse a token consumed meanwhile |
| `RefreshTokens.AuthService.RevokeFamilyTokens` | apps/api/src/modules/identity/application/auth.service.ts:889-905 | all tokens of the family are revoked and no other |
| `RefreshTokens.AuthService.RevokeFamilySessions` | apps/api/src/modules/identity/application/auth.service.ts:905-918 | exactly the sessions of the family's tokens become inactive |
| `RefreshTokens.AuthService.RevokeSessionRow` | apps/api/src/modules/identity/application/auth.service.ts:920-928 | exactly the given session becomes inactive |
| `RefreshTokens.AuthService.RevokeSessionTokens` | apps/api/src/modules/identity/application/auth.service.ts:929-933 | exactly the tokens of the session are revoked |
| `RefreshTokens.OneOpenTokenPerFork` | apps/api/src/modules/identity/application/auth.service.ts:406-504 | over every interleaving a family has one unconsumed token and one more for every rotation that wrote on a token consumed since its read |
| `RefreshTokens.ForkIsOverlap` | apps/api/src/modules/identity/application/auth.service.ts:477-504 | such a rotation is one between whose read and writes another rotation of the token wrote |
| `RefreshTokens.OneChainIff` | apps/api/src/modules/identity/application/auth.service.ts:477-504 | a family is one chain of replacements with one unconsumed token exactly when no rotation of its tokens wrote between another's read and writes |
| `RefreshTokens.OneUnconsumedToken` | apps/api/src/modules/identity/application/auth.service.ts:429-504 | assuming exclusive rotations: over every interleaving each family is one chain and exactly its end is not consumed |
| `RefreshTokens.ReplacedWasChecked` | apps/api/src/modules/identity/application/auth.service.ts:429-504 | over every interleaving: whenever a token is replaced, an earlier check of the same call and token found it unexpired, unrevoked and unconsumed, its session active and its user enabled |
| `RefreshTokens.ExpiredIsNeverReplaced` | apps/api/src/modules/identity/application/auth.service.ts:429-434 | a token all of whose checks come after it has expired never gets a replacement |
| `RefreshTokens.RevocationIsFinal` | apps/api/src/modules/identity/application/auth.service.ts:429-475 | once a session is revoked, no later check of a refresh on its tokens passes and no access token for it is accepted |
| `RefreshTokens.LateTokens` | apps/api/src/modules/identity/application/auth.service.ts:477-504 | a revoked session's family gains at most as many tokens as rotations were in flight |
| `RefreshTokens.LateTokensAreReached` | apps/api/src/modules/identity/application/auth.service.ts:477-504 | for every k a run from empty tables leaves k late tokens after a complete logout, unrevoked and unconsumed |
| `RefreshTokens.AtMostOneLateToken` | apps/api/src/modules/identity/application/auth.service.ts:477-504 | assuming exclusive rotations: the late tokens are at most one, and none if no rotation was in flight |
| `RefreshTokens.StepKeepsConsumed` | apps/api/src/modules/identity/application/auth.service.ts:429-500 | a consumed token stays consumed and is refused or detected; its replacement changes exactly when a rotation that read it before writes without exclusion |
| `RefreshTokens.ReuseRevokesFamily` | apps/api/src/modules/identity/application/auth.service.ts:889-918 | after reuse is detected and both statements have run, every token and the session of the family are revoked |
| `Outbox.AcceptedClaimIsTheTenant` | apps/worker/src/outbox/tenant-context.ts:25-52 | a tenant claimed by a payload is accepted only if it is the event's own tenant |
| `Outbox.TenantPassesIff` | apps/worker/src/outbox/tenant-context.ts:25-52 | an event is let through exactly if it has no tenant and claims none, or its tenant is a UUID and equals the claim, if there is one; which reason is given otherwise |
| `Outbox.UuidIff` | apps/worker/src/outbox/tenant-context.ts:7-11 | the texts taken for UUIDs, group by group |
| `Outbox.Consumer.ProcessEvent` | apps/worker/src/outbox/outbox-consumer.service.ts:79-186 | one event handled to the end; true exactly when this call published it |
| `Outbox.Consumer.Poll` | apps/worker/src/outbox/outbox-consumer.service.ts:50-77 | the page is handled in order and the count is the number published by this poll |
| `Outbox.RunKeepsInv` | apps/worker/src/outbox/outbox-consumer.service.ts:111-186 | over every interleaving of pollers with crashes between any two steps the event, message and dispatch records stay consistent |
| `Outbox.PublishedOnce` | apps/worker/src/outbox/outbox-consumer.service.ts:86-186 | processEvent is true at most once per event; PUBLISHED implies a successful dispatch and exactly one processed row; FAILED implies a tenant mismatch |
| `Outbox.PublishedOnceFromEmpty` | apps/worker/src/outbox/outbox-consumer.service.ts:86-186 | the same in every state reached from empty tables |
| `Outbox.StatusMovesOnce` | apps/worker/src/outbox/outbox-consumer.service.ts:86-109 | an event leaves PENDING at most once and nothing else about it changes |
| `Outbox.PublishedIffProcessed` | apps/worker/src/outbox/outbox-consumer.service.ts:120-186 | in every state reached from empty tables an event is PUBLISHED exactly if its processed row is there, so that a recording refused by the index has nothing left to do |
| `Outbox.PhasesAdvance` | apps/worker/src/outbox/outbox-consumer.service.ts:79-150 | a worker goes from taking to checking to dispatching an event and never back, so that it is dispatched at most once each time it is taken |
| `Outbox.NewEventIsConsumed` | apps/worker/src/outbox/outbox-consumer.service.ts:79-186 | a new event becomes FAILED by its tenant, PUBLISHED by a dispatch that succeeds, and else stays PENDING |
| `Outbox.CrashRepeatsDispatch` | apps/worker/src/outbox/outbox-consumer.service.ts:111-150 | a crash between dispatch and record makes the event be dispatched again |
| `Idempotency.IdempotencyKeys.ResolveOrCreate` | apps/api/src/infrastructure/idempotency/idempotency.service.ts:69-176 | replay, refuse or store, by hash, status and expiry |
| `Idempotency.IdempotencyKeys.Begin` | apps/api/src/infrastructure/idempotency/idempotency.service.ts:182-271 | replay, refuse or reserve the key before the work |
| `Idempotency.IdempotencyKeys.Complete` | apps/api/src/infrastructure/idempotency/idempotency.service.ts:273-297 | the reserved row becomes completed with the body |
| `Idempotency.IdempotencyKeys.ReplayBefore` | apps/api/src/modules/billing/application/invoice.service.ts:148-168 | the look-up before a transaction replays a row with the same hash, expired or not |
| `Idempotency.EffectsAtMostOnce` | apps/api/src/infrastructure/idempotency/idempotency.service.ts:69-176 | with the key first, or calls one at a time, an operation takes effect at most once in the lifetime of its key |
| `Idempotency.TakesEffectIff` | apps/api/src/infrastructure/idempotency/idempotency.service.ts:96-130 | a request takes effect exactly if the operation accepts it and its key is free or expired (and, where a look-up comes before the transaction, was stored for a different request); otherwise nothing changes |
| `Idempotency.KeyLivesADay` | apps/api/src/infrastructure/idempotency/idempotency.service.ts:91-132 | a stored key decides for 24 hours and for no other key |
| `Idempotency.UnexpiredKeyDecides` | apps/api/src/infrastructure/idempotency/idempotency.service.ts:96-130 | while a key is unexpired the same request gets the stored body and a different one is refused, with the whole state as before |
| `Idempotency.BodyIsStable` | apps/api/src/infrastructure/idempotency/idempotency.service.ts:96-130 | an unexpired row keeps the first stored body |
| `Idempotency.RaceRepeatsIff` | apps/api/src/modules/billing/application/invoice.service.ts:160-168 | a call that looked up the key before another committed repeats the effects exactly when the operation itself still accepts |
| `Idempotency.PinnedEffectsOnce` | apps/api/src/modules/billing/application/invoice.service.ts:332-350 | of two racing requests pinned to a version that both change the state, the later expects a higher version |
| `Idempotency.UnpinnedRaceRepeats` | apps/api/src/infrastructure/idempotency/idempotency.service.ts:53-67 | without such a pin two racing calls both take effect |
| `KeyedPosting.RacingPostsBothCountIff` | apps/api/src/modules/billing/application/invoice.service.ts:160-290 | two posts of a draft under one key, both past look-up and read, both take effect exactly when the total is 0; otherwise the second leaves no trace |
| `KeyedPosting.RacingNotesCountOnce` | apps/api/src/modules/billing/application/credit-note.service.ts:185-301 | two posts of a credit note under one key, both past their reads: the second leaves no trace |
| `KeyedPosting.VoidIsPinned` | apps/api/src/modules/billing/application/invoice.service.ts:332-350 | a void meets the version pin, as it reads the version after its lock |
| `KeyedPosting.RacingVoidsCountOnce` | apps/api/src/modules/billing/application/invoice.service.ts:332-432 | of any racing requests to void an invoice no two that expect one version both change anything |
| `Operations.PageIsNextSlice` | apps/api/src/modules/imports/application/operations.service.ts:53-84 | a page is exactly the next `limit` rows of the sorted union of the three tables, with a cursor exactly when rows remain |
| `Operations.ListingHolds` | apps/api/src/modules/imports/application/operations.service.ts:86-119 | the listing holds exactly the imports that are not deleted, the exports and the billing runs |
| `Operations.ListingIsNewestFirst` | apps/api/src/modules/imports/application/operations.service.ts:148-156 | of two rows of the listing the earlier was created later, or at the same instant with the greater id |
| `Operations.PageIsNewestFirst` | apps/api/src/modules/imports/application/operations.service.ts:45-175 | so it is within every page and behind the row of its cursor, and a page has the number of rows asked for, between 1 and 100, unless the listing ends |
| `Operations.CursorLeavesOlderRows` | apps/api/src/modules/imports/application/operations.service.ts:76-84 | every row left for the next cursor comes behind the last row of the page |
| `Operations.MergeOfCuts` | apps/api/src/modules/imports/application/operations.service.ts:86-157 | cutting each table at n before merging loses none of the first n rows |
| `Operations.RemainingAfterKth` | apps/api/src/modules/imports/application/operations.service.ts:53-84 | the id of a listed row, as cursor, leaves exactly the rows behind it |
| `Operations.WalkVisitsEverythingOnce` | apps/api/src/modules/imports/application/operations.service.ts:45-175 | following cursors from the start ends and shows every row exactly once, in order |
| `Operations.LostCursorStartsOver` | apps/api/src/modules/imports/application/operations.service.ts:53-84 | a cursor whose row is gone gives the first page again |
| `RateLimit.RateLimiter.AssertWithinLimit` | apps/api/src/infrastructure/rate-limit/rate-limit.service.ts:12-47 | the verdict and the one bucket that changes |
| `RateLimit.BucketInvHolds` | apps/api/src/infrastructure/rate-limit/rate-limit.service.ts:28-46 | what every reachable bucket says about the calls its key has had |
| `RateLimit.BucketBound` | apps/api/src/infrastructure/rate-limit/rate-limit.service.ts:28-46 | a bucket admits at most its limit |
| `RateLimit.WindowBound` | apps/api/src/infrastructure/rate-limit/rate-limit.service.ts:28-46 | any half-open interval as long as the window admits at most 2*limit - 1 calls for a key |
| `RateLimit.WindowBoundIsReached` | apps/api/src/infrastructure/rate-limit/rate-limit.service.ts:28-46 | that bound is reached for every limit and every window of two ticks or more |
| `RateLimit.KeysAreIndependent` | apps/api/src/infrastructure/rate-limit/rate-limit.service.ts:28-46 | a key sees what it would see if the other keys were never used |
| `DocumentNumbers.FormatIsInjective` | apps/api/src/modules/billing/domain/billing.rules.ts:84-90 | a printed number determines year and sequence, past six digits too |
| `DocumentNumbers.TenantSettings.FindSetting` | apps/api/src/modules/billing/domain/billing.rules.ts:199-202 | the newest row of the tenant and key, found without a lock |
| `DocumentNumbers.TenantSettings.AllocateDocumentNumber` | apps/api/src/modules/billing/domain/billing.rules.ts:204-250 | on the row found: the next number of the year, or 1 after any change of year; none found: a new row with 1, refused if its instant is taken |
| `DocumentNumbers.NextNumberIs` | apps/api/src/modules/billing/domain/billing.rules.ts:238-248 | the number after the stored one if that is of the same year, else 1; a stored value without a year is of the current one |
| `DocumentNumbers.DistinctIffYearsStayTogether` | apps/api/src/modules/billing/domain/billing.rules.ts:192-251 | over every interleaving the printed numbers all differ exactly when each year is counted on one row, in one stretch |
| `DocumentNumbers.NumbersCountUp` | apps/api/src/modules/billing/domain/billing.rules.ts:192-251 | and then the numbers of each year are 1, 2, 3, ... in order |
| `DocumentNumbers.OneRowIff` | apps/api/src/modules/billing/domain/billing.rules.ts:199-222 | a counter keeps to one row exactly when no allocation looks up before another creates the first row and ends after it, not stopped in between and with an instant no row has |
| `DocumentNumbers.DistinctIffNeverReturns` | apps/api/src/modules/billing/domain/billing.rules.ts:242-243 | then the printed numbers all differ exactly when no year is used again after another |
| `DocumentNumbers.OrderedYearsNeverReturn` | apps/api/src/modules/billing/domain/billing.rules.ts:192-251 | then, with years that never go backwards, they all differ |
| `DocumentNumbers.OverlappingFirstsRepeat` | apps/api/src/modules/billing/domain/billing.rules.ts:199-222 | a run in which two first allocations overlap and both hand out 1 of the same year |
| `DocumentNumbers.GoingBackRepeatsANumber` | apps/api/src/modules/billing/domain/billing.rules.ts:242-243 | a run of allocations one after another in which coming back to a year repeats its first number |
| `Periods.KeyRoundTrip` | apps/api/src/modules/billing/domain/billing.rules.ts:34-52 | the key of a month parses to that month |
| `Periods.KeyAcceptedIff` | apps/api/src/modules/billing/domain/billing.rules.ts:32-52 | the keys accepted are exactly those of the months of the years 0 to 9999, each read as its month |
| `Periods.PriorKeyIsAKeyIff` | apps/api/src/modules/billing/domain/billing.rules.ts:58-67 | the prior key is a period key, that of the month before, exactly when its year needs no padding |
| `Periods.MonthLength` | apps/api/src/modules/billing/domain/billing.rules.ts:69-76 | first days of consecutive months are as many days apart as the Gregorian calendar says, except after December of year 99 |
| `Periods.ZonedLocalMidnightToUtc` | apps/api/src/modules/billing/domain/billing.rules.ts:120-141 | three rounds of offset correction |
| `Periods.RefineFindsMidnightIff` | apps/api/src/modules/billing/domain/billing.rules.ts:120-141 | with at most one change of offset nearby the result reads local midnight exactly when the zone shows it at all |
| `Periods.TwoTransitionsCanFail` | apps/api/src/modules/billing/domain/billing.rules.ts:120-141 | two changes close together can defeat the search |
| `Periods.WindowNonEmptyIff` | apps/api/src/modules/billing/domain/billing.rules.ts:69-76 | for offsets under two weeks a period's window is non-empty, except for 0099-12, and the next begins where it ends |
| `Periods.WindowsAreDisjoint` | apps/api/src/modules/billing/domain/billing.rules.ts:69-76 | windows of different periods from year 100 on never overlap |
| `Periods.TwoDigitYearsCollide` | apps/api/src/modules/billing/domain/billing.rules.ts:69-76 | periods of years below 100 share the windows of the twentieth century |

## Left out

- Authorization, permissions, audit records, outbox rows of billing and invoice services, notes, dates and texts of invoices and journals: no effect on the modelled properties. Scope sets and catalogues are inputs.
- Payment, refund, reversal and deposit services: not part of this model beyond the journals they build; they also change invoice balances, so the balance theorems speak of posting, voiding, crediting and billing only.
- Transactions that commit while another holds its lock: they are taken to come before or after it as a whole. The membership look-up of a refresh is one step with its checks; it decides only the organization of the new access token.
- Invoice and credit-note numbers inside the money core: their unique index can refuse a post whose number repeats, which is a rollback.
- The unique index on utility allocation runs (one run per property, period and method version): the utility theorems hold for any number of runs.
- Malformed JSON: previews and payloads are read back as they were written; a payload that is no row object is passed over, as in the code.
- Decimal division to a finite number of digits: the share of a tariff is divided exactly before it is rounded.
- Unicode case mapping and `Number` beyond integers: upper and lower case are those of ASCII letters, parsed capacities are exact.
- Base64 and JSON of cursors, hashing, JWT, TOTP, cookies, storage, email: library calls; hashes stand for what they hash, tokens are fresh values.
- Row order of queries without `orderBy`: taken as table order; ids compare by the order the database and the merge share.
- Identifiers of the three operations tables: assumed unique over all three, as UUIDs are.
- Two import handlers writing the inventory at once, a dry run that changes the rows between two deliveries of one event, and a handler's progress counts: `InventoryImport` and `ImportDelivery` take handlers one after another on the same rows; `ImportClaims` has any number of handlers and dry runs but no inventory.
- Preview or approval updates half way through: single steps. The prior period's total shown in a preview, and the sample cut from it, decide nothing.
- CANCELLED import jobs: nothing in the code sets that status.
- Idempotency-key expiry clean-up and the unique-violation branches of two calls that insert one key at the same instant: the loser is refused by the database and retried as a later call. A run's retry stores its key in a transaction of its own and is not covered by the idempotency theorems.
- Idempotency of a commit with a key: the claim is modelled for fresh keys; a replayed key does nothing.
- Calls made while the rate limiter is declared unavailable are in `AssertWithinLimit` but not in its traces.
- `logoutAll`, password reset and organization switching: more revocations of the kind modelled.
- Web application, contracts, controllers, meter readings, documents, availability: plumbing or easy members.
