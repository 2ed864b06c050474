# Ledgerly: verified model of the financial core

This project models the backend's transactional ledger and what is derived from
it, and proves what the code promises about them.

A workspace is stored as documents: accounts and vaults with running balances,
transactions, numbering counters, idempotency records, import sessions,
transaction revisions, period reviews and the workspace's ledger version. Every
financial mutation is one MongoDB transaction under snapshot isolation with
write conflicts.

- **Operations.** `Operations.Exec` gives each transaction body as a function of
  the documents, with the documents it writes. `WorkspaceStore.Workspace` is
  the same code as methods that change the stored fields one write at a time
  and roll back on error; each method is proved equal to its function.
- **Concurrency.** `Isolation` is the state machine of begin, commit, abort and
  single-document updates. Its theorem: whatever commits, in any interleaving,
  is the serial execution of the same operations in commit order. Every claim
  about all serial executions (`Runs`, `BalanceRuns`, `NumberRuns`,
  `Idempotency`, `ImportCommit`) thereby is one about all interleavings.
- **What is stored.** `Stored.Leaves` says, document by document and field by
  field and without the functions that compute it, what each operation leaves;
  `StoredRuns` carries it into every interleaving. `Accepted` says when the
  operations are accepted, `Reports` what the totals of a review are in terms of
  the stored transactions, `Texts` what comparing texts means in characters.
- **Period reviews.** Snapshots with a ledger-version cutoff, deltas from
  revisions alone, the checkpoint chain, and the two filters that select them.
- **Balances, numbering, idempotency.** The account and vault invariant and the
  two separately written implementations behind it; counters that never reuse a
  number; the startup backfill under crashes; exactly-once creates.
- **Queries.** Query documents as a small language with MongoDB's meaning, and
  the builders that edit them in place.
- **Self-contained algorithms.** Money text, the rate limiter, import detection
  and commit, automation rules, the forecast.

Instants count from the zero instant of the implementation language, so 0 is the
unset time; a civil UTC day is a whole number of days since then. Identifiers,
currency codes and hashes are numbers that are only compared, 0 being the empty
string.

## What turned out not to hold everywhere

- Snapshot plus deltas is the live total exactly when the totals of *hidden*
  transactions did not move since the cutoff: those whose stored destination
  lies outside the review's accounts. The everyday member of that family is a
  transfer to an account outside the review's scope, which moves the count; an
  income or expense created with a stray destination moves the amounts too,
  since creates keep a destination on non-transfers where edits clear it
  (`History.StrayCreateIsMissed`). The query here is the row test of a snapshot
  on effective dates, so stored rows at which the date clause itself misses the
  effective date (next item) are a second family outside this "exactly".
- The date clause means the effective date except for a stored zero occurrence
  whose zero instant lies in the range while its creation instant does not
  (`Queries.DateClauseMeans`, `PeriodFilters.PeriodQueryMeans`; such rows:
  `Queries.ZeroDatedIsListed`, `PeriodFilters.ZeroDatedIsCaptured`).
- An opening-balance edit keeps the balance invariant exactly when the opening
  it read before its transaction is still the stored one
  (`BalanceRuns.OpeningBalanced`). Two edits that read the same opening are both
  accepted and leave the account off by what the first one moved
  (`BalanceRuns.ConcurrentOpeningsExist`).
- Reversing a create succeeds exactly when the transaction names its account and
  currency; the repository does not ask for that, validation does
  (`BalanceLaws.DeleteUndoesCreate`).
- Import detection does not compare rows at all when no valid row carries a date
  other than the zero instant (`ImportDetection.ZeroDatesAreNotCompared`).
- Rule application is independent of the store's order for up to the thousand
  rules one query returns. For every larger number there are rules the service
  accepts, and two orders of storing them, that change one transaction differently
  (`AutomationRules.ManyRulesChangeTheResult`).

## Model

| member | source | states |
|---|---|---|
| Isolation.InterleavingsAreSerial | api/internal/repository/unit_of_work.go:16-53 | in every behaviour of snapshot transactions with write conflicts, every committed state is the previous one with the committed transaction executed on it alone, so retries and overlapping snapshots never show |
| Isolation.CommitKeeps | api/internal/repository/unit_of_work.go:25-53 | a commit whose documents nobody wrote since its snapshot installs exactly what executing it on the current state would |
| Repeatability.ExecRepeats | api/internal/repository/transaction.go:81-160 | an operation that succeeded on a snapshot succeeds with the same writes and outcome on any later state agreeing on the documents it writes |
| StoredRuns.EveryOperationLeaves | api/internal/repository/unit_of_work.go:25-53 | in every interleaving, each committed operation leaves exactly what it should, field by field, on the state it was committed on |
| StoredRuns.ReviewsWereCaptured | api/internal/service/period_reviews.go:163-237 | every review of every committed state was captured by a committed operation: its snapshot is the sums, by kind, of the transactions stored at that point, its lens, status and cutoff what was asked for there |
| StoredRuns.BooksAlways | api/internal/repository/transaction.go:193-231 | in every committed state each account balance is its opening plus what the stored transactions put on it by kind, each vault balance likewise, all in range |
| StoredRuns.IdentifiersAreUnique | api/internal/repository/transaction_sequence.go:139-179 | in every interleaving no two stored transactions of one scope carry one identifier |
| Stored.ExecLeaves | api/internal/service/record_actions.go:239-322 | every operation leaves its own documents changed as it should, and all others alone |
| Stored.CreateStores | api/internal/repository/transaction.go:81-160 | a create stores the requested row and no other change of rows: all fields as asked, the identifier requested or handed out, its money on its account and vault, one revision, its own record |
| Stored.EditedStores | api/internal/service/record_actions.go:383-496 | an edit is accepted as a transaction exactly when its kind, amount, currency, accounts, identifier and text lengths are in order, and then stores its own fields trimmed, the account's vault, a destination on transfers only, private when an account is, and the old row's identity |
| Stored.EditIsStored | api/internal/service/record_actions.go:239-322 | an edit changes this row alone, moves money from the old version to the new one, reserves a changed identifier and records before and after |
| Stored.DeleteStores | api/internal/service/deletions.go:108-147 | a delete removes this row, its money and its idempotency records, and nothing else |
| Stored.MigrateStores | api/internal/service/transaction_categories.go:631-682 | a rename writes the new name into exactly the rows carrying the old one in any letter case and not the new one already, with one revision each in identifier order |
| Stored.CaptureStores | api/internal/service/period_reviews.go:121-237 | a capture adds one review of what was asked for, whose snapshot sums the stored rows, with the version it takes as its cutoff |
| Accepted.CreateAccepts | api/internal/repository/transaction.go:81-160 | a create is accepted exactly when workspace, identifier, key and number are free, the amount and kind are payable, and every open document takes its share within range |
| Accepted.EditAccepts | api/internal/service/record_actions.go:239-322 | an edit is accepted exactly when it is in order as a transaction, its number is unchanged or free, the old version can be taken back and the new one booked on what that leaves |
| Accepted.DeleteAccepts | api/internal/service/deletions.go:108-126 | a delete is accepted exactly when the stored transaction's documents take its share back within range |
| Accepted.MigrateAccepts | api/internal/service/transaction_categories.go:631-650 | a rename is carried out exactly when one to five thousand rows are to be renamed |
| Accepted.OpeningAccepts | api/internal/service/record_actions.go:33-92 | an opening edit is accepted exactly when the account is open and both balances take the difference |
| Accepted.CaptureAccepts | api/internal/service/period_reviews.go:121-237 | a capture is accepted exactly when the period has 1 to 366 days, a workspace review is closed and shared, the latest checkpoint of the series allows it, and the totals fit |
| Reports.TallyReports | api/internal/service/period_reviews.go:313-335 | a review's totals are the sums over the counted transactions: incomes, refunds and reimbursements, expenses, their difference and their number |
| Reports.NetIsBooked | api/internal/repository/transaction.go:193-213 | a counted row's net is what its create books on its own account, and nothing for a transfer |
| Reports.EventMeans | api/internal/service/period_reviews.go:631-649 | a revision reports what came into the review's view less what went out of it, by kind |
| Reports.ChangesMean | api/internal/service/period_review_aggregation.go:183-197 | the reported number of changes is the number of revisions after the cutoff with a side in view |
| Texts.LowerMeans | api/internal/service/transaction_categories.go:571-577 | case-insensitive equality, in characters |
| Texts.OccursMeans | api/internal/service/transactions.go:393-410 | case-insensitive search, in characters |
| Texts.BlanksAre | api/internal/service/validation.go:30-40 | the blanks are the code points with the property White_Space |
| Texts.TrimMeans | api/internal/service/validation.go:30-40 | trimming takes the blanks off both ends and nothing else |
| Texts.NormalizedMeans | api/internal/model/automation_rule.go:125-127 | two texts are normalised alike exactly when they are the same words up to letter case |
| Runs.CommittedRun | api/internal/repository/unit_of_work.go:25-53 | between any two committed states lies the serial execution of the operations committed in between |
| Runs.NoGapAtTheCutoff | api/internal/service/period_reviews.go:130-221 | under every interleaving, revisions replay to exactly the stored transactions, versions are unique, and each review's snapshot is the totals of the ledger after exactly the revisions up to its cutoff |
| Runs.NothingIsLost | api/internal/repository/transaction.go:148-191 | revisions and reviews of a committed state stay a prefix of those of every later one |
| Runs.SnapshotPlusSummaryIsLive | api/internal/service/period_reviews.go:377-437 | in every committed state, a review's snapshot plus the reported summary equals the totals recomputed from the stored transactions if and only if the hidden totals did not move |
| Runs.DestinationsInScopeMeansLive | api/internal/service/period_reviews.go:287-311 | in particular whenever every stored destination is empty or in scope, now and at the cutoff |
| Runs.CheckpointsChain | api/internal/service/period_reviews.go:163-213 | within one series cutoffs strictly increase, closed is never followed by reviewed, and a repeated status has a relevant revision in between, in every interleaving |
| Runs.CheckpointsDifferByDeltas | api/internal/service/period_reviews.go:386-430 | in every interleaving, snapshots of one scope differ by exactly the deltas between their cutoffs, if and only if the hidden totals agree |
| Revisions.DeltasTelescope | api/internal/service/period_reviews.go:631-649 | totals at a version plus the deltas of all later events are the totals now |
| PeriodReviews.SnapshotPlusDeltasIsLive | api/internal/service/period_reviews.go:597-605 | for any history, queried totals plus deltas are live exactly when the hidden totals are unchanged |
| PeriodReviews.StrayDestinationIsMissed | api/internal/service/period_reviews.go:298-305 | on any history, recording a queried transaction with a destination outside the scope moves the live totals by all it counts for and the deltas after no cutoff at all |
| PeriodReviews.AddTotalsChecks | api/internal/service/period_reviews.go:338-360 | checked addition fails exactly when the true sum leaves the 64-bit range |
| PeriodReviews.SummarizeEvents | api/internal/service/period_review_aggregation.go:257-291 | whenever the event loop reports no overflow it returns the pipeline's totals and change count; otherwise some prefix sum really leaves the range |
| Checkpoints.CaptureKeeps | api/internal/service/period_reviews.go:163-213 | capturing a review keeps the history invariant: faithful snapshots, increasing cutoffs, proper succession |
| Checkpoints.AdvanceKeeps | api/internal/service/finance_helpers.go:214-253 | appending a block of consecutively versioned revisions that describes the change of the stored transactions keeps the history invariant |
| Checkpoints.SnapshotsDifferByDeltas | api/internal/service/period_reviews.go:386-430 | the same for any ledger with the history invariant |
| History.ExecKeepsLedger | api/internal/service/finance_helpers.go:240-253 | every operation keeps the history invariant |
| History.StrayCreateIsMissed | api/internal/repository/transaction.go:81-160 | whenever a create with a destination outside a review's accounts commits and the review's query counts it, the destination is kept, the live totals grow by its amount and one row, and the deltas reported after any cutoff stay what they were |
| History.StrayCreatesExist | api/internal/repository/transaction.go:193-231 | an income with a stray destination and a transfer out of scope are such creates, on a concrete workspace |
| History.MigrationIsABlock | api/internal/service/transaction_categories.go:631-682 | a migration of n rows appends n revisions in identifier order with versions last-n+1..last, none moving money or count for any lens |
| History.VersionsAreUnique | api/internal/service/finance_helpers.go:218-238 | no two revisions ever share a ledger version |
| History.OldNameIsGone | api/internal/service/transaction_categories.go:571-600 | a migration writes the new name into every row carrying the old one in any letter case and leaves every other row alone; the old name remains only where the two names are the same up to case |
| History.RemovalLeavesNoReference | api/internal/service/transaction_categories.go:421-494 | deleting a category with a replacement leaves no row carrying its name in any letter case, exactly when none did or the replacement's name is not the same up to case |
| Categories.UsesMeans | api/internal/service/transaction_categories.go:571-577 | the usage filter is equality of the stored and the trimmed name up to letter case, character by character |
| Categories.ModeIsScope | api/internal/service/transaction_categories.go:557-593 | for stored types the usage filter's mode test is the transaction's category type |
| WorkspaceStore.SortIds | api/internal/service/transaction_categories.go:648-650 | the affected rows are visited in ascending identifier order, each once |
| WorkspaceStore.EmptyWorkspaceStarts | api/internal/model/transaction_sequence.go:88-100 | an empty workspace satisfies every invariant the results above and below start from |
| WorkspaceStore.Workspace.CreateFinancialTransaction | api/internal/repository/transaction.go:53-177 | while its key's record is active the call changes nothing and repeats the recorded answer, or conflicts; otherwise a success stores exactly the requested row and returns it |
| WorkspaceStore.Workspace.CreateOnce | api/internal/repository/transaction.go:81-160 | the transaction body, write by write, is the create operation |
| WorkspaceStore.Workspace.Increment | api/internal/repository/transaction.go:248-277 | one guarded increment either applies the adjustment or refuses it, changing nothing |
| WorkspaceStore.Workspace.ApplyCreate | api/internal/repository/transaction.go:99-147 | source account, destination account and vaults in turn are the repository's list of increments |
| WorkspaceStore.Workspace.ApplyBalanceChange | api/internal/service/record_actions.go:528-573 | the service's stepwise change is its list of increments |
| WorkspaceStore.Workspace.UpdateTransaction | api/internal/service/record_actions.go:239-322 | an edit either stores what was asked for, field by field, with its money, identifier and revision, or leaves every document as it was |
| WorkspaceStore.Workspace.DeleteTransaction | api/internal/service/deletions.go:108-147 | a delete either removes exactly this row with its money and its idempotency records, or leaves every document as it was |
| WorkspaceStore.Workspace.UpdateAccount | api/internal/service/record_actions.go:33-92 | an opening edit with a possibly stale opening either becomes that operation or changes nothing |
| WorkspaceStore.Workspace.MigrateCategory | api/internal/service/transaction_categories.go:631-682 | bulk update, version block and one revision per row leave exactly the rows carrying the old name renamed |
| WorkspaceStore.Workspace.CreatePeriodReview | api/internal/service/period_reviews.go:121-237 | checks, totals and the final version increment add one review of what was asked for, with the sums of the stored rows |
| WorkspaceStore.SumRows | api/internal/service/period_reviews.go:313-321 | adding row by row with checked arithmetic gives the exact totals, and overflows exactly when the final totals do not fit |
| WorkspaceStore.Workspace.RecordRevisions | api/internal/service/finance_helpers.go:214-253 | the version advances by the number of changes and each change gets the next version |
| WorkspaceStore.Workspace.ReserveId | api/internal/repository/transaction_sequence.go:139-179 | a taken or malformed identifier is refused without effect; otherwise the counter is raised past it |
| WorkspaceStore.Workspace.AllocateId | api/internal/repository/transaction_sequence.go:181-211 | hands out the counter's number in the counter's minimum width and advances it, or reports disabled or exhausted |
| WorkspaceStore.Workspace.PatchSequence | api/internal/repository/transaction_sequence.go:102-137 | the guarded settings update stores what was asked for, or is refused with the current minimum, exactly when the number asked for is used up |
| Balances.GuardsMeanInRange | api/internal/service/deletions.go:178-212 | both range guards admit exactly the balances in range before and after the increment |
| Balances.ApplyAllShifts | api/internal/repository/transaction.go:248-294 | accepted increments move each balance by the net of its deltas |
| BalanceLaws.SourceDeltasAgree | api/internal/service/record_actions.go:575-589 | the three copies of the source delta agree on signs, limits and refusals, the transfer destination check apart |
| BalanceLaws.CreateBooksMeans | api/internal/repository/transaction.go:193-231 | an accepted create adds exactly the transaction's effect to every balance |
| BalanceLaws.ChangeBooksMeans | api/internal/service/record_actions.go:498-573 | an accepted service change adds or takes back exactly that effect |
| BalanceLaws.DeleteUndoesCreate | api/internal/service/deletions.go:108-126 | right after an accepted create the service's reversal restores every balance, exactly when account and currency are named |
| BalanceLaws.ImplementationsAgree | api/internal/service/record_actions.go:528-573 | the repository's create and the service's forward change have the same outcome; the create additionally asks for live documents |
| BalanceLaws.EditIsDeleteThenCreate | api/internal/service/record_actions.go:272-285 | a successful edit leaves the balances of deleting the old version and creating the new one |
| BalanceLaws.TransfersConserve | api/internal/repository/transaction.go:215-231 | creating or deleting a transfer leaves the sum of all account balances unchanged |
| BalanceLaws.EditConserves | api/internal/service/record_actions.go:279-285 | an edit moves that sum only by what its two versions book outside transfers |
| BalanceLaws.MovedKeepsGap | api/internal/repository/transaction.go:215-231 | no create, edit or delete moves a vault away from the sum of its accounts |
| BalanceRuns.BalancesAlways | api/internal/repository/transaction.go:99-147 | in every interleaving, account balance = opening + effects, vault balance = opening + opening edits + effects that are not transfers inside it, all in range |
| BalanceRuns.ExecKeepsBalance | api/internal/service/record_actions.go:272-285 | every operation keeps that invariant |
| BalanceRuns.OpeningBalanced | api/internal/service/record_actions.go:49-62 | an opening edit keeps it if and only if the opening it read is the stored one |
| BalanceRuns.ConcurrentOpenings | api/internal/service/record_actions.go:33-92 | after two accepted opening edits from one and the same reading, the books balance if and only if the first one changed nothing |
| BalanceRuns.ConcurrentOpeningsExist | api/internal/service/record_actions.go:49-62 | on a fresh account both edits are accepted, whatever the amounts in range, and its balance exceeds its opening by what the first one moved |
| Numbering.NumberRoundTrip | api/internal/model/transaction_sequence.go:67-86 | every number a counter may hand out, in any width, parses back to itself |
| Numbering.NumberText | api/internal/model/transaction_sequence.go:67-69 | a number is printed as its digits, as long as the minimum width or its own digit count, whichever is larger, and no other text is that |
| Numbering.ParseMeans | api/internal/model/transaction_sequence.go:71-86 | a text denotes a number exactly when, blanks aside, it is at most eighteen digits with that value, in range |
| Numbering.FirstNumber | api/internal/model/transaction_sequence.go:88-100 | the first automatic number of a new scope is 0001 |
| Numbering.AllocateMeans | api/internal/repository/transaction_sequence.go:181-211 | an allocation succeeds exactly on automatic counters that are not spent, prints the counter's number and advances it by one |
| Numbering.ReserveMeans | api/internal/repository/transaction_sequence.go:139-179 | a reservation puts the counter past the number, if it was not there already, and changes nothing else |
| Numbering.SettingsTakeEffect | api/internal/service/transaction_sequences.go:103-160 | a settings change takes effect field by field, exactly when the number asked for is not used up and both values are in range |
| Numbering.AllocateIsFresh | api/internal/repository/transaction_sequence.go:29-42 | an allocated text denotes the counter's number and differs from every text denoting an earlier one |
| Numbering.ReserveClaims | api/internal/repository/transaction_sequence.go:139-179 | a reservation claims its number and never moves a counter back |
| Numbering.PatchAdvances | api/internal/service/transaction_sequences.go:103-160 | a settings change, however stale, stays in range and never moves the counter back |
| NumberRuns.ExecTracks | api/internal/repository/transaction_sequence.go:102-227 | every operation keeps counters in 1..Max+1, advancing, and above every stored number |
| NumberRuns.CommittedTracks | api/internal/service/record_actions.go:259-271 | between any two committed states counters only advance |
| NumberRuns.NumbersAreNeverReused | api/internal/repository/transaction_sequence.go:181-227 | in every interleaving the identifier an automatic create stores is the counter's number in the counter's width and differs from every identifier of its scope stored at any earlier point: in earlier committed states, inside earlier transactions, and earlier in its own |
| Idempotency.ExecHolds | api/internal/repository/transaction.go:85-97 | a held key stays held and blocks creates until its record expires and is released or its transaction is deleted |
| Idempotency.SecondCreateNeedsRelease | api/internal/repository/transaction.go:296-348 | between two successful creates with one key the record expired or the transaction was deleted |
| Idempotency.ExactlyOnce | api/internal/repository/transaction.go:67-177 | any two concurrent calls or retries with one key that succeed return the same transaction with the same payload hash, and at most one created it |
| Idempotency.LookupMeans | api/internal/repository/transaction.go:305-332 | a lookup finds the recorded response exactly while the record is active and the payload the same, and conflicts for another payload |
| Idempotency.RetryChangesNothing | api/internal/repository/transaction.go:305-332 | a later retry changes no document and repeats the response, or conflicts when the payload differs |
| Idempotency.ExecKeepsOwned | api/internal/service/deletions.go:131-133 | every record belongs to a stored transaction, whose deletion removes it |
| Backfill.Migration.Run | api/internal/db/migrations.go:297-368 | however early it stops, existing identifiers are untouched and new ones distinct, above the high-water mark, from their own scope's counter and in its width; it completes, reports an identifier that some stored row really has invalid, or exhaustion with a row waiting in a scope whose counter is spent; it is cut short only with fewer than five writes per row left |
| Backfill.Migration.Restart | api/internal/db/migrations.go:293-368 | the same across any sequence of crashes and restarts, relative to the very first state; the last restart completes or names one of those two reasons |
| Backfill.Migration.ScanHighWater | api/internal/db/migrations.go:175-233 | the scan finds for every eligible row's scope the largest number in it and persists the scope, or reports an invalid identifier |
| Backfill.Migration.SeedSequence | api/internal/db/migrations.go:235-265 | two writes leave the counter existing and at least at the minimum, never lower than before |
| Backfill.Migration.AllocateId | api/internal/db/migrations.go:267-291 | the number handed out is the old counter value in the counter's width; the counter advances by one |
| Backfill.ProgressJoin | api/internal/db/migrations.go:293-296 | interrupted executions compose: progress after progress is progress |
| Filters.Replacing | api/internal/service/date_range.go:61-77 | writing under a used key replaces that clause and only that clause |
| Queries.TransactionQuery | api/internal/service/transactions.go:326-431 | a query comes back exactly for answerable requests and selects exactly the visible, requested transactions in the date clause's sense |
| Queries.AddRequested | api/internal/service/transactions.go:363-429 | the optional clauses are added exactly for well-put requests |
| Queries.KindAskedMeans | api/internal/service/transactions.go:363-392 | the type text asks for a category type or for one kind, whatever its letter case and the blanks around it |
| Queries.RewriteMeans | api/internal/service/transactions.go:393-410 | the search rewrite keeps the visibility test and adds the search |
| Queries.AddDateClause | api/internal/service/date_range.go:61-77 | moving all clauses under one conjunction keeps them and adds the date clause |
| Queries.DateClauseMeans | api/internal/service/date_range.go:22-58 | the clause is the effective date in range, except for exactly one family of zero-dated rows |
| Queries.ZeroDatedIsListed | api/internal/service/date_range.go:22-58 | a row stored with a zero occurrence and created a day later is listed for a range that its effective date is not in |
| Queries.QueryMeansListed | api/internal/service/transactions.go:326-431 | with a lower bound after the zero instant, or an occurrence set, the query is its specification |
| PeriodFilters.SnapshotFilter | api/internal/service/period_reviews.go:287-305 | the snapshot query selects the period's visible rows in one currency, shared ones only for the workspace view |
| PeriodFilters.PeriodQueryMeans | api/internal/service/period_reviews.go:607-629 | that is the revision test without its destination check, except for exactly one family |
| PeriodFilters.ZeroDatedIsCaptured | api/internal/service/period_reviews.go:287-305 | a review of day zero captures such a row although its effective day lies outside the period |
| PeriodFilters.RelevantExprMeans | api/internal/service/period_review_aggregation.go:127-145 | the aggregation expression is the revision test of one side |
| PeriodFilters.OrdinaryBranchMeans | api/internal/service/period_review_aggregation.go:163-178 | so is the indexable branch |
| PeriodFilters.PrefilterIsRedundant | api/internal/service/period_review_aggregation.go:183-197 | relevance implies the ordinary branch |
| PeriodFilters.EventFilterMeans | api/internal/service/period_review_aggregation.go:183-197 | the event filter selects exactly the later events with a relevant side |
| RateLimiter.Serve | api/internal/handler/rate_limit.go:38-77 | over any run of requests in time order the map never exceeds its capacity; while fewer than `capacity` other keys are live at each request, every decision and delay is the unbounded counter's, and at most `limit` requests are allowed per key and window |
| RateLimiter.Limiter.Allow | api/internal/handler/rate_limit.go:38-77 | one call: if the map tracks the unbounded counter and fewer than `capacity` other keys are live, the answer is that counter's and the map still tracks it |
| RateLimiter.Limiter.EvictEarliest | api/internal/handler/rate_limit.go:57-67 | eviction removes one entry with the earliest reset |
| RateLimiter.Limiter.Cleanup | api/internal/handler/rate_limit.go:43-50 | cleanup removes exactly the expired entries |
| RateLimiter.WindowBudget | api/internal/handler/rate_limit.go:69-76 | the unbounded counter that `Serve` is compared with allows at most `limit` requests per key and window |
| MoneyText.ExportRoundTrip | api/internal/service/export.go:195-202 | every amount in range, printed for export, parses back to itself |
| MoneyText.ShareRoundTrip | api/internal/service/record_actions.go:941-966 | the digits a shared amount prints parse back to its magnitude |
| MoneyText.GroupDigits | api/internal/service/record_actions.go:950-958 | the comma loop groups digits in threes from the right |
| MoneyText.ExportText | api/internal/service/export.go:195-202 | an exported amount has a minus sign exactly when negative, its whole part without leading zeros, and two decimals |
| MoneyText.ShareText | api/internal/service/record_actions.go:941-966 | a shared amount shows decimals, then two, exactly when it has any |
| MoneyText.MagnitudeMeans | api/internal/service/import_csv.go:415-493 | a magnitude is accepted exactly when it is digits, or digits, a point and up to two digits, in range |
| MoneyText.WritingsParse | api/internal/service/import_csv.go:415-493 | one or two decimals after a point or a comma, with a plus sign, a currency sign or accounting parentheses, read as the amount they write |
| MoneyText.StripMeans | api/internal/service/import_csv.go:415-493 | blanks and the four currency signs are dropped wherever they stand, every other character is kept |
| MoneyText.CommasAreMarks | api/internal/service/import_csv.go:415-493 | several commas, or one not followed by one or two digits, group digits and are dropped |
| MoneyText.BlanksDoNotCount | api/internal/service/import_csv.go:415-493 | blanks around an amount change nothing |
| MoneyText.ConventionsAgree | api/internal/service/import_csv.go:415-493 | dot-grouped and comma-grouped writings of one amount parse equal |
| MoneyText.ParsedInRange | api/internal/service/import_csv.go:415-493 | every successful parse is within the supported range |
| ImportDetection.Detect | api/internal/service/imports.go:581-654 | each row is left alone, marked a repeat, or judged against its best offered candidate |
| ImportDetection.ScoreMeans | api/internal/service/imports.go:717-749 | the score of a candidate from amounts, seconds apart, same words and shared words, and when it is exact |
| ImportDetection.TokensMean | api/internal/service/imports.go:771-780 | the words compared are those of at least two characters once the punctuation around them is gone |
| ImportDetection.PunctuationIs | api/internal/service/imports.go:774 | the punctuation taken off words, by code point |
| ImportDetection.IdentityMeans | api/internal/service/imports.go:707-713 | two rows are the same line exactly when day, amount and words up to letter case agree |
| ImportDetection.DetectionIsDetermined | api/internal/service/imports.go:581-654 | statement and candidates leave one possible outcome, row for row |
| ImportDetection.FindBest | api/internal/service/imports.go:611-633 | the first of the best-scoring candidates that are unreconciled or exact |
| ImportDetection.DateBounds | api/internal/service/imports.go:681-705 | bounds exist exactly when a valid row is dated, and are its earliest and latest date |
| ImportDetection.DetectionSetsApart | api/internal/service/imports.go:591-610 | rows to create or link have pairwise distinct identities, exactly unless detection was skipped on a repeating statement |
| ImportDetection.ReconciledOnlyExactly | api/internal/service/imports.go:619-652 | reconciled candidates are only matched exactly and then ignored; link targets are unreconciled |
| ImportDetection.ZeroDatesAreNotCompared | api/internal/service/imports.go:582-585 | a statement dated with the zero instant books a repeated line twice |
| ImportCommit.PlanRows | api/internal/service/imports.go:302-336 | the counts are the numbers of rows of each action and add up; undecided and invalid rows refuse the whole commit |
| ImportCommit.RowOpMeans | api/internal/service/imports.go:302-336 | when a row is refused, and what an accepted one asks for |
| ImportCommit.StatementMeans | api/internal/service/imports.go:422-476 | the transaction of a row carries the row's date, amount, direction and trimmed texts in the session's account, reconciled by the statement |
| ImportCommit.LinkedTargetsAreDistinct | api/internal/service/imports.go:372-418 | committed links point at pairwise distinct, unreconciled transactions |
| ImportCommit.CommitConserves | api/internal/service/imports.go:286-370 | a commit moves the session's vault by created credits minus created debits and no other vault, and completes the session |
| ImportCommit.SessionEndsOnce | api/internal/service/imports.go:547-577 | once completed or cancelled, no later committed transaction ends the session again, in any interleaving |
| AutomationRules.ListRules | api/internal/service/automation_rules.go:38-57 | the first thousand stored rules, each once, by ascending priority, then creation time, then identifier |
| AutomationRules.StoreOrderIsIrrelevant | api/internal/service/automation_rules.go:38-57 | with at most a thousand rules the store's order changes neither the order nor the result |
| AutomationRules.ManyRulesDependOnStoreOrder | api/internal/service/automation_rules.go:44 | with more, some other order of the same rules lists differently, whatever the rules are |
| AutomationRules.ManyRulesChangeTheResult | api/internal/service/automation_rules.go:38-57 | for every number above a thousand there are rules that pass the service's validation, and two store orders, under which the same transaction gets different categories |
| AutomationRules.Draft.Run | api/internal/service/automation_rules.go:375-395 | the in-place loop is the fold of the rules, each record appended once |
| AutomationRules.Draft.Act | api/internal/service/automation_rules.go:397-467 | one action changes its field and records it, or does neither |
| AutomationRules.ActionMeans | api/internal/service/automation_rules.go:397-467 | an action leaves exactly its field as asked, wherever that is allowed, and records something exactly when something changed |
| AutomationRules.TextIs | api/internal/service/automation_rules.go:332-341 | the text a condition looks at: the category, merchant and description together, or the name of the kind |
| AutomationRules.TextConditionMeans | api/internal/service/automation_rules.go:307-369 | text conditions compare words up to letter case, one candidate being enough |
| AutomationRules.OtherConditionsMean | api/internal/service/automation_rules.go:342-367 | amount, account, contact and import conditions, and that a missing bound never holds |
| AutomationRules.OneRule | api/internal/service/automation_rules.go:296-305 | a rule acts exactly when it is enabled and has conditions, all of which hold |
| AutomationRules.RulesReplay | api/internal/service/automation_rules.go:375-467 | replaying the recorded changes, each on exactly the value it recorded, gives the final transaction |
| AutomationRules.EachRuleOnce | api/internal/service/automation_rules.go:371-395 | records come from enabled rules in rule order, at most one per rule |
| AutomationRules.RulesKeepSubstance | api/internal/service/automation_rules.go:587-616 | amount, type, currency, vault and destination never change, in a manual execution neither does the account |
| Forecast.FrequencyMeans | api/internal/service/forecast.go:394-411 | the named schedules and their days, whatever their letter case and the blanks around them, and no others |
| Forecast.OccurrenceIs | api/internal/service/forecast.go:362-389 | the occurrences of a schedule are equally far apart from the due instant on |
| Forecast.AddBill | api/internal/service/forecast.go:362-389 | a bill adds its amount to a day exactly when one of its first four hundred occurrences falls on it, overflow reported exactly |
| Forecast.AddBills | api/internal/service/forecast.go:349-392 | every projectable bill is added, the others skipped |
| Forecast.Project | api/internal/service/forecast.go:211-278 | closings are start plus prefix sums; lowest, first strictly lower date, first negative date and negative days are those of the closings; overflow is reported exactly when a checked sum leaves the range |
| Forecast.ProjectDay | api/internal/service/forecast.go:216-258 | one day's checked sums; the unchecked subtraction never overflows |

## Left out

- PeriodReviews.SummarizeEvents: says of an overflow only that some prefix of the events does not fit, because the event loop may overflow in between where the pipeline's final sums fit.
- Idempotency.ExactlyOnce: leaves hash collisions to the caller; equal hashes stand for equal payloads.
- WorkspaceStore.Workspace.CreateFinancialTransaction: alone in the store, its second lookup finds nothing new; that lookup is part of `Idempotency.Answered`.
- NumberRuns.NumbersAreNeverReused: takes settings changes with in-range values, which `Numbering.PatchAdvances` shows the service sends.
- RateLimiter.Limiter.Allow: takes a clock after the zero instant; the mutex makes calls sequential and is not modelled.
- Backfill.Migration.Run: rows inserted between its two scans and other writers at startup are not modelled.
- ImportCommit.PlanRows: authorization, category validation after rules, and a client that reuses the import's own idempotency keys are not modelled.
- Forecast.Project: takes the daily averages and planned items as sums per day; events, labels and assumptions texts are presentation.
- Which vaults and accounts a reader may see is an input of queries and period reviews.
- One workspace at a time, and no deletion of workspaces or archiving of vaults.
- `persistRuleRun` writes a transaction and its revision outside any database transaction and stays out of the concurrent model.
- Category documents: creation, reordering and the validation of categories on create and edit; a create that validated its category before a rename commits may still store the old name.
- The race of two resolutions of one import session; resolving and re-parsing rows in general.
- Validation of splits, contacts, goals and permissions, and the reading of a request into a transaction beyond what edits need.
- Tags of an edit are taken as already normalised, and whether a named category exists is not asked.
- `updated_at` and audit metadata, changed-field lists, hydrated names and share texts other than amounts.
- Letter case is folded for ASCII letters only; word lengths count characters, not bytes; regular expressions are substring and prefix tests, since every pattern is quoted.
- A rule's name, and who may see the account a rule names, are not modelled beyond the account's privacy.
- Contact conditions of rules compare whole identifiers; a `contains` on identifiers is not modelled.
- Timezones, CSV reading, hashing, authentication, HTTP handling, dashboards, goals, budgets, notifications and memberships.
