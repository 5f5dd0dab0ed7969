# AI PR Reviewer: verified models

Dafny models of the backend parts of the AI PR Reviewer whose correctness does not show in
any single function. `dafny verify dfyconfig.toml` checks all of them.

- **Comment delivery** (`DeliveryReport`, `DeliveryProtocol`, `DeliverySafety`,
  `DeliveryTheorems`, `DeliverySummary`, `DeliveryFreeze`, `DeliveryTrace`, `DeliveryService`).
  Workers, reconcilers, lease expiry, cancellation and disconnects race over the rows of a review plan, and GitHub may
  accept a POST whose answer is lost. The protocol is a step relation with one event per
  database statement, locked transaction or HTTP event. Clock readings are unconstrained
  arguments, so no proof relies on synchronous clocks or on leases outlasting a POST. The class
  performs the code's database calls against the shared table while any number of other
  steps happen at every await. Assumed: claim tokens are fresh, a RETRYABLE or REJECTED
  answer created nothing, and only this system writes a marker under the expected author.
- **Review lifecycle and quota ledger** (`ReviewProtocol`, `ReviewTheorems`,
  `ReviewService`). A reservation is three steps (lock and check, count, decide) under the
  account and job locks, interleaved with refunds, recovery, deletion and month changes.
- **Billing** (`Billing`, `BillingTheorems`, `BillingAccounts`). Webhook events are looked up
  before their transaction and booked inside it. Assumed: at most one event per subscription
  and instant does not revoke, and a stored row was written by this code.
- **Diff reading and anchors** (`Text`, `DiffText`, `DiffLines`, `DiffFormat`,
  `GitPaths`, `DiffTheorems`, `DiffExact`, `ReviewAnchors`, `AnchorTheorems`). The two regular
  expressions are modelled character by character, including the JavaScript rule that
  carriage return, U+2028 and U+2029 also end a line for a multi-line pattern. Well-formed
  diffs follow POSIX.1-2017, diff utility, section "Diff -u or -U Output Format", with git
  headers around them; paths are quoted as git does by default (`core.quotePath`).
- **Finding deduplication** (`FindingDedup`), **import index** (`ImportIndex`,
  `ImportTheorems`, `ImportService`), **context selection** (`ContextWalk`), **key
  derivation permits** (`DeriveKeyPermits`) and **Markdown rendering** (`Markdown`,
  `MarkdownCode`, `MarkdownSpan`), the last read back by rules written from CommonMark
  0.31.2, sections 2.1, 2.3, 2.4, 2.5, 4.5, 4.8 and 6.1.

State that the code updates in place is a class whose methods equal the steps of a pure
specification; loops are loops with invariants. Theorems are about every run of the
specification.

## Where a promise holds only under a condition

Each of these is an if-and-only-if; all but the last two also have a counterexample.

- A summary is frozen only from listings in which every inline row is settled if and only if
  its plan has a summary row from the start, or all of its findings can be sent, or none can
  (`DeliveryFreeze.SettledExactly`, `OvertakingRun`, `OldPlanOvertaken`). Every plan that
  `prepareReviewDelivery` makes today qualifies (`DeliveryService.PreparedNeverRelists`); a
  plan of an earlier release may not: comment-delivery.service.ts:255-265 adds the missing
  row and lists again, and a late answer may meanwhile have reopened a row.
- Billing events converge if and only if they are *decided*. An event without
  `external_id` on a subscription not yet stored is dropped, so a revocation that overtakes
  its activation can be lost (`BillingTheorems.ConvergesExactly`, `DroppedRevocation`). The
  comment at billing.service.ts:363-364 promises more.
- The account of a subscription converges if and only if it is stored already or only one
  account is claimed for it (`BillingAccounts.OwnersConvergeExactly`, `TwoClaims`).
- `splitDiffByFile` recovers the files if and only if git quotes no path, no old path
  contains the header separator, and no content line hides a header after a carriage return
  or a Unicode line separator (`DiffTheorems.SplitsIntoFiles`). Git quotes every path with a
  non-ASCII character; such a file is swallowed and its lines are collected under the name of
  the file before it (`DiffExact.SwallowedByFileBefore`, `QuotedPathSwallowed`,
  `CarriageReturnSplitsFile`).
- An anchor labels one line if and only if no blank added line shares its file and number;
  in a diff of real and intact files that always holds (`AnchorTheorems.AnchorLabelsOne`,
  `WellFormedAnchors`, `BlankSharesPlace`).
- A merged finding stands on the smallest positive line of its class if and only if the first
  nonzero line is not negative (`FindingDedup.LineExactly`, `NegativeLineSticks`); the
  normalizer never lets a negative line through.
- Rendered Markdown restores the text, prose up to white space at the end of a line, if and
  only if it has no U+0000, which CommonMark replaces, and, for a code span, is not blank.
- `ImportTheorems.CompleteExactly`: an index is COMPLETE if and only if nothing was recorded
  against it and the eligible paths are distinct.

One further finding: the second byte check of the import index
(repository-import-index.service.ts:136) cannot fire.

## Model

| member | source | states |
|---|---|---|
| `DeliveryTheorems.AtMostOneComment` | apps/backend/src/services/comment-delivery.service.ts:167-246 | In every reachable world GitHub has created at most one comment for a row; an open row has no holder, no POST pending and none created; DELIVERED means exactly one comment, the recorded one, REJECTED and OMITTED mean none |
| `DeliveryTheorems.NeverSeveralMatches` | apps/backend/src/services/comment-delivery.service.ts:124-133 | A marker search never finds two comments of one row, so the several-matches reason is never written |
| `DeliveryTheorems.OutcomesAreFinal` | apps/backend/src/services/comment-delivery.service.ts:113-137 | No run leaves DELIVERED, REJECTED or OMITTED, nor changes the comment recorded with them |
| `DeliveryTheorems.ChangesBounded` | apps/backend/src/services/comment-delivery.service.ts:208-245 | The measure (attempts left, then state) bounds the state changes a row can still make; never more than 19 |
| `DeliveryTheorems.BoundedWork` | apps/backend/src/services/comment-delivery.service.ts:208-245 | A run makes at most 19 state changes per row and dispatches at most 3 POSTs of any row |
| `DeliveryTheorems.NoSendingAfterStop` | apps/backend/src/services/comment-delivery.service.ts:59-67 | While the job is ended or its repository inactive, no step takes any row into SENDING |
| `DeliveryTheorems.PostsAfterStop` | apps/backend/src/services/comment-delivery.service.ts:215-219 | After such a stop at most one POST per row is still dispatched, and only out of the attempts then cleared |
| `DeliveryTheorems.LatePostsWereCleared` | apps/backend/src/services/comment-delivery.service.ts:215-219 | The attempt that dispatches a POST after the stop had passed its second lock check before it |
| `DeliveryProtocol.BackoffUntil` | apps/backend/src/services/comment-delivery.service.ts:238-239 | A retry waits at least a minute and as long as GitHub asked, but never past the 24 hours of the plan |
| `DeliverySafety.StepInv` | apps/backend/src/services/comment-delivery.service.ts:113-279 | Every database statement and HTTP event keeps the protocol invariant, including the way back from SENDING or UNKNOWN to READY |
| `DeliverySafety.RunInv` | apps/backend/src/services/comment-delivery.service.ts:113-279 | The invariant holds after every interleaving of workers, reconcilers, lease expiry, purge, stops and lost answers |
| `DeliverySafety.HolderOwns` | apps/backend/src/services/comment-delivery.service.ts:229 | An attempt that is cleared, posted or answered is the token holder of its row, whose receipt write therefore matches unless evidence has settled the row |
| `DeliverySafety.FoundIsHolders` | apps/backend/src/services/comment-delivery.service.ts:124-125 | Whatever a marker search finds for an uncertain row is the one comment its holder created |
| `DeliveryReport.ReportOf` | apps/backend/src/services/comment-delivery-report.ts:12-26 | The five inline counts sum to expected; pending is 0 exactly when every inline row is settled |
| `DeliveryReport.FiguresCount` | apps/backend/src/services/comment-delivery-report.ts:12-21 | Each figure counts the inline rows of its states; pending those WAITING, READY or SENDING |
| `DeliveryReport.SettledStates` | apps/backend/src/services/comment-delivery-report.ts:3-10 | Which states are settled, and when a fallback summary is needed, in the words of the table |
| `DeliveryProtocol.SummaryTells` | apps/backend/src/services/comment-delivery.service.ts:45-57 | The summary carries the figures of its listing, the rejected findings and those without a verified location |
| `DeliverySummary.SummaryIsHonest` | apps/backend/src/services/comment-delivery.service.ts:248-278 | A plan has at most one SUMMARY row, and the delivered, rejected and omitted figures frozen into it never exceed those counts in any later state |
| `DeliverySummary.SummaryTextIsFrozen` | apps/backend/src/services/comment-delivery.service.ts:268-274 | Under the current rendering a summary that has a text keeps it for ever |
| `DeliverySummary.TextComesFromFreeze` | apps/backend/src/services/comment-delivery.service.ts:268-274 | A text appears on a summary only by the freeze from WAITING, and is the figures of the listing the freezer held |
| `DeliverySummary.FrozenBehindGate` | apps/backend/src/services/comment-delivery.service.ts:251-254 | A freeze happens only after its reader listed the rows once with every inline row settled |
| `DeliveryFreeze.FrozenListingSettled` | apps/backend/src/services/comment-delivery.service.ts:251-269 | Unless the plan may be listed again, the listing every summary is frozen from has each inline row settled, so its pending figure is 0 |
| `DeliveryFreeze.OvertakingRun` | apps/backend/src/services/comment-delivery.service.ts:255-266 | Every plan that may be listed again has a run in which the summary is frozen from a listing with one row open |
| `DeliveryFreeze.SettledExactly` | apps/backend/src/services/comment-delivery.service.ts:251-274 | Summaries are frozen from settled listings only, over all runs of a plan, if and only if it has a summary row from the start, or every finding can be sent, or none can |
| `DeliveryFreeze.OldPlanOvertaken` | apps/backend/src/services/comment-delivery.service.ts:255-266 | Counterexample: a plan without a summary row, one location unverified, one finding to send |
| `DeliveryService.DeliveryService.Prepare` | apps/backend/src/services/comment-delivery.service.ts:76-106 | One inline row per distinct finding, rendered from its last occurrence, and one summary row exactly when asked for or when some location is unverified; such a plan is never listed again before its freeze |
| `DeliveryService.LastIsLast` | apps/backend/src/services/comment-delivery.service.ts:81 | The occurrence a row is rendered from is the last one of its finding |
| `DeliveryService.PreparedNeverRelists` | apps/backend/src/services/comment-delivery.service.ts:88-105 | A freshly prepared plan has its summary row, or every finding in it can be sent |
| `DeliveryService.PrepareRows` | apps/backend/src/services/comment-delivery.service.ts:80-106 | The rows themselves: each finding key once, none invented, the summary row exactly as needed |
| `DeliveryTrace.ReadyUntilMoved` | apps/backend/src/services/comment-delivery.service.ts:158-214 | A READY row stays as it is until a bulk omission or purge, or an omission, an upgrade or a claim of that row |
| `DeliveryService.DeliveryService.OmitOpenRows` | apps/backend/src/services/comment-delivery.service.ts:158-165 | The bulk omission is the one event of that name |
| `DeliveryService.DeliveryService.OmitReadyRow` | apps/backend/src/services/comment-delivery.service.ts:170-185 | Omits a row still READY; otherwise nothing changes, and a refusal means the lock check failed |
| `DeliveryService.DeliveryService.UpgradeRow` | apps/backend/src/services/comment-delivery.service.ts:198-205 | Replaces the bytes of a row still READY with the bytes read; otherwise nothing changes |
| `DeliveryService.DeliveryService.ClaimReadyRow` | apps/backend/src/services/comment-delivery.service.ts:208-214 | The claim is taken by compare-and-set under the lock, or nothing changes |
| `DeliveryService.DeliveryService.CheckClaim` | apps/backend/src/services/comment-delivery.service.ts:215-219 | The second lock check passes only for the token holder inside its lease |
| `DeliveryService.DeliveryService.WriteReceipt` | apps/backend/src/services/comment-delivery.service.ts:229-245 | The guarded receipt write, for each of the five kinds of answer |
| `DeliveryService.DeliveryService.Preflight` | apps/backend/src/services/comment-delivery.service.ts:168-187 | Goes on exactly for a READY, located row inside the window whose retry time has come, unless aborted; each other way out has its own reason and effect |
| `DeliveryService.DeliveryService.Refresh` | apps/backend/src/services/comment-delivery.service.ts:188-207 | At most one upgrade of the row, none under the current rendering; it ends the attempt exactly for a failed lock or a row that is no longer as it was read |
| `DeliveryService.DeliveryService.LookAgain` | apps/backend/src/services/comment-delivery.service.ts:215-219 | Goes on exactly while the job is eligible, the repository active, the signal not aborted and the claim in force |
| `DeliveryService.DeliveryService.Exchange` | apps/backend/src/services/comment-delivery.service.ts:222-228 | Exactly one POST and its answer, whatever others do meanwhile |
| `DeliveryService.DeliveryService.Conclude` | apps/backend/src/services/comment-delivery.service.ts:229-245 | After the receipt write the row is what the answer requires, although others moved in between |
| `DeliveryService.DeliveryService.SendClaimed` | apps/backend/src/services/comment-delivery.service.ts:208-246 | Claim, check, POST, answer, receipt in this order, or no POST at all |
| `DeliveryService.DeliveryService.Send` | apps/backend/src/services/comment-delivery.service.ts:167-246 | An answer is reported exactly when one POST was dispatched under the given token, and the row then ends as the answer requires; every other outcome happens only for its reason, and a row that was READY has then been taken up or was changed by others |
| `DeliveryService.DeliveryService.SaveMatches` | apps/backend/src/services/comment-delivery.service.ts:123-134 | One match settles an uncertain row as DELIVERED with that comment; any other number writes its reason and no state |
| `DeliveryService.DeliveryService.Reconcile` | apps/backend/src/services/comment-delivery.service.ts:114-137 | Reconciliation performs lease expiry and match saving only; unless aborted, every uncertain row, and every row whose lease has run out, is looked for or was resolved by others |
| `DeliveryService.DeliveryService.SendInline` | apps/backend/src/services/comment-delivery.service.ts:248-250 | Unless a send ends the delivery, every row listed as READY is claimed or omitted by it, or others moved it; it ends only when aborted, refused by the lock, or told to wait |
| `DeliveryService.DeliveryService.SendOne` | apps/backend/src/services/comment-delivery.service.ts:167-246 | A claim is followed by its POST unless the attempt is aborted, the lock fails or the claim is no longer in force |
| `DeliveryService.DeliveryService.SendSummary` | apps/backend/src/services/comment-delivery.service.ts:251-276 | Past the gate the summary of the listing is taken up, or is neither READY nor WAITING |
| `DeliveryService.DeliveryService.AddSummaryRow` | apps/backend/src/services/comment-delivery.service.ts:255-264 | Unless the lock refuses, there is a summary row afterwards, and nothing was dispatched |
| `DeliveryService.DeliveryService.FreezeSummaryRow` | apps/backend/src/services/comment-delivery.service.ts:268-274 | The summary is frozen by compare-and-set from WAITING under the lock, or nothing changes |
| `DeliveryService.DeliveryService.PassGate` | apps/backend/src/services/comment-delivery.service.ts:251-254 | The gate lets a delivery pass exactly when every inline row is settled |
| `DeliveryService.DeliveryService.DeliverReviewPlan` | apps/backend/src/services/comment-delivery.service.ts:139-279 | A delivery finishes only over a table in which every row is settled and every outcome true, and reports that table; what was READY has then been taken up, or others moved it; it stays pending only for a retry time or, after taking up what was ready and past the gate the summary, for rows not settled; it fails only without GitHub, its identity or the lock, or when aborted |
| `DeliveryService.DeliveryService.PurgeDisconnected` | apps/backend/src/services/comment-delivery.service.ts:281-295 | The two bulk updates of a disconnect are the one purge event: open rows omitted, claimed rows uncertain |
| `ReviewTheorems.LedgerAgrees` | apps/backend/src/services/quota.service.ts:57-116 | In every reachable state each counter is its base plus the unrefunded charges on it, and a charged job is refunded exactly when it is FAILED, SKIPPED, CANCELLED or TIMEOUT |
| `ReviewTheorems.RefundIsDue` | apps/backend/src/services/review-quota.ts:7-16 | A due refund always finds its counter above zero, so the guard never swallows one |
| `ReviewTheorems.RefundGoesWhereCharged` | apps/backend/src/services/review-quota.ts:12-16 | A stop takes one from the counter the review was charged on, same ledger and month, and from nothing else |
| `ReviewTheorems.ChargeGoesToMonth` | apps/backend/src/services/quota.service.ts:77-83 | The charge lands on the account ledger of the month that was counted and raises its usage by one, to at most the counted value plus one |
| `ReviewTheorems.StepInv` | apps/backend/src/services/quota.service.ts:54-116 | Every step of reservations, refunds, recovery, month change and deletion keeps the ledger invariant |
| `ReviewTheorems.DeleteStep` | apps/backend/src/workers/job-retention.ts:26-44 | Deleting failed jobs keeps the invariant: every deleted charge had been given back |
| `ReviewTheorems.TerminalStays` | apps/backend/src/workers/job-state.ts:129-140 | No step takes a job out of the terminal statuses |
| `ReviewTheorems.NeverRevived` | apps/backend/src/workers/job-state.ts:166-182 | Over whole runs a finished or deleted job is never in progress again |
| `ReviewTheorems.OnceEach` | apps/backend/src/services/quota.service.ts:69-83 | Over any run a job is charged at most once and refunded at most once |
| `ReviewTheorems.FreeTierCap` | apps/backend/src/services/quota.service.ts:88-116 | An account that reserves only on the free tier never holds more than 50 private charges of one month, whatever refunds and month changes come between |
| `ReviewTheorems.PhasesInOrder` | apps/backend/src/workers/job-state.ts:29-34 | From which status a review may move on to which phase |
| `ReviewTheorems.UsageAdds` | apps/backend/src/services/quota.service.ts:30-37 | Usage is a sum over ledgers, each counting for its owner and month only |
| `ReviewTheorems.EarliestRepository` | apps/backend/src/services/quota.service.ts:99-106 | Free private reviews are for the active private repository that no other of the account precedes in creation time, then id |
| `ReviewService.ReviewStore.ReserveReview` | apps/backend/src/services/quota.service.ts:54-86 | Charges only an in-progress job of the account without a charge, on the account ledger of the month; repeats are answered without a second charge; it throws exactly for an unavailable, locked, refunded or mismatched review, and denies free private reviews only |
| `ReviewService.ReviewStore.Replay` | apps/backend/src/services/quota.service.ts:69-76 | Answers exactly an available job that is charged, not refunded and of the same kind, with the usage of the month of its ledger |
| `ReviewService.ReviewStore.Decide` | apps/backend/src/services/quota.service.ts:88-116 | Denies exactly a free private review that is not of the earliest repository, or finds 50 counted; charges every other |
| `ReviewService.ReviewStore.PersistState` | apps/backend/src/workers/job-state.ts:129-141 | Writes exactly when the job is there, unlocked, not terminal and as expected; with FAILED, SKIPPED, CANCELLED or TIMEOUT an unrefunded charge is marked and its counter lowered by one in the same step, with COMPLETED or RETRYING nothing is refunded |
| `ReviewService.ReviewStore.RefundQuota` | apps/backend/src/services/review-quota.ts:4-17 | Marker first, then the guarded decrement: exactly the refund of the specification |
| `ReviewService.ReviewStore.AdvanceReview` | apps/backend/src/workers/job-state.ts:160-185 | A phase is written only forwards, never over a terminal status, and only over the status read; it is not written only for such a reason or because the job has moved |
| `ReviewService.ReviewStore.SweepFailedJobs` | apps/backend/src/workers/job-retention.ts:20-47 | Deletes all failed jobs past the cutoff without a delivery plan and nothing else; the total is their number |
| `ReviewService.Judgement` | apps/backend/src/workers/review-recovery.ts:42-84 | Which review is stopped and as what, by repository, queue state, age of the row and start of the worker; an unreadable queue stops nothing |
| `ReviewService.FirstOf` | apps/backend/src/workers/review-recovery.ts:34-37 | The page is the first ids in ascending order, at most the batch size |
| `ReviewService.ReviewStore.RecoverReviews` | apps/backend/src/workers/review-recovery.ts:33-87 | Every listed review that is judged to stop is stopped with that status, unless its row was seen to have moved; the count is that of the stops; a cursor is returned exactly after a full page and lies past the old one; an unfull page was everything left |
| `ReviewService.ReviewStore.Settle` | apps/backend/src/workers/review-recovery.ts:42-84 | A row that has moved since it was listed is left alone; a stop is one guarded status write |
| `BillingTheorems.BookingAgrees` | apps/backend/src/services/billing.service.ts:315-355 | Booking one event keeps the description of what is stored: latest time, revocation first among equals |
| `BillingTheorems.RunAgrees` | apps/backend/src/services/billing.service.ts:292-356 | After any run the stored subscription is what its booked events determine, in whatever order they came |
| `BillingTheorems.SubscriptionConverges` | apps/backend/src/services/billing.service.ts:292-356 | Any order with any repetitions, lookups interleaved, ends with the same plan and event time, under the exact condition below |
| `BillingTheorems.ConvergesExactly` | apps/backend/src/services/billing.service.ts:298-304 | Independence of order and repetition holds if and only if the events are decided: the subscription is stored, or none of its events names an account, or a naming event is among the latest and no revocation of that instant is dropped with a difference |
| `BillingTheorems.StoredFollows` | apps/backend/src/services/billing.service.ts:306-337 | A stored row that has changed is that of a latest booked event: its status, and the plan bought if the status is active, past_due or trialing; a revocation of that instant wins |
| `BillingTheorems.DroppedRevocation` | apps/backend/src/services/billing.service.ts:298-304 | Counterexample: a revocation without an account id that arrives before the activation is dropped, and access stays |
| `BillingAccounts.OwnersConvergeExactly` | apps/backend/src/services/billing.service.ts:298-299 | The account of a subscription is independent of the order if and only if it is stored already or all events that name an account name the same one |
| `BillingAccounts.AccountsConverge` | apps/backend/src/services/billing.service.ts:376-388 | With events decided and accounts unambiguous every account tier and every installation plan ends the same |
| `BillingAccounts.TwoClaims` | apps/backend/src/services/billing.service.ts:298-299 | Counterexample: two events claim a new subscription for two accounts; which account has the paid tier, and the plan of its installation, depend on the order |
| `BillingAccounts.InstallationsFollow` | apps/backend/src/services/billing.service.ts:376-388 | After any run every installation of an account with a changed subscription is TEAM exactly when some paid-up subscription is, INDIE exactly when one is and none is TEAM, and FREE otherwise; others keep their plan |
| `BillingAccounts.RevocationWinsTies` | apps/backend/src/services/billing.service.ts:320-324 | Of an entitling event and a revocation of the same instant the revocation wins in either order |
| `Billing.BestPlan` | apps/backend/src/services/entitlement.service.ts:7-14 | The tier of an account is TEAM, INDIE or FREE by its paid-up subscriptions, the highest first |
| `Billing.BillingStore.SyncSubscription` | apps/backend/src/services/billing.service.ts:292-356 | Performs exactly its event with the account looked up before the transaction, whatever runs in between, and returns the stored plan |
| `Billing.BillingStore.SyncCancellation` | apps/backend/src/services/billing.service.ts:362-367 | The same with the event turned into a revocation |
| `Billing.BillingStore.Transact` | apps/backend/src/services/billing.service.ts:315-355 | The transaction is one booking of the specification |
| `Billing.BillingStore.SyncEntitlements` | apps/backend/src/services/billing.service.ts:376-388 | Every installation of the account, and no other, gets TEAM if and only if a paid-up subscription has it, INDIE if and only if one has and none has TEAM, and FREE otherwise |
| `FindingDedup.Deduplicate` | apps/backend/src/services/ai/finding-dedup.service.ts:110-154 | The survivors are those of the step-by-step specification and partition the input: each finding is represented by one survivor of its path and category whose severity and source label are not below its own in the order of the taxonomy, with its sources, rule keys and anchor; nothing in a survivor is made up; survivors stay in order of first occurrence |
| `FindingDedup.FindHome` | apps/backend/src/services/ai/finding-dedup.service.ts:121-147 | The survivor merged into is the first exact repeat, else the one the loose key leads to, else the first nearby one if similar |
| `FindingDedup.HomeIsAkin` | apps/backend/src/services/ai/finding-dedup.service.ts:121-143 | A finding is merged only into a survivor of its own path and category without a conflicting anchor |
| `FindingDedup.WhyMerged` | apps/backend/src/services/ai/finding-dedup.service.ts:121-147 | Merged exactly as the same report, under the same loose key, or as the first report at most three lines away if six words in ten are shared |
| `FindingDedup.PathSpellings` | apps/backend/src/services/ai/finding-dedup.service.ts:16-18 | A leading dot slash, back slashes and upper case do not tell paths apart |
| `FindingDedup.PlaceUnambiguous` | apps/backend/src/services/ai/finding-dedup.service.ts:90-102 | Keys joined with a bar never run together: equal keys mean equal path and category |
| `FindingDedup.MergeRepresents` | apps/backend/src/services/ai/finding-dedup.service.ts:177-197 | Merging speaks for the merged finding and for all the survivor spoke for before |
| `FindingDedup.LineExactly` | apps/backend/src/services/ai/finding-dedup.service.ts:178-181 | The merged line is the smallest positive line of the class if and only if its first nonzero line is not negative |
| `FindingDedup.NegativeLineSticks` | apps/backend/src/services/ai/finding-dedup.service.ts:178-181 | Two reports with one loose key and no citation, the first on a negative line: deduplication leaves one finding, on that line |
| `FindingDedup.SurvivorLine` | apps/backend/src/services/ai/finding-dedup.service.ts:178-181 | With the line numbers the normalizer lets through, a survivor stands on the smallest positive line of its class |
| `FindingDedup.Resembles` | apps/backend/src/services/ai/finding-dedup.service.ts:62-73 | The counting loop decides word overlap of at least 0.6 |
| `DiffLines.SplitDiffByFile` | apps/backend/src/services/diff-filter.service.ts:27-60 | The loops compute the chunks of the specification: header to header, trimmed |
| `DiffLines.CollectChangedLines` | apps/backend/src/services/diff-lines.ts:16-54 | The loops compute the added and removed lines of the specification |
| `DiffLines.CollectChunk` | apps/backend/src/services/diff-lines.ts:24-51 | One chunk: counters and lists after every prefix of lines |
| `DiffText.ParseHunkHeader` | apps/backend/src/services/diff-lines.ts:29-32 | Reading a printed hunk header gives back both line numbers, counts left out or not |
| `DiffText.HunkThenWhite` | apps/backend/src/services/diff-lines.ts:29 | White space after a line neither makes nor breaks a hunk header |
| `DiffText.HunkShape` | apps/backend/src/services/diff-lines.ts:29 | Only a line of the form of a hunk header is read as one |
| `DiffLines.PlainNames` | apps/backend/src/services/diff-lines.ts:23 | A leading dot slash is dropped from a file name, and nothing else |
| `DiffFormat.ScanFile` | apps/backend/src/services/diff-lines.ts:28-51 | On a printed file the scanner collects exactly the added and removed lines of its hunks at their numbers |
| `DiffFormat.ExactlyTheDifference` | apps/backend/src/services/diff-lines.ts:15-54 | For a diff of an old and a new file the listed lines are true lines of the files at their numbers, and without them both files are the same text |
| `GitPaths.HeaderReadsBack` | apps/backend/src/services/diff-filter.service.ts:30 | A header line gives back the new path if and only if git quotes neither path and the old path does not itself contain the separator |
| `GitPaths.QuotedNeverReads` | apps/backend/src/services/diff-filter.service.ts:30 | A quoted new path is never read back, whatever white space follows the header |
| `GitPaths.QuotedOldHasNoHeader` | apps/backend/src/services/diff-filter.service.ts:30 | With a quoted old path there is no header at all for the pattern |
| `DiffTheorems.FreeLines` | apps/backend/src/services/diff-filter.service.ts:30-41 | A text of lines hides a header if and only if one of its lines does |
| `DiffTheorems.UnbrokenLine` | apps/backend/src/services/diff-filter.service.ts:30 | A line without carriage return or Unicode line separator is read as a header only if it is one from its first character |
| `DiffTheorems.SplitsIntoFiles` | apps/backend/src/services/diff-filter.service.ts:27-60 | The split gives back the files of a diff under their new paths if and only if git quotes no path, each old path is plain and no line below a header hides another header |
| `DiffTheorems.HowManyChunks` | apps/backend/src/services/diff-filter.service.ts:32-41 | As many chunks as headers the pattern finds, one when it finds none; where every header is read that is the number of files if and only if nothing is hidden below a header |
| `DiffExact.ScanChunk` | apps/backend/src/services/diff-filter.service.ts:48-51 | Trimming a chunk costs at most white space at the end of a line: same lines, same numbers |
| `DiffExact.CollectedLinesAreTrue` | apps/backend/src/services/diff-lines.ts:16-54 | Main result: from a whole diff of intact files the collected lines are those of every file, under its new path, at their true numbers, up to trimmed white space |
| `DiffExact.SwallowedByFileBefore` | apps/backend/src/services/diff-filter.service.ts:32-51 | A file whose header is not read: every line it adds is collected, at its number, under the name of the file before it |
| `DiffExact.QuotedPathSwallowed` | apps/backend/src/services/diff-filter.service.ts:30 | Counterexample: the added line of a file with a non-ASCII name becomes a line of the file before it |
| `DiffExact.PlainDiffIsExact` | apps/backend/src/services/diff-filter.service.ts:43-46 | A diff without git headers is one file named unknown, every line exact |
| `DiffExact.CarriageReturnSplitsFile` | apps/backend/src/services/diff-filter.service.ts:30 | Counterexample: a carriage return in an added line starts a file that is not there |
| `ReviewAnchors.CollectAnchors` | apps/backend/src/services/ai/review-anchors.ts:11-26 | The anchors are exactly the eligible added lines that are alone at their file and number |
| `ReviewAnchors.SafePathIs` | apps/backend/src/services/ai/review-anchors.ts:7-8 | An anchor needs a relative path without the parts dot and dot dot, back slashes and control characters |
| `ReviewAnchors.ByLocation` | apps/backend/src/services/ai/review-anchors.ts:31 | The table leads from each place to its one anchor |
| `ReviewAnchors.TableFinds` | apps/backend/src/services/ai/review-anchors.ts:31 | The table finds an anchor at a place exactly when the place is that of an eligible line alone there |
| `ReviewAnchors.LabelChunk` | apps/backend/src/services/ai/review-anchors.ts:33-45 | The label scanner computes the labels of the specification |
| `ReviewAnchors.NumbersFollow` | apps/backend/src/services/ai/review-anchors.ts:35-44 | Lines shown of the new file are numbered one after another from the start the hunk header gives |
| `ReviewAnchors.LabelledReviewDiff` | apps/backend/src/services/ai/review-anchors.ts:29-47 | The labels of all chunks, each new line looked up among the anchors of the same diff |
| `AnchorTheorems.LabelsAgree` | apps/backend/src/services/ai/review-anchors.ts:34-45 | One label a line; new and old labels carry exactly the lines and numbers the collector gathers |
| `AnchorTheorems.LabelledDiffAgrees` | apps/backend/src/services/ai/review-anchors.ts:29-47 | Over a whole diff the lines labelled as new are the collected added lines, each with the anchor of its place |
| `AnchorTheorems.AnchorLabelsOne` | apps/backend/src/services/ai/review-anchors.ts:38-41 | An anchor labels exactly its own line if and only if no blank added line shares its place |
| `AnchorTheorems.WellFormedAnchors` | apps/backend/src/services/ai/review-anchors.ts:11-47 | In a diff of real and intact files every anchor labels exactly one line and every eligible line has its anchor |
| `AnchorTheorems.BlankSharesPlace` | apps/backend/src/services/ai/review-anchors.ts:16-20 | Counterexample outside well-formed diffs: a repeated hunk start lets an anchor label a blank line too |
| `AnchorTheorems.BindFindingAnchors` | apps/backend/src/services/ai/review-anchors.ts:69-79 | Every finding of the list is bound in place, from the anchors of this diff |
| `AnchorTheorems.BindingIsSound` | apps/backend/src/services/ai/review-anchors.ts:72-78 | A finding ends up bound exactly to the anchor at its own place, which a finding of the model must have cited itself; nothing else changes and binding again changes nothing |
| `ImportTheorems.RunInv` | apps/backend/src/services/repository-import-index.service.ts:109-160 | Every interleaving of the concurrent reads keeps the invariant |
| `ImportTheorems.Budgets` | apps/backend/src/services/repository-import-index.service.ts:112-137 | Downloads stay within the limit, no blob is downloaded twice, and downloaded bytes <= reserved bytes <= limit, reserved being received plus outstanding and failed reservations |
| `ImportTheorems.CountedInv` | apps/backend/src/services/repository-import-index.service.ts:132-137 | A download that fits its reservation never passes the byte limit, so the second byte check never fires |
| `ImportTheorems.IndexIsTrue` | apps/backend/src/services/repository-import-index.service.ts:103-108 | Every indexed path carries the parse of a blob listed for that path among the first files up to the limit; past the limit FILE_LIMIT is recorded |
| `ImportTheorems.CompleteExactly` | apps/backend/src/services/repository-import-index.service.ts:166-171 | COMPLETE is reported if and only if no reason was recorded and the paths are distinct: nothing is left out silently |
| `ImportTheorems.CompleteIsPlain` | apps/backend/src/services/repository-import-index.service.ts:95-172 | A COMPLETE index is what parsing every eligible file without any cache gives |
| `ImportTheorems.ReasonsAreTrue` | apps/backend/src/services/repository-import-index.service.ts:96-152 | Each reason is recorded only for what it says: a failed cache, a download or byte limit reached, a file unavailable or too long |
| `ImportTheorems.FailuresAreRecorded` | apps/backend/src/services/repository-import-index.service.ts:96-152 | Every failure before an abort is recorded, and no reason is taken back |
| `ImportTheorems.NothingAtHandIsDropped` | apps/backend/src/services/repository-import-index.service.ts:138-159 | A text at hand is parsed unless it is too long, and its parse reaches every file that waits for it |
| `ImportTheorems.BatchIsBounded` | apps/backend/src/services/repository-import-index.service.ts:154-157 | A batch is the next files up to the concurrency limit, and no more ever wait at once |
| `ImportTheorems.BoundedSteps` | apps/backend/src/services/repository-import-index.service.ts:154-160 | A build of n files takes at most 6n + 1 steps, aborts apart |
| `ImportTheorems.NeverStuck` | apps/backend/src/services/repository-import-index.service.ts:154-160 | With a concurrency of at least one, a build that is not finished can always go on |
| `ImportService.ImportIndexBuild.LoadCache` | apps/backend/src/services/repository-import-index.service.ts:96-108 | The cache hits are indexed and counted, the rest listed as missing |
| `ImportService.ImportIndexBuild.NextBatch` | apps/backend/src/services/repository-import-index.service.ts:154-157 | Takes up the next files, at most as many as the concurrency limit, one read per blob |
| `ImportService.ImportIndexBuild.SourceAnswered` | apps/backend/src/services/repository-import-index.service.ts:116-129 | Uses the cached source or reserves and starts a download within both limits |
| `ImportService.ImportIndexBuild.BlobAnswered` | apps/backend/src/services/repository-import-index.service.ts:129-143 | Settles the reservation and parses, or gives up with a reason |
| `ImportService.ImportIndexBuild.ImportsStored` | apps/backend/src/services/repository-import-index.service.ts:143-147 | After the import cache write: on to the source cache, or done when aborted |
| `ImportService.ImportIndexBuild.SourceSaved` | apps/backend/src/services/repository-import-index.service.ts:147-149 | After the source cache write the read is done |
| `ImportService.ImportIndexBuild.TakeResult` | apps/backend/src/services/repository-import-index.service.ts:156-159 | A waiting file takes the result of its blob |
| `ImportService.ImportIndexBuild.Report` | apps/backend/src/services/repository-import-index.service.ts:164-172 | Coverage figures, reasons and status as the specification has them |
| `ContextWalk.BuildGraph` | apps/backend/src/services/context-retrieval.service.ts:81-103 | The forward and reverse maps hold exactly the resolved imports of the readable files, each once, without self edges |
| `ContextWalk.Transpose` | apps/backend/src/services/context-retrieval.service.ts:94-102 | The reverse map is the transpose of the forward map |
| `ContextWalk.WalkBfs` | apps/backend/src/services/context-retrieval.service.ts:152-181 | Exactly the files within maxHops, each with its shortest distance |
| `ContextWalk.NothingMissed` | apps/backend/src/services/context-retrieval.service.ts:166-178 | Once every file is expanded no shorter way is missed |
| `ContextWalk.ReachIsChain` | apps/backend/src/services/context-retrieval.service.ts:170 | A hop of the walk is an import in one direction or the other |
| `ContextWalk.ParentUndoes` | apps/backend/src/services/import-graph.service.ts:138-149 | Two dots undo the segment before them; a dot and an empty segment change nothing |
| `ContextWalk.ListedIsIndexed` | apps/backend/src/services/import-graph.service.ts:138-168 | A path of the repository is found in the file index as it stands if and only if it is normalized |
| `ContextWalk.FilesInReach` | apps/backend/src/services/context-retrieval.service.ts:75-105 | The result is exactly the files joined to a changed file of the index by at most maxHops imports in either direction, at the shortest such distance |
| `DeriveKeyPermits.StepInv` | apps/backend/src/services/encryption.service.ts:31-45 | Every arrival, resumption and completion keeps: running plus in transit = active <= 4, at most 64 waiting, nobody waits while a permit is free, permits in order of arrival |
| `DeriveKeyPermits.RunInv` | apps/backend/src/services/encryption.service.ts:31-45 | The same over every run |
| `DeriveKeyPermits.PermitAfterExactly` | apps/backend/src/services/encryption.service.ts:41-44 | A caller with p others before it gets its permit at exactly the (p+1)-th completion |
| `DeriveKeyPermits.KeyDerivation.Acquire` | apps/backend/src/services/encryption.service.ts:33-36 | Refuses exactly when 64 callers wait; otherwise takes a permit or queues |
| `DeriveKeyPermits.KeyDerivation.Release` | apps/backend/src/services/encryption.service.ts:41-44 | Hands the permit to the first waiting caller or gives it back |
| `Markdown.EscapedTextReadsBack` | apps/backend/src/services/ai/finding-format.ts:96-104 | Escaped prose reads back as the text with white space collapsed if and only if it has no U+0000, and leaves no bare punctuation |
| `Markdown.EscapedLineReadsBack` | apps/backend/src/services/ai/finding-format.ts:72-86 | At the end of a line, where CommonMark drops spaces, it reads back without the white space at its end, under the same condition |
| `Markdown.PunctuationIs` | apps/backend/src/services/ai/finding-format.ts:97 | The characters escaped are the ASCII punctuation characters of CommonMark |
| `Markdown.CollapseCollapses` | apps/backend/src/services/ai/finding-format.ts:97 | Collapsed text has no line end and no two spaces together |
| `MarkdownCode.LongestBacktickRun` | apps/backend/src/services/ai/finding-format.ts:106-113 | The loop computes the longest run of backticks |
| `MarkdownCode.RunBound` | apps/backend/src/services/ai/finding-format.ts:106-113 | No run is longer than the longest |
| `MarkdownCode.LongestIsRun` | apps/backend/src/services/ai/finding-format.ts:106-113 | There is a run that long |
| `MarkdownCode.SameLines` | apps/backend/src/services/ai/finding-format.ts:116 | Normalizing line ends changes no line |
| `MarkdownCode.NoLineCloses` | apps/backend/src/services/ai/finding-format.ts:117-118 | No line of the text closes its own fence |
| `MarkdownCode.RenderReadOnlyBlock` | apps/backend/src/services/ai/finding-format.ts:115-119 | Renders the block of the theorems below |
| `MarkdownCode.BlockReadsBack` | apps/backend/src/services/ai/finding-format.ts:115-119 | The whole block is one fenced code block whose lines are those of the text, if and only if it has no U+0000 |
| `MarkdownSpan.RenderInlineCode` | apps/backend/src/services/ai/finding-format.ts:121-126 | Renders the code span of the theorems below |
| `MarkdownSpan.ShownIsEmpty` | apps/backend/src/services/ai/finding-format.ts:122 | Nothing is shown exactly of blank text |
| `MarkdownSpan.SpanReadsBack` | apps/backend/src/services/ai/finding-format.ts:121-126 | The code span reads back as the shown text if and only if the text is not blank and has no U+0000 |
| `MarkdownSpan.BlankIsNoSpan` | apps/backend/src/services/ai/finding-format.ts:121-126 | For blank text the two delimiters run together and there is no span |

## Left out

- Prisma, BullMQ, Redis, Socket.IO, HTTP routes, the GitHub and model clients: the database
  is a state with locked transactions and compare-and-set steps, the rest is environment.
- Encryption, SHA-256, UUIDs: digests and tokens are injective or fresh values, so payload
  hashes are modelled by the payload and anchor ids by file, number and text; an anchor
  string that is no id at all is modelled as none.
- `findingIdentity`, glob matching, the JavaScript import lexer, import path resolution, the
  word splitter of deduplication: parameters of the model.
- DeliveryService.DeliveryService.SendInline: rows are sent in any order, not in the order of
  the suggestions.
- DeliveryService.DeliveryService.Refresh: the re-rendered text is arbitrary, not computed
  from the finding or the other rows.
- DeliveryReport.ReportOf: reasons, links and the disconnected flag of the report are not
  modelled.
- DeliveryService.DeliveryService.Prepare: the checks of job, repository and head commit and the
  return of a plan already stored; a stored plan is taken up by `Load`.
- DeliveryService.DeliveryService.DeliverReviewPlan: the order of the inline sends and the
  details recorded with a failure are not modelled, nor is a read of GitHub that throws.
- purgeExpiredDeliveryPayloads: clears stored text only; no row changes state.
- ReviewService.ReviewStore.ReserveReview: limit, tier and month of the usage returned to the
  caller are not modelled; where the code waits for a locked row the method returns without a change, so
  waiting is a later call.
- ReviewService.ReviewStore.Replay: limit, tier and month of the usage returned are not modelled.
- ReviewService.ReviewStore.SweepFailedJobs: other steps run between deletion events of the
  protocol, but not between the batches of this method.
- ReviewService.ReviewStore.RecoverReviews: the listing of legacy queue jobs is one reading of
  the queue; review results and messages are not modelled.
- Completion of a review: one step to COMPLETED from an in-progress status.
- Billing.BillingStore.SyncSubscription: billing cycle, period end and customer ids of a
  subscription are not modelled, nor is the rejection of an unreadable timestamp.
- BillingAccounts.AccountsConverge: states only that the tiers converge under the two conditions;
  without them they may still agree by chance, as when another subscription pays for the tier.
- FindingDedup.Deduplicate: lower-casing of paths is that of ASCII; an anchor is a non-empty
  string.
- DiffLines.CollectChangedLines: line numbers are exact integers; JavaScript rounds above 2^53.
- DiffExact.CollectedLinesAreTrue: one direction; that a diff of other files goes wrong is proved
  for the split (`SplitsIntoFiles`) and for lines of swallowed files.
- ReviewAnchors.LabelledReviewDiff: a label is a structure of kind, number, anchor and text,
  not its rendered string.
- ReviewAnchors: `normalizeAnchoredSuggestions` is left out; the independent guard
  `bindFindingAnchors` is modelled.
- ImportIndex: the priority sort of the eligible files is an input order, timers are an event,
  and a download is taken to be no longer than was asked for.
- ContextWalk.FilesInReach: tests matched by name, the relation texts, the reach count and the
  ranking of candidates are left out.
- DeriveKeyPermits: the derivation itself and the master key check.
- Markdown.EscapedTextReadsBack: the table of named references is a parameter that knows amp,
  lt and gt; the surrounding Markdown of a comment is left out.
- The web application, catalogues, pagination and log texts.
