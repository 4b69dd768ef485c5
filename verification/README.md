# Verified model of the review pipeline

A Dafny model of the parts of the LlamaPReview pipeline that are hardest to get right, with proofs of what
they promise.

**The durable review run.** One database item per pull request is shared by at-least-once invocations that
race on it through conditional writes; one counter per grant is shared by all items. `ReviewItem` holds the
entities and the meaning of each conditional write. `ReviewTable` is the table as a class, one method per
request, each proved against that meaning. `ReviewProtocol` interleaves any number of workers: every read
that precedes a write is a step of its own, a worker may crash between any two steps, and a claim may be
taken over by the same stream event or after its lease has expired. `ReviewInvariant`, `GrantLedger`,
`ReviewTheorems` and `ProviderPurity` carry the inductive invariants; `ReviewHistory` states what follows
for every run, with `RequeueAdmission` for the one result that needs claims of an item not to share a claimant.
`TableProtocol` shows that each request on the table is the protocol's step. `ProviderClient` is the
client's retry loop, `CallOrder` the automaton of its histories, `ClientProtocol` shows that a worker's
steps are such a history, and `TransportOrder` what this means for the stored attempts. `DirectBudget` is
the price arithmetic of reservations and settlements.

**Accounting.** `UsageTree` sums nested usage reports, `Accounting` projects the ledger into winning and
discarded calls, `Reconciliation` is the independent check, and `LedgerTheorems` joins the two.

**Admission, selection, allocation, repair.** `Capacity`, `CapacityRuns` and `CapacityTheorems` are the
two-bound daily counter under concurrent callers. `RepairSelection`, `Packing`, `PrMarkdown`, `JsonRepair`
and `HttpStatus` are the bounded algorithms. `Evidence`, `EvidenceSnapshots`, `EvidenceRuns` and `EvidenceStore`
are the question and evidence ledger: its operations, its snapshots, its runs and the object itself.
`Ordering`, `Strings`, `Numbers`, `MapSum` and `Wrappers` are shared helpers.

Conventions. A SHA-256 identity is modelled by the value that it digests, so that different values have
different identities. Money and tokens are exact integers, time is an integer. What the network, the
database, the clock and the JSON parser answer is arbitrary: a parameter of the action, of the script or of
the oracle. A loop or an in-place update of the program is a loop or an in-place update here, proved against
a function or predicate about which the results are stated. `hide` statements only withhold definitions
from a proof.

Findings about the code, each proved:

- A winning requeue is turned away by the stream validator exactly when an admission is in place that its
  read had not seen. The admission write compares owner and event of the lease but not the attempt, so this
  happens when two claims share both (`ReviewHistory.RequeueIsAcceptedExactly`,
  `RequeueAdmission.SharedClaimantBreaks`), and only then (`RequeueAdmission.RunIsPlanned`).
- The projection of a pull request obeys its character limit exactly when the text is above the compaction
  threshold or short enough to begin with; with the shipped defaults every text between 250,000 and 600,000
  characters exceeds it (`PrMarkdown.LimitObeyedExactly`, `PrMarkdown.DefaultsLeaveGap`).
- An event is rewritten exactly when a record meets another event under its id, which happens only after a
  record on the same id, tool and arguments made before the question was registered, or after an ingested
  snapshot (`Evidence.RecordKeepsEventsExactly`, `EvidenceRuns.CollisionsComeFrom`); then an answer can lose
  its evidence (`EvidenceRuns.UnregisteredEventsAreRewritten`).
- Ingesting a snapshot keeps answers backed exactly when its entries fit; an answer without references, or an
  answer observed at another head, does not (`EvidenceSnapshots.IngestKeepsOkExactly`,
  `EvidenceSnapshots.BareAnswerBreaks`, `EvidenceSnapshots.OtherHeadBreaks`).
- A ledger snapshot rebuilds a ledger exactly when no blank or unnormalized question name was resolved in it
  (`EvidenceSnapshots.SnapshotRebuilds`).
- The reservation dominates every accepted report exactly when the price of the output cap is even, as every
  listed output rate makes it (`DirectBudget.DominatesExactly`).

Verify everything with `dafny verify dfyconfig.toml`.

## Model

| member | source | states |
|---|---|---|
| ReviewHistory.OneUnknownOutcome | lambdas/LlamaPReviewPipeline/persistence.py:1036-1241 | In every run, at every moment, an item has at most one call whose outcome is unknown, although the fence searches for one on an earlier read than its write. |
| ReviewHistory.GrantIsConserved | lambdas/LlamaPReviewPipeline/persistence.py:1005-1033 | A grant counter always equals what all items say: charged is reserved plus settled, reserved is the sum of every reservation not yet settled (unknown outcomes included), and the pinned allocation is never exceeded. |
| ReviewHistory.FencesWithinRetryBudget | lambdas/LlamaPReviewPipeline/orchestrator.py:752-774 | No fence, on either head of an item, was ever written by an attempt below 1 or above the retry budget. |
| ReviewHistory.HeadsShareOneBudget | lambdas/LlamaPReviewPipeline/orchestrator.py:833-850 | The distinct paid attempts of a phase, over the original head and its successor together, number at most the retry budget. |
| ReviewHistory.SuccessorCallsAreSeparate | lambdas/LlamaPReviewPipeline/persistence.py:1887-2059 | Every context call of a successor head carries a later attempt than every call of its predecessor, so the two never mix. |
| ReviewHistory.PaidAtMostOnce | lambdas/LlamaPReviewPipeline/deepseek_client.py:1045-1332 | Over a whole run no call id is posted to the provider twice. |
| ReviewHistory.PostIsBehindItsOwnFence | lambdas/LlamaPReviewPipeline/deepseek_client.py:1045-1100 | A request leaves only behind the worker's own durable dispatching fence, while no other call of the item has an unknown outcome. |
| ReviewHistory.FirstSettlementSucceeds | lambdas/LlamaPReviewPipeline/persistence.py:1005-1033 | The settlement write of a worker behind its fence always succeeds, on the item and on the counter: the guards on reserved and charged never block it. |
| ReviewHistory.RedeliveryIsANoOp | lambdas/LlamaPReviewPipeline/persistence.py:1282-1460 | In every run, once a worker has read for a report and written it, at every later moment a further delivery of that report is confirmed and changes nothing, and a delivery that had read before loses its write and finds that very record. |
| ReviewHistory.StoredReportIsSettled | lambdas/LlamaPReviewPipeline/persistence.py:1314-1358 | A report is recognised as settled wherever its terminal record is stored, with price, cap and cycle taken from the fence. |
| ReviewHistory.LeaseExcludesExactly | lambdas/LlamaPReviewPipeline/persistence.py:516-622 | After a claim, the same phase of an unchanged item can be claimed again exactly when the lease has run out or the same stream event is redelivered, for the same head and run. |
| ReviewHistory.HistoryOnlyGrows | lambdas/LlamaPReviewPipeline/persistence.py:1282-1586 | Between any two moments of a run no record is lost or, once terminal, changed; identity and price terms of a record are those of its fence; attempts, status and successor count never go back. |
| ReviewHistory.StatusMovesForward | lambdas/LlamaPReviewPipeline/persistence.py:1512-1586 | Statuses move only from pending to context-ready to terminal, or straight to terminal, and terminal statuses are absorbing. |
| ReviewHistory.IntentPinsHead | lambdas/LlamaPReviewPipeline/persistence.py:757-862 | Once a publication intent or receipt exists, head and run of the item never change again and the intent never disappears. |
| ReviewHistory.IntentChangesByExchange | lambdas/LlamaPReviewPipeline/persistence.py:812-862 | An intent appears once, prepared for the head in place, and changes only by the exact replacement of its current value, never after a receipt. |
| ReviewHistory.RequeueIsAccepted | lambdas/LlamaPReviewPipeline/persistence.py:2062-2181 | Where no two claims of one phase of one item share owner and event, a requeue that wins its write, whatever other workers did between its read and its write, yields an image pair that the stream validator accepts, with every record kept. |
| ReviewHistory.RequeueIsAcceptedExactly | lambdas/LlamaPReviewPipeline/persistence.py:2062-2181 | In every run, a winning requeue passes every test of the stream validator but the last, and the last one exactly when its read saw the admission that is there. |
| RequeueAdmission.RunIsPlanned | lambdas/LlamaPReviewPipeline/persistence.py:1735-1846 | In every run without such a shared claimant, a pending requeue that would still win drops the admission if there is one: nobody else can have written it in the meantime. |
| RequeueAdmission.SharedClaimantBreaks | lambdas/LlamaPReviewPipeline/persistence.py:1735-2181 | With a shared claimant the promise fails, for every pull request: a run in which the superseded claim writes the admission between read and write of the later one, whose requeue wins and is then turned away by the stream validator. |
| ReviewHistory.RequeuedAtMostOnce | lambdas/LlamaPReviewPipeline/persistence.py:1887-2059 | In one run at most one step replaces the head of an item. |
| ReviewHistory.OnlyRequeueCounts | lambdas/LlamaPReviewPipeline/persistence.py:1887-2059 | The successor count changes from zero to one exactly in the steps that replace the head, and in no other step. |
| ReviewHistory.StreamStartsExactly | lambdas/LlamaPReviewPipeline/lambda_function.py:47-80 | In every run, the stream starts a context phase exactly for inserts and for a requeue whose read saw the admission that is there, and a review phase exactly for the step that stored the context; every other write starts nothing. |
| ReviewHistory.RequeueStartsSuccessor | lambdas/LlamaPReviewPipeline/lambda_function.py:47-80 | Where no claimant is shared, every requeue starts its successor. |
| ProviderPurity.DirectRunsAreNeverMixed | lambdas/LlamaPReviewPipeline/persistence.py:1146-1153 | In every run of the protocol, a run of a pull request in which one call was billed directly has only direct calls, all under the one profile that the item is pinned to. |
| ProviderPurity.StepKeepsPure | lambdas/LlamaPReviewPipeline/persistence.py:1146-1241 | Every step keeps the pin and the sole profile of every item, and a fence read stays good for as long as its claim is current. |
| ReviewTheorems.RunIsSafe | lambdas/LlamaPReviewPipeline/persistence.py:516-2059 | Invariant, grant books, payments and head lineage hold in every state of every run: interleaved claims, takeovers, crashes, fences, settlements, releases and requeues. |
| ReviewTheorems.FencesAreOwned | lambdas/LlamaPReviewPipeline/persistence.py:1036-1241 | Two workers never stand behind the same fence. |
| ReviewTheorems.StepKeepsPaid | lambdas/LlamaPReviewPipeline/deepseek_client.py:1045-1332 | Each step keeps the payments consistent: a paid call is on its item, was paid once, and is behind no unposted fence. |
| ReviewTheorems.StepKeepsLineage | lambdas/LlamaPReviewPipeline/persistence.py:1887-2059 | Each step keeps every record filed under the head it was fenced for. |
| ReviewInvariant.StepKeepsInv | lambdas/LlamaPReviewPipeline/persistence.py:516-2059 | Every single step of any worker keeps the item, worker and ownership invariants that the races are decided by. |
| ReviewInvariant.FenceKeepsOther | lambdas/LlamaPReviewPipeline/persistence.py:1163-1241 | A fence written by the current claim leaves no other worker's earlier read valid for a second fence: the claim in the write condition retires it. |
| ReviewInvariant.ClaimKeepsOther | lambdas/LlamaPReviewPipeline/persistence.py:516-622 | A new claim keeps every other worker consistent: none of the earlier claims of the phase is current any more. |
| ReviewInvariant.SettleKeepsItem | lambdas/LlamaPReviewPipeline/persistence.py:1360-1460 | A worker behind its fence can always settle it, and settling leaves the item free of that unknown outcome. |
| ReviewInvariant.SettlementReadPairs | lambdas/LlamaPReviewPipeline/persistence.py:1314-1358 | A settlement read that goes on has paired the fence with a terminal record of the same identity, whose budget is the fence's own, reserved or settled at a cost no higher than reserved. |
| ReviewInvariant.ListingIsExact | lambdas/LlamaPReviewPipeline/persistence.py:1945-1967 | A listing of call ids without repetition, as long as the set of records, names exactly those records. |
| ReviewInvariant.SuccessorReadPlans | lambdas/LlamaPReviewPipeline/persistence.py:1918-2035 | At the moment of its read, an eligible requeue plans a transition that the stream validator accepts. |
| ReviewInvariant.LifecycleIsQuiet | lambdas/LlamaPReviewPipeline/persistence.py:716-862 | Release, status, intent and admission writes change neither calls nor attempts and only move status forward. |
| GrantLedger.StepKeepsBooks | lambdas/LlamaPReviewPipeline/persistence.py:1005-1033 | Every step of the protocol keeps all grant counters balanced against the records of all items. |
| GrantLedger.RecordUpdate | lambdas/LlamaPReviewPipeline/persistence.py:1005-1033 | Writing one record moves the total of all items by that record alone. |
| GrantLedger.TotalBounds | lambdas/LlamaPReviewPipeline/persistence.py:1005-1033 | Every record's amount is part of the total of its counter, and totals are never negative. |
| GrantLedger.SettlementIsCovered | lambdas/LlamaPReviewPipeline/persistence.py:1005-1033 | In every state that keeps the books, a first settlement passes the item condition and the counter guards. |
| GrantLedger.ChargedCounter | lambdas/LlamaPReviewPipeline/persistence.py:1005-1033 | A fence adds exactly its own reservation to reserved and charged of its counter, creates the counter under its pinned policy, and never passes the allocation. |
| GrantLedger.ReleasedCounter | lambdas/LlamaPReviewPipeline/persistence.py:1005-1033 | A settlement takes the reservation out and puts the actual cost in, so charged stays reserved plus settled and never grows. |
| ReviewTable.Table.ClaimPhaseAttempt | lambdas/LlamaPReviewPipeline/persistence.py:516-622 | A claim is won exactly when status, head and run match and the lease is free, expired or of the same event; it counts a new attempt and leaves everything else alone. |
| ReviewTable.Table.ReleasePhaseClaim | lambdas/LlamaPReviewPipeline/persistence.py:716-754 | Only the owner in the phase's status releases, and only the lease goes. |
| ReviewTable.Table.FindUnresolved | lambdas/LlamaPReviewPipeline/persistence.py:917-929 | The search finds a dispatching call exactly when the item has one. |
| ReviewTable.Table.ReadForFence | lambdas/LlamaPReviewPipeline/persistence.py:1036-1161 | The read half of a fence gives the same verdict as the protocol's read step. |
| ReviewTable.Table.RecordProviderCall | lambdas/LlamaPReviewPipeline/persistence.py:1282-1460 | A settlement replaces exactly the fence and moves the counter, after which the same report is recognised as settled; a repeated or refused report changes nothing. |
| ReviewTable.Table.UpdateStatus | lambdas/LlamaPReviewPipeline/persistence.py:1512-1586 | A status change needs the owner and, when asked, the exact intent without receipt; it drops the lease and keeps calls and intent. |
| ReviewTable.Table.StorePublicationIntent | lambdas/LlamaPReviewPipeline/persistence.py:757-809 | An intent is stored only as prepared, for the head in place, by the owner, before any intent or receipt. |
| ReviewTable.Table.ReplacePublicationIntent | lambdas/LlamaPReviewPipeline/persistence.py:812-862 | An intent is replaced only by the owner and only if it is exactly the expected one. |
| ReviewTable.Table.RecordInitialAdmission | lambdas/LlamaPReviewPipeline/persistence.py:1735-1846 | The admission is written once, for the head and run in place, and a repetition succeeds only if it is that admission. |
| ReviewTable.Table.ListCallIds | lambdas/LlamaPReviewPipeline/persistence.py:1244-1279 | Every retained call id is listed once. |
| ReviewTable.Table.PlanSuccessor | lambdas/LlamaPReviewPipeline/persistence.py:1918-2000 | A successor is planned exactly when the read finds the item eligible. |
| TableProtocol.Insert | lambdas/LlamaPReviewWebhookHandler/lambda_function.py:163-181 | The put-once on the table is the insert step of the protocol, and happens exactly when that step is enabled. |
| TableProtocol.ClaimAttempt | lambdas/LlamaPReviewPipeline/persistence.py:516-622 | A won claim on the table is the claim step of a new worker that holds the returned claim; a lost one is no step at all. |
| TableProtocol.ReadForFence | lambdas/LlamaPReviewPipeline/persistence.py:1036-1161 | The verdict of the table read moves the worker as the protocol step does: on to the fence write exactly on proceed. |
| TableProtocol.WriteFence | lambdas/LlamaPReviewPipeline/persistence.py:1163-1241 | From every state that keeps the invariant and the books, the conditional fence on the table is the protocol step: same item, same counter, same outcome, books kept. |
| TableProtocol.Settle | lambdas/LlamaPReviewPipeline/persistence.py:1282-1460 | A settlement call is the read step and the write step of the protocol, always succeeds where the read pairs the report with its fence, and keeps the books. |
| TableProtocol.Redeliver | lambdas/LlamaPReviewPipeline/persistence.py:1282-1460 | A repeated report leaves the table as it is and is confirmed exactly when its terminal record is stored. |
| TableProtocol.ReleasePhaseClaim | lambdas/LlamaPReviewPipeline/persistence.py:716-754 | The release request is the protocol step, and reports whether the conditional write won. |
| TableProtocol.Advance | lambdas/LlamaPReviewPipeline/persistence.py:1512-1586 | The status request is the protocol step, for the statuses that the pipeline asks for, and reports whether the conditional write won. |
| TableProtocol.StoreIntent | lambdas/LlamaPReviewPipeline/persistence.py:757-809 | Storing an intent is the protocol step, and reports whether the conditional write won. |
| TableProtocol.ReplaceIntent | lambdas/LlamaPReviewPipeline/persistence.py:812-862 | Replacing an intent is the protocol step, and reports whether the conditional write won. |
| TableProtocol.RecordAdmission | lambdas/LlamaPReviewPipeline/persistence.py:1735-1846 | Recording the admission is the protocol step, and succeeds exactly when that admission is in place afterwards: written now, or already there. |
| TableProtocol.ReadSuccessor | lambdas/LlamaPReviewPipeline/persistence.py:1918-2000 | The requeue read is the protocol step: an eligible item yields the plan that the write will carry. |
| TableProtocol.WriteSuccessor | lambdas/LlamaPReviewPipeline/persistence.py:2001-2059 | The requeue write is the protocol step, and changes the table exactly when it is stored. |
| ProviderClient.Client.BeginOperation | lambdas/LlamaPReviewPipeline/deepseek_client.py:566-606 | Every logical operation a client begins is one it never issued before. |
| ProviderClient.Client.Post | lambdas/LlamaPReviewPipeline/deepseek_client.py:931-1332 | For every script of network and store answers the loop makes exactly the call that the script determines: the retried attempts, then the first one that is not retried with its own outcome, or exhaustion; the local ledger gains the rows of exactly the fenced attempts. |
| ProviderClient.ScriptDeterminesCall | lambdas/LlamaPReviewPipeline/deepseek_client.py:1045-1332 | A script leaves no choice: one outcome, one sequence of rounds, one ending. |
| ProviderClient.PlaysIsSequential | lambdas/LlamaPReviewPipeline/deepseek_client.py:1045-1332 | Every such call has at most max_retries dispatches, exhausts exactly when all were retried, returns exactly on a settled success, and reports a lost settlement above everything else. |
| ProviderClient.CallsAreSequential | lambdas/LlamaPReviewPipeline/deepseek_client.py:1045-1332 | Whatever the answers, every stored fence meets its one settlement attempt before the next fence or the exit, and the fenced transport indexes are exactly 1..n. |
| ProviderClient.SendFollowsItsFence | lambdas/LlamaPReviewPipeline/deepseek_client.py:1045-1100 | A request is always immediately preceded by its own stored fence. |
| ProviderClient.PrefixNeverStuck | lambdas/LlamaPReviewPipeline/deepseek_client.py:931-1332 | A process that dies mid-call leaves a history that is in step with the protocol. |
| CallOrder.AcceptedExactly | lambdas/LlamaPReviewPipeline/deepseek_client.py:931-1332 | The automaton of what a client may do next accepts exactly the beginnings of consecutive retry-loop calls on different operations. |
| CallOrder.PlayedCallsAreAccepted | lambdas/LlamaPReviewPipeline/deepseek_client.py:931-1332 | Whatever the answers, the calls that the loop makes on different operations are accepted, so the automaton forbids nothing the client does. |
| ClientProtocol.WorkersMakeCalls | lambdas/LlamaPReviewPipeline/deepseek_client.py:931-1332 | In every run, whatever the other workers do, what one worker fenced, sent and settled so far is the beginning of consecutive retry-loop calls, none begun twice. |
| ClientProtocol.WorkerFollowsClient | lambdas/LlamaPReviewPipeline/deepseek_client.py:931-1332 | Each step of a protocol worker is the client event of the same name, and the worker's memory moves with the automaton. |
| TransportOrder.TransportsAreConsecutive | lambdas/LlamaPReviewPipeline/deepseek_client.py:1045-1332 | In every run, on every item, the stored attempts of an operation have the indexes 1..n with n within the retries, and every one before the last was settled as retryable. |
| DirectBudget.CacheUsageParts | lambdas/LlamaPReviewPipeline/direct_openai_budget.py:203-247 | An accepted usage splits its input into disjoint cached, written and plain tokens, with no cache tokens when the cache is off. |
| DirectBudget.ActualCost | lambdas/LlamaPReviewPipeline/direct_openai_budget.py:250-282 | A settled cost never exceeds the reservation of its fence. |
| DirectBudget.CostRoundsUp | lambdas/LlamaPReviewPipeline/direct_openai_budget.py:265-282 | The integer arithmetic is the listed price in real numbers, rounded up once: never below it and less than one unit above. |
| DirectBudget.ReservationDominates | lambdas/LlamaPReviewPipeline/direct_openai_budget.py:146-187 | For every accepted usage partition within the caps, in every cache mode and on both sides of the 272,000-token step, the cost is at most the reservation, so the last guard of the settlement never rejects. |
| DirectBudget.CostWithinReservation | lambdas/LlamaPReviewPipeline/direct_openai_budget.py:146-172 | The dominance for one partition and any tariff whose price of the output cap is even. |
| DirectBudget.DominatesExactly | lambdas/LlamaPReviewPipeline/direct_openai_budget.py:146-282 | For any tariff with cache discounts, every accepted report is settled if and only if the price of the output cap is even. |
| DirectBudget.OddFullWindowIsRefused | lambdas/LlamaPReviewPipeline/direct_openai_budget.py:146-282 | Where it is odd, the report of a full window passes every guard and is then refused. |
| DirectBudget.ReservationIsAttained | lambdas/LlamaPReviewPipeline/direct_openai_budget.py:146-282 | The reservation is tight: the report of a full window at full output is accepted and settles for exactly what was reserved. |
| DirectBudget.FullWindowCost | lambdas/LlamaPReviewPipeline/direct_openai_budget.py:265-282 | A full context window at the highest input rate costs exactly the bound. |
| Capacity.Service.AdmitOnce | lambdas/LlamaPReviewPipeline/pipeline_capacity.py:253-313 | A new admission id is charged to every active bound or to none, exactly when there is room. |
| Capacity.Service.ClaimNotice | lambdas/LlamaPReviewPipeline/pipeline_capacity.py:216-250 | The notice of a repository belongs to the first admission id that claims it. |
| Capacity.Service.Consume | lambdas/LlamaPReviewPipeline/pipeline_capacity.py:316-397 | Undisturbed, a call admits exactly the ids already charged or with room, and a block names the bound that is full. |
| CapacityTheorems.ChargesAreConserved | lambdas/LlamaPReviewPipeline/pipeline_capacity.py:253-313 | In every interleaving the global count is the number of admission ids and the sum of the repository counts, each repository count is the number of its ids, and both bounds hold. |
| CapacityTheorems.VerdictIsStable | lambdas/LlamaPReviewPipeline/pipeline_capacity.py:316-397 | Every call for one admission id in a window gets the same verdict, and is allowed exactly when the id is charged. |
| CapacityTheorems.ReasonIsTruthful | lambdas/LlamaPReviewPipeline/pipeline_capacity.py:370-397 | A reported block reason is true, although the sentinel is read again after the failed write. |
| CapacityTheorems.OneNoticePerRepository | lambdas/LlamaPReviewPipeline/pipeline_capacity.py:216-250 | At most one admission id of a repository is ever told to notify, and it is never an admitted one. |
| CapacityRuns.StepKeepsInv | lambdas/LlamaPReviewPipeline/pipeline_capacity.py:253-397 | Every request of every interleaved call keeps the counts and every other call's verdict. |
| CapacityRuns.RunIsSafe | lambdas/LlamaPReviewPipeline/pipeline_capacity.py:253-397 | The capacity invariant holds in every state of every run. |
| CapacityRuns.RunOnlyFills | lambdas/LlamaPReviewPipeline/pipeline_capacity.py:253-397 | Over a run the sentinel only fills up, a notice owner never changes and a returned decision stays. |
| UsageTree.FilterIsClean | lambdas/LlamaPReviewPipeline/provider_usage.py:21-48 | The filter leaves only non-negative numeric leaves under well-formed keys, and no empty branches below the root. |
| UsageTree.CleanIsKept | lambdas/LlamaPReviewPipeline/provider_accounting.py:61-87 | Filtering again, with the pipeline's or the checker's key pattern, changes nothing. |
| UsageTree.MergeNumericTree | lambdas/LlamaPReviewPipeline/provider_accounting.py:90-114 | Merging one tree into a running total, key by key, gives the sum shape by shape and reports exactly the paths whose shapes disagree. |
| UsageTree.NoConflictMeansCompatible | lambdas/LlamaPReviewPipeline/provider_usage.py:51-78 | No conflict is reported exactly when the two trees have the same shape wherever they overlap. |
| UsageTree.JoinAddsLeaves | lambdas/LlamaPReviewPipeline/provider_usage.py:51-78 | Without conflicts every leaf of the merge is the sum of the two leaves. |
| UsageTree.CompatibleWithTotal | lambdas/LlamaPReviewPipeline/provider_usage.py:81-96 | A record fits the running total exactly when it fits every record in it. |
| UsageTree.ConflictFreeIsFamily | lambdas/LlamaPReviewPipeline/provider_usage.py:81-96 | A sequence merges without conflict exactly when its records are pairwise compatible, whatever their order. |
| UsageTree.TotalAddsLeaves | lambdas/LlamaPReviewPipeline/provider_usage.py:81-96 | Without conflicts every leaf of the total is the sum of that leaf over all records. |
| UsageTree.MergedUsage | lambdas/LlamaPReviewPipeline/provider_accounting.py:117-130 | The loop over the rows computes that total and those conflicts, skipping rows without a usage mapping. |
| UsageTree.ValidateTokenUsage | lambdas/LlamaPReviewPipeline/provider_usage.py:110-129 | A usage report is complete exactly when all three token classes are there and the total is their sum. |
| Ordering.SortSorts | lambdas/LlamaPReviewPipeline/pipeline_accounting.py:217-239 | Sorting by a tuple key permutes the rows and orders them. |
| Ordering.SortIgnoresOrder | lambdas/LlamaPReviewPipeline/structured_repair.py:304-307 | When the key tells elements apart, the sorted order does not depend on the input order. |
| Ordering.KeyTransitive | lambdas/LlamaPReviewPipeline/structured_repair.py:152-160 | Comparing tuples of integers and strings is a transitive order. |
| Accounting.DedupeModelPhases | lambdas/LlamaPReviewPipeline/pipeline_accounting.py:147-207 | The index map and the in-place replacement compute the specified deduplication. |
| Accounting.UniqueKeepsStanding | lambdas/LlamaPReviewPipeline/pipeline_accounting.py:147-207 | The retained rows are exactly those that stand for their identity: its first terminal row, or its first row while all are dispatching. |
| Accounting.UniqueIsDistinct | lambdas/LlamaPReviewPipeline/pipeline_accounting.py:147-207 | No identity is retained twice. |
| Accounting.IdentitiesAreKept | lambdas/LlamaPReviewPipeline/pipeline_accounting.py:147-207 | Every identity of the input is retained, and no other. |
| Accounting.CanonicalIsStable | lambdas/LlamaPReviewPipeline/deepseek_client.py:56-60 | Canonical phase names are canonical. |
| Accounting.BestFit | lambdas/LlamaPReviewPipeline/pipeline_accounting.py:410-463 | A fallback phase takes the fitting unmatched row least by call index, then by position, if there is one. |
| Accounting.RowsAbsorbOnce | lambdas/LlamaPReviewPipeline/pipeline_accounting.py:372-463 | Every row that absorbs a fallback phase fits it, and no row absorbs two. |
| Accounting.LeftOverExactly | lambdas/LlamaPReviewPipeline/pipeline_accounting.py:372-463 | A fallback phase is left over if and only if the phases before it took every durable row that fits it. |
| Accounting.MatchingIsDetermined | lambdas/LlamaPReviewPipeline/pipeline_accounting.py:410-463 | Taking, phase by phase, the first fitting row that is left admits one assignment of phases to rows. |
| Accounting.RepeatsAreAbsorbed | lambdas/LlamaPReviewPipeline/pipeline_accounting.py:409-426 | Fallback phases that repeat durable calls by id add nothing, so their usage is counted once. |
| Accounting.Supplement | lambdas/LlamaPReviewPipeline/pipeline_accounting.py:372-463 | The loop over the fallback phases adds exactly the phases that this assignment leaves over. |
| Accounting.Split | lambdas/LlamaPReviewPipeline/pipeline_accounting.py:467-480 | The winning rows are those of the winning attempts, in ledger order, and the rest are discarded. |
| Accounting.NormalizeRows | lambdas/LlamaPReviewPipeline/pipeline_accounting.py:486-501 | Every row's usage fields are rewritten in place to their normalized form. |
| Accounting.ReportUsage | lambdas/LlamaPReviewPipeline/pipeline_accounting.py:502-556 | Totals, conflicts and counts are those of the three partitions. |
| Accounting.ProviderUsageAccounting | lambdas/LlamaPReviewPipeline/pipeline_accounting.py:348-556 | The whole projection: deduplicated durable calls plus exactly the left-over fallback phases, ordered, split and summed; the fallback alone when nothing durable exists. |
| Reconciliation.ReconcileProviderAccounting | lambdas/LlamaPReviewPipeline/provider_accounting.py:244-375 | No error is left exactly when the artifact reconciles: exact partition, settled rows, gapless attempts, recomputed totals and counts. |
| Reconciliation.CheckPartition | lambdas/LlamaPReviewPipeline/provider_accounting.py:269-296 | Comparing id sets and rows by id finds no fault exactly when winning and discarded rows are the rows of the whole ledger, each once. |
| Reconciliation.ChecksMeanPartition | lambdas/LlamaPReviewPipeline/provider_accounting.py:269-296 | The id and row comparisons are equivalent to equality of the ledgers as multisets of rows. |
| Reconciliation.KeyedIsCounted | lambdas/LlamaPReviewPipeline/provider_accounting.py:270-278 | The length check on ids holds exactly when no row repeats and no two rows share an id. |
| Reconciliation.CheckRows | lambdas/LlamaPReviewPipeline/provider_accounting.py:298-317 | No row error is reported exactly when every row is a settled, self-consistent dispatch. |
| Reconciliation.DispatchErrors | lambdas/LlamaPReviewPipeline/provider_accounting.py:151-214 | A row passes exactly when its ids are the digests of its own coordinates and it was dispatched and attempted once. |
| Reconciliation.CheckSequences | lambdas/LlamaPReviewPipeline/provider_accounting.py:319-336 | The loop finds no fault exactly when the transport indexes of every operation sort to 1..n. |
| Reconciliation.SequencesMeanNoGaps | lambdas/LlamaPReviewPipeline/provider_accounting.py:319-336 | For dispatched rows with different ids, sorting to 1..n means that no attempt exists without the one before it. |
| Reconciliation.DownClosedIsRange | lambdas/LlamaPReviewPipeline/provider_accounting.py:332-336 | Distinct positive numbers with no gap below any of them are exactly 1..n. |
| Reconciliation.CheckTotal | lambdas/LlamaPReviewPipeline/provider_accounting.py:338-345 | A declared total passes exactly when it is the conflict-free sum of its rows. |
| Reconciliation.CheckTally | lambdas/LlamaPReviewPipeline/provider_accounting.py:347-375 | The declared counts pass exactly when they are those of the partitions. |
| LedgerTheorems.ValidTotalsAdd | lambdas/LlamaPReviewPipeline/provider_accounting.py:338-345 | A valid verdict means that at every leaf total usage is winning plus discarded usage, and the sum over all rows. |
| LedgerTheorems.ProjectionPartitions | lambdas/LlamaPReviewPipeline/pipeline_accounting.py:464-556 | For every input, fallback included, the projection splits its rows exactly by the winning attempts, and without reported conflicts its totals add up at every leaf. |
| LedgerTheorems.UnplacedFallbackWins | lambdas/LlamaPReviewPipeline/pipeline_accounting.py:373-404 | A fallback phase that names no attempt counts as winning, unless it belongs to a review that never ran. |
| LedgerTheorems.ProjectionReconciles | lambdas/LlamaPReviewPipeline/provider_accounting.py:244-375 | A ledger of distinct rows projects to an artifact that reconciles if and only if it is nonempty, complete, gapless and of one usage shape. |
| LedgerTheorems.LedgerReconciles | lambdas/LlamaPReviewPipeline/pipeline_accounting.py:348-556 | The pipeline's own accounting of durable calls alone passes the independent check if and only if the deduplicated calls are complete, gapless and of one shape. |
| LedgerTheorems.DedupeIsStable | lambdas/LlamaPReviewPipeline/pipeline_accounting.py:147-207 | Deduplicating a deduplicated ledger changes nothing. |
| LedgerTheorems.RowSumIgnoresOrder | lambdas/LlamaPReviewPipeline/provider_accounting.py:117-130 | The sum of a leaf over rows depends on the rows only, not on their order. |
| RepairSelection.CanonicalEnds | lambdas/LlamaPReviewPipeline/structured_repair.py:148-149 | Canonical locations never grow and keep both end characters. |
| RepairSelection.MadeIsBuilt | lambdas/LlamaPReviewPipeline/structured_repair.py:79-110 | What the issue constructor makes, it would make again unchanged. |
| RepairSelection.CanonicalIsBuilt | lambdas/LlamaPReviewPipeline/structured_repair.py:279-291 | Rebuilding an issue at its canonical location neither cuts nor refuses anything. |
| RepairSelection.FilterIssues | lambdas/LlamaPReviewPipeline/structured_repair.py:254-269 | Exactly the issues that a missing required field at their place makes redundant are dropped. |
| RepairSelection.MergeBySlot | lambdas/LlamaPReviewPipeline/structured_repair.py:271-302 | One least issue and all original locations are kept for each code, action and canonical location. |
| RepairSelection.RankValues | lambdas/LlamaPReviewPipeline/structured_repair.py:304-307 | The candidates are the least issues, one a slot, ranked. |
| RepairSelection.ChooseIssues | lambdas/LlamaPReviewPipeline/structured_repair.py:311-327 | The two loops choose the first issue of every pair, then the remaining ranked ones, up to the limit. |
| RepairSelection.SelectRepairIssues | lambdas/LlamaPReviewPipeline/structured_repair.py:229-358 | The whole selection is the one its ranked candidates determine; it is refused only for a limit outside 1..20. |
| RepairSelection.SelectionSize | lambdas/LlamaPReviewPipeline/structured_repair.py:308-327 | The selection has min(limit, eligible) issues and never an ineligible one. |
| RepairSelection.BreadthBeforeDepth | lambdas/LlamaPReviewPipeline/structured_repair.py:311-327 | If any (code, action) pair is selected twice, every eligible pair is selected. |
| RepairSelection.NothingIsForgotten | lambdas/LlamaPReviewPipeline/structured_repair.py:254-307 | Every relevant issue has a candidate in its slot that ranks no later. |
| RepairSelection.SelectionIgnoresOrder | lambdas/LlamaPReviewPipeline/structured_repair.py:229-358 | Reporting the same issues in another order gives the same selection, counts, codes and locations. |
| RepairSelection.CountsAddUp | lambdas/LlamaPReviewPipeline/structured_repair.py:329-340 | Raw is candidates plus merged, candidates are selected plus omitted, and ineligible never exceeds omitted. |
| RepairSelection.SelectionAlwaysReports | lambdas/LlamaPReviewPipeline/structured_repair.py:676-732 | A selection never makes its own telemetry fail: only the caller's flags and issue list can. |
| Evidence.SupportsOneHead | lambdas/LlamaPReviewPipeline/context_engine/evidence.py:69-109 | Once a head is declared, an event can answer for that head and for no other. |
| Evidence.RecordKeepsEventsExactly | lambdas/LlamaPReviewPipeline/context_engine/evidence.py:256-321 | Recording rewrites no earlier event if and only if its id is unused or holds this very event. |
| Evidence.RecordKeepsOkExactly | lambdas/LlamaPReviewPipeline/context_engine/evidence.py:256-321 | A record keeps every answer backed if and only if no answer cites the event it writes, or the new event can bear it. |
| Evidence.RecordIsNew | lambdas/LlamaPReviewPipeline/context_engine/evidence.py:256-321 | In a ledger whose events are all listed, an event on a registered question gets an unused id. |
| Evidence.AnsweredExactly | lambdas/LlamaPReviewPipeline/context_engine/evidence.py:334-396 | A resolution is answered exactly when every cited ref is eligible or the question has one sole candidate, and then it is backed by those events. |
| EvidenceSnapshots.MergeRebuilds | lambdas/LlamaPReviewPipeline/context_engine/evidence.py:132-150 | Merging the values of a dictionary into an empty one takes them all and gives it back exactly when its keys are its identities. |
| EvidenceSnapshots.IngestKeepsOkExactly | lambdas/LlamaPReviewPipeline/context_engine/evidence.py:119-166 | Ingesting any snapshot, up to its first conflict, rewrites no event, and keeps every answer backed if and only if what was merged fits entry by entry. |
| EvidenceSnapshots.SnapshotRebuilds | lambdas/LlamaPReviewPipeline/context_engine/evidence.py:119-166 | Ingesting a ledger's own snapshot into an empty ledger rebuilds it, if and only if no caller resolved a blank or unnormalized question name. |
| EvidenceSnapshots.OwnSnapshotExactly | lambdas/LlamaPReviewPipeline/context_engine/evidence.py:119-166 | A properly named own snapshot is always accepted by an empty ledger of any head, and leaves it valid if and only if the evidence of its answers bears at that head; at its own head it always does. |
| EvidenceSnapshots.OtherHeadBreaks | lambdas/LlamaPReviewPipeline/context_engine/evidence.py:119-166 | Under another declared head, an own snapshot that holds an answer leaves the ledger invalid. |
| EvidenceSnapshots.BareAnswerBreaks | lambdas/LlamaPReviewPipeline/context_engine/evidence.py:119-166 | A snapshot that brings an answer citing nothing leaves every ledger without that resolution invalid. |
| EvidenceRuns.RunIsOk | lambdas/LlamaPReviewPipeline/context_engine/evidence.py:112-415 | The ledger invariant holds in every state of every run, ingested snapshots included, and events are never rewritten, as long as each record is harmless and each ingested snapshot fits. |
| EvidenceRuns.AnswersStayBacked | lambdas/LlamaPReviewPipeline/context_engine/evidence.py:119-396 | Over every run an answered resolution has nonempty references, each an answer-eligible event of the same question, and no later operation takes that away. |
| EvidenceRuns.CustomaryUseIsRun | lambdas/LlamaPReviewPipeline/context_engine/low_route.py:35-36 | Used as the pipeline does - an empty ledger seeded with a snapshot of its head, events recorded on registered questions - every sequence of operations is such a run. |
| EvidenceRuns.CollisionsComeFrom | lambdas/LlamaPReviewPipeline/context_engine/evidence.py:256-321 | In every sequence of operations, a record that would rewrite an event repeats the tool and arguments of one made on the same id before it was registered, unless a snapshot was ingested earlier. |
| EvidenceRuns.SecondEarlyRecordRewrites | lambdas/LlamaPReviewPipeline/context_engine/evidence.py:256-321 | A second record on an unregistered id with the same tool and arguments rewrites the first, unless both are the same event. |
| EvidenceRuns.UnregisteredEventsAreRewritten | lambdas/LlamaPReviewPipeline/context_engine/evidence.py:256-396 | In any ledger and at any head, two such records, the first able to answer and the second not, withdraw the evidence of an answer. |
| EvidenceRuns.HitThenError | lambdas/LlamaPReviewPipeline/context_engine/evidence.py:69-109 | Such observations exist at every head that a source reference can name. |
| EvidenceStore.EvidenceLedger.RegisterQuestion | lambdas/LlamaPReviewPipeline/context_engine/evidence.py:168-194 | Registers a question once, or updates its lifecycle, and keeps the ledger valid. |
| EvidenceStore.EvidenceLedger.RegisterUnresolvedGap | lambdas/LlamaPReviewPipeline/context_engine/evidence.py:196-226 | Registers a gap once under its slot; an empty slot is refused and changes nothing. |
| EvidenceStore.EvidenceLedger.RecordEvent | lambdas/LlamaPReviewPipeline/context_engine/evidence.py:256-321 | Stores one event and files it under its question; the ledger stays valid exactly when no answer cites an event it replaces with one that cannot bear it. |
| EvidenceStore.EvidenceLedger.SupportingEventIds | lambdas/LlamaPReviewPipeline/context_engine/evidence.py:323-332 | Lists the question's own events that can answer. |
| EvidenceStore.EvidenceLedger.ResolveQuestion | lambdas/LlamaPReviewPipeline/context_engine/evidence.py:334-396 | Stores the resolution that the evidence allows, and keeps the ledger valid. |
| EvidenceStore.EvidenceLedger.EnsureTerminalResolutions | lambdas/LlamaPReviewPipeline/context_engine/evidence.py:398-407 | Every registered question ends with a resolution, and existing ones are untouched. |
| EvidenceStore.EvidenceLedger.ToMeta | lambdas/LlamaPReviewPipeline/context_engine/evidence.py:409-415 | The snapshot lists every question, event and resolution of the finished ledger. |
| EvidenceStore.EvidenceLedger.IngestMeta | lambdas/LlamaPReviewPipeline/context_engine/evidence.py:119-166 | Merges a snapshot up to its first conflict, and leaves the ledger valid exactly when what was merged fits. |
| Packing.TruncateSection | lambdas/LlamaPReviewPipeline/context_engine/packing.py:24-31 | The text if it fits, otherwise a prefix of it, marked when there is room, never longer than the limit. |
| Packing.Reserve | lambdas/LlamaPReviewPipeline/context_engine/packing.py:88-103 | The reservation loops give every required section its request, or an equal share with the remainder to the first. |
| Packing.Grow | lambdas/LlamaPReviewPipeline/context_engine/packing.py:105-114 | What is left of the budget goes out in serving order, giving an allocation as specified. |
| Packing.ReservationsFit | lambdas/LlamaPReviewPipeline/context_engine/packing.py:90-103 | The reservations never overspend the content budget. |
| Packing.ReservationsAreGranted | lambdas/LlamaPReviewPipeline/context_engine/packing.py:90-97 | When all reservations fit, every required section keeps at least its own. |
| Packing.ServingOrderServes | lambdas/LlamaPReviewPipeline/context_engine/packing.py:106-106 | The serving order visits every section once, by priority and then by position. |
| Packing.AllocationIsDetermined | lambdas/LlamaPReviewPipeline/context_engine/packing.py:85-114 | Spending the whole budget unless all is complete, and growing a section only after all that come before it are complete, leaves no choice: it determines every allowance. |
| Packing.PackSections | lambdas/LlamaPReviewPipeline/context_engine/packing.py:75-121 | The packed text is the allocated sections in the caller's order and fits the limit, so the final cut removes nothing. |
| Packing.LastBlock | lambdas/LlamaPReviewPipeline/context_engine/packing.py:45-54 | The block found is a complete one and no complete block follows it. |
| Packing.TruncatePreservingCi | lambdas/LlamaPReviewPipeline/context_engine/packing.py:34-72 | The result fits the limit, and the last complete block survives whole at the end whenever it fits. |
| PrMarkdown.Excerpt | lambdas/LlamaPReviewPipeline/pr_ingest.py:936-949 | The excerpt is a prefix within the limit, and is complete exactly when the text fits. |
| PrMarkdown.ExcerptEndsAtLine | lambdas/LlamaPReviewPipeline/pr_ingest.py:936-949 | An incomplete excerpt stops at a line end: only whitespace separates it from one. |
| PrMarkdown.ExcerptGrows | lambdas/LlamaPReviewPipeline/pr_ingest.py:936-949 | A larger allowance extends the excerpt. |
| PrMarkdown.RenderedLength | lambdas/LlamaPReviewPipeline/pr_ingest.py:1008-1050 | The rendering is exactly its lines, without the blank line after the last file. |
| PrMarkdown.RenderGrows | lambdas/LlamaPReviewPipeline/pr_ingest.py:1008-1050 | A larger allowance never renders shorter, through coverage labels, fences and excerpts. |
| PrMarkdown.LargestFitting | lambdas/LlamaPReviewPipeline/pr_ingest.py:1058-1073 | The binary search returns the rendering for the largest allowance that fits. |
| PrMarkdown.BoundedPrMarkdown | lambdas/LlamaPReviewPipeline/pr_ingest.py:952-1095 | A compacted projection never exceeds its limit; it keeps the longest run of files whose shells fit, with the largest fitting allowance, or the cropped carrier; up to the threshold the full text is returned as it is. |
| PrMarkdown.LimitObeyedExactly | lambdas/LlamaPReviewPipeline/pr_ingest.py:966-985 | The character limit is obeyed if and only if the text is above the compaction threshold or was within the limit to begin with. |
| PrMarkdown.DefaultsLeaveGap | lambdas/LlamaPReviewPipeline/config.py:154-155 | With the shipped defaults, every text of more than 250,000 and at most 600,000 characters is passed on whole, above its limit. |
| JsonRepair.PreviousNonspace | lambdas/LlamaPReviewPipeline/json_representation.py:43-47 | Finds the nearest non-space character before a position. |
| JsonRepair.NextNonspace | lambdas/LlamaPReviewPipeline/json_representation.py:50-54 | Finds the nearest non-space character at or after a position. |
| JsonRepair.IsEscaped | lambdas/LlamaPReviewPipeline/json_representation.py:57-63 | Decides whether an odd number of backslashes precedes a position. |
| JsonRepair.MismatchedCloserReplacement | lambdas/LlamaPReviewPipeline/json_representation.py:66-95 | The one-pass stack scan gives the required closer exactly when the prefix scans and the character there is the wrong closer. |
| JsonRepair.ScanDecidesNesting | lambdas/LlamaPReviewPipeline/json_representation.py:66-95 | The stack scan succeeds exactly on prefixes of nested bracket trees, with exactly the open brackets on the stack. |
| JsonRepair.ReplacedCloserNests | lambdas/LlamaPReviewPipeline/json_representation.py:66-95 | With the replaced closer the brackets up to and including it are well nested; with the original one they are not. |
| JsonRepair.InnerQuoteIndex | lambdas/LlamaPReviewPipeline/json_representation.py:98-117 | Finds the unescaped quote with only whitespace between it and the letter at which a comma was expected, exactly when there is one. |
| JsonRepair.EmptyQuotePair | lambdas/LlamaPReviewPipeline/json_representation.py:120-151 | A pair is found exactly when both bare quotes end at the parser point and the first lies inside a string. |
| JsonRepair.TrailingCommaIndex | lambdas/LlamaPReviewPipeline/json_representation.py:162-176 | Finds the comma at or last before the parser point with only whitespace between it and a closer, exactly when there is one. |
| JsonRepair.MissingCommaIndex | lambdas/LlamaPReviewPipeline/json_representation.py:296-329 | Finds the start of a value that follows the end of another with only whitespace around the parser point, exactly when there is one. |
| JsonRepair.RepairOnce | lambdas/LlamaPReviewPipeline/json_representation.py:221-329 | The edit made for a parser error is the first one that applies of the seven, at the site described for it, and none is made exactly when none applies; every edit keeps the text equal after erasing backslashes, commas and closers. |
| JsonRepair.EditsEnd | lambdas/LlamaPReviewPipeline/json_representation.py:204-329 | Edits go on only while the parser fails, so one number of edits decides: past a text that is not edited there is no other. |
| JsonRepair.RewriteKeeps | lambdas/LlamaPReviewPipeline/json_representation.py:221-329 | Rewriting a piece to one with the same erased text keeps the erased text of the whole. |
| JsonRepair.StripMarkdownFence | lambdas/LlamaPReviewPipeline/json_representation.py:28-40 | The two trimming loops and the fence test compute the unfenced text. |
| JsonRepair.Normalize | lambdas/LlamaPReviewPipeline/json_representation.py:179-344 | For every parser, an object is recovered if and only if the edits that its errors call for lead, within the limit, to a text that stands for one; the recovered text equals the unfenced input up to backslashes, commas and closers unless control characters were re-encoded, and the parser accepts it as the recovered object. |
| HttpStatus.HttpStatus | lambdas/LlamaPReviewPipeline/errors.py:259-285 | The growing queue and the seen set report the status of a nearest object within depth eight, or none. |
| HttpStatus.ReportsIfAnyCarriesOne | lambdas/LlamaPReviewPipeline/errors.py:259-285 | A status is reported if and only if some object within depth eight carries one. |
| HttpStatus.NearerIsLooked | lambdas/LlamaPReviewPipeline/errors.py:259-285 | When an object is looked at, everything nearer has been looked at already, in cycles and shared structures too. |

## Left out

- DynamoDB, S3, gzip, base64 and wire encodings, item-size estimates and time-to-live: a conditional write is one atomic step with the meaning of its condition and update.
- HTTP, signals, tracing, redaction, logging and metrics: a request is one step with an arbitrary outcome; a signal that arrives between a stored settlement and the return from it is not represented.
- Legacy paths: settlement without a prior fence, `increment_phase_attempt`, `increment_attempt`, calls without a phase claim, clients without sinks.
- ReviewHistory.RequeueIsAccepted: for runs in which no two claims of one phase of one item share owner and event; `ReviewHistory.RequeueIsAcceptedExactly` is the exact condition for all runs, and `RequeueAdmission.SharedClaimantBreaks` a run that fails.
- ReviewHistory.RequeueStartsSuccessor: for the same runs; `ReviewHistory.StreamStartsExactly` holds for all.
- Empty owner ids, which the conditional writes refuse, do not claim.
- ReviewHistory.RedeliveryIsANoOp: a report delivered while its fence is still open is the settlement itself, by the worker behind the fence; nobody else reports on that call.
- The expected status of a write is always the status of the claim's phase, as all callers pass it.
- Stale fields that a requeue removes are the two leases, the admission and the aggregated rows; other stale attributes hold no state that a later step reads here.
- Rows that exist only in an old aggregate are kept as ids, and the ids in a predecessor receipt are a listing without repetition rather than a sorted one.
- ReviewHistory.FencesWithinRetryBudget: the gate is modelled as one step after the claim; what publication does with a surviving intent beyond the budget is not modelled, and it fences nothing.
- DirectBudget.ReservationDominates: the field formats that `load_policy` checks are not modelled; policies arrive well formed.
- DirectBudget.CacheUsageParts: the cache-proof checks that a fence makes against its own request context are not modelled.
- Accounting.BestFit: iteration over a set of positions is modelled in ascending order.
- Accounting.ProviderUsageAccounting: the three partitions share their rows in the program; here each list is normalized, which gives the same rows.
- Reconciliation.ReconcileProviderAccounting: the historical mode without schema 2, rows that are not mappings and the count tables of the report are not modelled; non-integral usage numbers are not modelled.
- RepairSelection.SelectRepairIssues: identifiers are taken as already matching their pattern, and digits and whitespace are those of ASCII.
- EvidenceStore.EvidenceLedger.RecordEvent: paths, error kinds and coverage labels of an event are not kept; ids are not cut to twelve digits.
- EvidenceStore.EvidenceLedger.IngestMeta: entries that are not mappings are ignored by the program before this point.
- PrMarkdown.BoundedPrMarkdown: fixed wording that no length comparison depends on is a parameter.
- JsonRepair.Normalize: the meaning of the recovered object is the parser's; whitespace is that of ASCII.
- HttpStatus.HttpStatus: how one object carries a status, and which fields are its children, is given by the graph.
- Prompt text, regular-expression code extraction, search relocation, CI rendering, publication to GitHub, webhook signatures, GitHub authentication, configuration, release scripts and `model_pricing.py`: presentation, foreign services or a repetition of shapes proved here.
