# A verified model of the voice-agent platform's protocols

The platform lets tenants run AI voice agents: a Next.js application with a
Postgres database places and bills calls, and a Python voice gateway holds the
conversations. Under its I/O lie small protocols whose promises are decided by
code. This project models them in Dafny 4.11 and proves those promises.

`dafny verify dfyconfig.toml` checks everything.

| file | what it models |
|---|---|
| `Chunking.dfy` | the overlapping, word-respecting text chunker of the knowledge base |
| `Wallet.dfy`, `WalletRace.dfy`, `WalletCalls.dfy` | the wallet ledger transaction alone, and any number of them interleaved under the row lock |
| `ConnectionPool.dfy`, `SharedPool.dfy`, `PoolDeadlock.dfy` | the transaction wrapper; the wallet calls of several organisations and other tasks on one pool, and exactly when they stop each other |
| `JobQueue.dfy`, `JobQueueRace.dfy` | the Postgres job queue in one process, and many workers interleaved statement by statement |
| `Webhooks.dfy`, `WebhookRace.dfy` | outbound webhook delivery with backoff, and concurrent sweeps |
| `Campaign.dfy`, `CampaignRun.dfy`, `CampaignCaps.dfy` | compliance and wallet gates, the gated call, the dialer; a campaign running with overlapping ticks, dials, dispositions and edits; exactly when its caps hold |
| `RateLimit.dfy`, `RateLimitRace.dfy` | the sliding-window limiter and its shared pruning, serial and with checks that overlap |
| `PoolCreation.dfy` | double-checked pool creation |
| `Failover.dfy` | ranked provider failover, TypeScript and Python |
| `Turn.dfy` | one conversational turn with tool recursion, latency marks and barge-in, and whole conversations |
| `Scoreboard.dfy` | the provider scoreboard |
| `TextRuns.dfy` | the maximal runs of a text by position, against which both ways of splitting into words are proved |
| `Slug.dfy`, `KeyedTables.dfy`, `Crm.dfy` | keys, the tables they are unique in, agent commits and pipeline moves |
| `Versions.dfy` | prompt versions, with commits that overlap |
| `LeadHistory.dfy`, `LeadRace.dfy` | lead histories as written and as read back, and moves that overlap |
| `Common.dfy` | options, counting and sums |

Code that changes rows or fields is a class whose methods issue the same
statements in the same order; each is proved equal to a specification function.
Theorems about that function tell what it does from the inputs alone, without
its helpers, and carry it to runs. Concurrency is a state machine over
statements (or transactions), and a theorem about it covers every finite
execution. Foreign behaviour (what a handler, provider, model, speech engine,
webhook target or clock does) is an arbitrary input.

## Where code and documentation differ

The model follows the code in each case.

- `crm/pipeline.ts:45-49` calls re-running a template a no-op. The unique
  constraint ignores rows with a null `agent_id`, so an org-wide template is
  inserted again each time (`KeyedTables.RerunExactly`).
- `campaigns/dialer.ts:149-155` promises `completed` for a terminal disposition.
  On the last attempt the code writes `exhausted`
  (`CampaignRun.DispositionDecides`).
- `campaigns/dialer.ts:123-131` relies on the alert inserted by the wallet gate.
  The gate's own throw rolls it back (`CampaignRun.CallAllOrNothing`).
- `security/rateLimit.ts:4-28` describes a fixed window. The code counts a
  sliding one, prunes with the caller's window, and lets checks overlap
  (`RateLimitRace.LimitHoldsExactly`).
- `knowledge/chunking.py:32` says a word is never cut. One of exactly `max_chars`
  characters is, unless it is the first of the text (`Chunking.WholeWordExactly`).
- `providers/registry.ts:101-114` tells of the pool deadlock of nested
  connections as fixed. A rejected wallet debit that is audited still nests, and
  one is enough when the others wait for its row lock; so does each tick of the
  dialer, at every lead it enqueues (`PoolDeadlock.DeadlockExactly`).
- `campaigns/dialer.ts:64` and `compliance/gate.ts:108` cap attempts and calls per
  hour. Both can be exceeded as soon as two calls overlap
  (`CampaignCaps.AttemptCapExactly`, `CampaignCaps.HourlyCapExactly`).
- A wallet replay that would overdraw throws instead of returning, and the empty
  idempotency key skips the lookup but not the unique index
  (`Wallet.ReplayMovesNothing`).
- Nothing orders two commits to one agent; the exact condition is
  `Versions.VersionsRightExactly`.
- `crm/pipeline.ts:152-159` promises a history of every move. Nothing orders two
  moves of one lead, and a history is read back by the times the transactions
  began, not by the order of writing; the exact condition is
  `LeadRace.ChainsExactly`.

## Model

| member | source | states |
|---|---|---|
| `Chunking.ChunkText` | services/voice-gateway/voice_gateway/knowledge/chunking.py:10-48 | the two argument errors exactly; otherwise the chunks are the stripped, non-empty texts of the specified intervals of the normalised text, which `ChunksAreParts` and `RunsSurvive` tell from the raw text |
| `Chunking.BreakAt` | services/voice-gateway/voice_gateway/knowledge/chunking.py:29-35 | a chunk makes progress, stays inside the text and has at most `max_chars` characters |
| `Chunking.BreakIsLatest` | services/voice-gateway/voice_gateway/knowledge/chunking.py:30-35 | a chunk is never broken earlier than the last blank at which it could be broken |
| `Chunking.BreakExactly` | services/voice-gateway/voice_gateway/knowledge/chunking.py:29-35 | a chunk ends before the end of the text if and only if the rest does not fit; then at a blank, or at the size limit when it holds no blank after its first character |
| `Chunking.NextStart` | services/voice-gateway/voice_gateway/knowledge/chunking.py:42-47 | the next chunk starts strictly later, repeats at most `overlap_chars` characters and starts after a blank or at the old end |
| `Chunking.OverlapIsLargest` | services/voice-gateway/voice_gateway/knowledge/chunking.py:42-47 | the repeated context is the longest that starts at a word boundary within the allowed overlap |
| `Chunking.SpansTile` | services/voice-gateway/voice_gateway/knowledge/chunking.py:28-47 | the intervals run from the start to the end of the text without gap, each of 1 to `max_chars` characters, overlapping by at most `overlap_chars` |
| `Chunking.TilesCover` | services/voice-gateway/voice_gateway/knowledge/chunking.py:28-48 | every character lies in some interval |
| `Chunking.WholeWordByStarts` | services/voice-gateway/voice_gateway/knowledge/chunking.py:28-47 | in terms of where chunks begin: every shorter word is whole, one of `max_chars` exactly where a chunk begins with it, no longer one |
| `Chunking.NeverBegunLater` | services/voice-gateway/voice_gateway/knowledge/chunking.py:42-47 | for sizes of at least 2 no chunk after the first begins with a word of `max_chars` characters |
| `Chunking.WholeWordExactly` | services/voice-gateway/voice_gateway/knowledge/chunking.py:11-14 | a word lies whole in some chunk if and only if it is shorter than `max_chars`, or exactly that long and the first word of the text (or a single letter) |
| `Chunking.ShortWordsNeverCut` | services/voice-gateway/voice_gateway/knowledge/chunking.py:30-47 | no chunk boundary falls inside a word shorter than `max_chars` |
| `Chunking.ExactLengthWordCut` | services/voice-gateway/voice_gateway/knowledge/chunking.py:30-35 | "ab cdefg" with size 5 and no overlap cuts the five-letter word, so the bound above is tight |
| `Chunking.NormalizeKeepsWords` | services/voice-gateway/voice_gateway/knowledge/chunking.py:21 | normalising keeps the sequence of words and is idempotent |
| `Chunking.JoinIsClean` | services/voice-gateway/voice_gateway/knowledge/chunking.py:21 | normalised text has single blanks between words and none at either end |
| `Chunking.WordsKeptExactly` | services/voice-gateway/voice_gateway/knowledge/chunking.py:10-48 | the same for the j-th word of the original text, told from its length and from whether it is the first |
| `Chunking.KeptWordsSurvive` | services/voice-gateway/voice_gateway/knowledge/chunking.py:10-48 | each such word, so each one shorter than `max_chars`, can be read in a returned chunk |
| `Chunking.EverySpanKept` | services/voice-gateway/voice_gateway/knowledge/chunking.py:36-38 | for sizes of at least 2 no interval strips to nothing, so no chunk is dropped |
| `Chunking.ChunksFit` | services/voice-gateway/voice_gateway/knowledge/chunking.py:11-12 | every returned chunk is non-empty and has at most `max_chars` characters |
| `Chunking.FittingText` | services/voice-gateway/voice_gateway/knowledge/chunking.py:21-41 | a text that fits after normalising is its one chunk; a blank text has none |
| `Chunking.WordsAreRuns` | services/voice-gateway/voice_gateway/knowledge/chunking.py:21 | the words of a text are, all of them and in order, its maximal runs of characters other than whitespace, told by their positions in the raw text |
| `Chunking.PrintableWord` | services/voice-gateway/voice_gateway/knowledge/chunking.py:21 | printable ASCII characters between blanks, tabs, line feeds or carriage returns make a word |
| `Chunking.RunsSurvive` | services/voice-gateway/voice_gateway/knowledge/chunking.py:10-48 | every such run of the raw text shorter than `max_chars`, and one of exactly that length if only whitespace precedes it, can be read in a returned chunk |
| `Chunking.ChunksAreParts` | services/voice-gateway/voice_gateway/knowledge/chunking.py:28-48 | the chunks are parts of the normalised text, each beginning further on, without a blank at either end, a tab or a line break; no other character is left out |
| `Wallet.WalletDb.GetOrCreateWallet` | apps/web/lib/billing/wallet.ts:39-79 | returns the wallet row, creating one with zero balance and threshold where there is none |
| `Wallet.WalletDb.ApplyWalletTransaction` | apps/web/lib/billing/wallet.ts:96-190 | the whole new database and the answer of one transaction, with rollback on every throwing path, equal the specification `Apply` |
| `Wallet.ApplyKeepsLedger` | apps/web/lib/billing/wallet.ts:100-155 | every call keeps the ledger discipline: balance is opening plus signed entries, each `balance_after` is the prefix sum, nothing negative, keys unique |
| `Wallet.RunKeepsLedger` | apps/web/lib/billing/wallet.ts:96-190 | the discipline holds after any sequence of calls |
| `Wallet.OpenedLedgerOk` | apps/web/lib/billing/wallet.ts:39-79 | so it holds in every run of a wallet opened with any balance, or created on demand |
| `Wallet.ReplayMovesNothing` | apps/web/lib/billing/wallet.ts:104-132 | a replayed key changes neither balance, ledger nor alerts; exactly when it is answered by an overdraft error, by a unique violation (the empty key), or quietly |
| `Wallet.AppliedExactly` | apps/web/lib/billing/wallet.ts:100-155 | a call moves money if and only if the amount is positive, the key is new and a debit is covered |
| `Wallet.KeyAppliedOnce` | db/migrations/012_phase7_billing.sql:111 | in any run at most one call with a given key moves money |
| `Wallet.AppliedWrites` | apps/web/lib/billing/wallet.ts:134-187 | an applied call, table by table: the new balance with the old threshold, one ledger row, an audit row unless it is a call charge, and one alert row exactly when it answers an alert: zero balance at or below zero, low balance up to the threshold |
| `Wallet.UnappliedWrites` | apps/web/lib/billing/wallet.ts:100-132 | the conditions and the effects of an overdraft (its audited rejection alone), of a replay and of a refusal by the database |
| `Wallet.RunAlerts` | apps/web/lib/billing/wallet.ts:155-167 | over any sequence of calls the alerts raised are exactly those due at the balances of the new ledger rows, and so are those answered |
| `WalletRace.EveryExecutionSerial` | apps/web/lib/billing/wallet.ts:55-60 | in every state of every interleaving the committed tables and all answers so far are those of the calls run one by one in lock order |
| `WalletCalls.InterleavingIsSerial` | apps/web/lib/billing/wallet.ts:96-190 | when all calls have ended, database and answers equal the serial run in lock order; only calls that lost the creation of a missing wallet are left out |
| `WalletCalls.CommittedLedgerOk` | apps/web/lib/billing/wallet.ts:100-155 | the ledger discipline holds in every committed state of every interleaving |
| `WalletCalls.CommittedAlertsOk` | apps/web/lib/billing/wallet.ts:155-167 | the law of the alerts, raised and answered, holds in every committed state of every interleaving |
| `WalletCalls.StepsBounded` | apps/web/lib/billing/wallet.ts:96-190 | no interleaving is longer than eight statements a call |
| `WalletCalls.EveryStatePooled` | apps/web/lib/audit/log.ts:76-84 | in every state each connection of the pool is idle or held, the second one of an audited rejection included |
| `WalletCalls.ConcurrentDebits` | apps/web/lib/billing/wallet.ts:100-106 | of N interleaved debits of d > 0 exactly min(N, balance div d) succeed, and the balance drops by d for each |
| `WalletCalls.LosingRun` | apps/web/lib/billing/wallet.ts:69-72 | a concrete run in which a call fails on the unique constraint because another created the missing wallet first |
| `WalletCalls.LostExactly` | apps/web/lib/billing/wallet.ts:55-72 | a call can be lost that way if and only if the wallet is missing, two calls can be connected at once, and one of several calls would create it |
| `SharedPool.EveryStateKept` | apps/web/lib/db/tenant.ts:26-53 | however wallet calls of several organisations and other tasks share a pool, each wallet stays as if its calls had run one by one in lock order, and every connection is idle or held |
| `SharedPool.RunsBounded` | apps/web/lib/db/tenant.ts:26-53 | no run is longer than eight statements a call, and for a task three steps and three more for each nested use |
| `SharedPool.StoppedIsNested` | apps/web/lib/audit/log.ts:76-84 | whenever users stop for ever no connection is idle, and a rejected debit waits for its audit connection or a task for a second one |
| `PoolDeadlock.DeadlockExactly` | apps/web/lib/billing/wallet.ts:104-121 | the users of M connections can stop each other for ever if and only if, on some existing wallets, some calls run one by one leave a balance that another, audited, debit overdraws, and the other calls on those wallets together with the tasks that nest, or share a row lock with one that does, number at least M |
| `PoolDeadlock.FewUsersEnd` | apps/web/lib/db/tenant.ts:26-53 | fewer users than connections always end, whatever they are, within a bounded run |
| `PoolDeadlock.NobodyNests` | apps/web/lib/calls/createCall.ts:61-69 | call charges and outbound calls, which pass their connection on, end on any pool whatever row locks they wait for, within a bounded run, and return every connection |
| `PoolDeadlock.TasksExactly` | apps/web/lib/providers/registry.ts:101-118 | tasks alone can stop each other if and only if at least as many nest, or share a row lock with one that does, as there are connections |
| `PoolDeadlock.OneWalletExactly` | apps/web/lib/billing/wallet.ts:112-119 | the calls on one wallet alone can if and only if some at most N - M of them (N calls, M connections), run one by one, leave a balance that another, audited, debit overdraws |
| `PoolDeadlock.TenCallsStick` | apps/web/lib/providers/registry.ts:101-114 | nine call charges and one manual adjustment of 10 against a balance of 5 can stop for ever on the default ten connections |
| `PoolDeadlock.TwoOrganisationsStick` | apps/web/lib/providers/registry.ts:101-114 | so can two organisations with five calls each, too few to stop alone |
| `PoolDeadlock.TenTicksStick` | apps/web/lib/campaigns/dialer.ts:55-73 | so can ten ticks of the dialer, which enqueue while they hold the connection they selected with |
| `JobQueue.PgJobQueue.Enqueue` | apps/web/lib/queue/pg-queue.ts:19-28 | appends one pending job with the given or default run time and attempts |
| `JobQueue.PgJobQueue.ClaimNext` | apps/web/lib/queue/pg-queue.ts:35-69 | claims an earliest due job of the queue, or finds that none is due |
| `JobQueue.PgJobQueue.MarkCompleted` | apps/web/lib/queue/pg-queue.ts:71-74 | the named row becomes completed and nothing else changes |
| `JobQueue.PgJobQueue.MarkFailed` | apps/web/lib/queue/pg-queue.ts:81-101 | one more attempt, then dead-lettered or pending again after the delay; a missing row is ignored |
| `JobQueue.PgJobQueue.Tick` | apps/web/lib/queue/pg-queue.ts:113-134 | one round claims an earliest due job, records the handler's answer on that row alone and leaves it fewer runs; otherwise nothing is due |
| `JobQueue.PgJobQueue.DrainQueue` | apps/web/lib/queue/pg-queue.ts:113-134 | while the clock runs and others enqueue, a worker alone on its queue ends every job due at the start, leaves none due, touches no other, and starts none more often than its remaining attempts |
| `JobQueue.FailureDecides` | apps/web/lib/queue/pg-queue.ts:86-100 | a failure counts one attempt and keeps its error; the job is dead exactly when that was the last one, and otherwise due again exactly from the delayed time on |
| `JobQueue.ServedExactly` | apps/web/lib/queue/pg-queue.ts:113-134 | one round completes a job exactly when the handler throws nothing, and else dead-letters it or makes it pending by its attempts |
| `JobQueueRace.EveryStateOk` | apps/web/lib/queue/pg-queue.ts:35-134 | the ownership and attempt invariant of workers and rows in every state of every interleaving |
| `JobQueueRace.OneOwner` | apps/web/lib/queue/pg-queue.ts:81-100 | a job is processing if and only if exactly one worker owns it, and the counters `markFailed` has read are still current |
| `JobQueueRace.OnlyOwnerWrites` | apps/web/lib/queue/pg-queue.ts:56-100 | a row changes only by its locking or owning worker; completed and dead-lettered rows never do |
| `JobQueueRace.EndsExactly` | apps/web/lib/queue/pg-queue.ts:71-100 | in any interleaving a job becomes completed, dead-lettered or pending again in exactly the steps that record its handler's success, its last failure, or an earlier one |
| `JobQueueRace.StartsBounded` | apps/web/lib/queue/pg-queue.ts:86-93 | no handler is started more than max(1, max_attempts) times; a failed job still pending has attempts left |
| `JobQueueRace.WorkerStepDescends` | apps/web/lib/queue/pg-queue.ts:113-134 | every worker step strictly lowers a work measure |
| `JobQueueRace.StuckOnlyWhenDone` | apps/web/lib/queue/pg-queue.ts:113-134 | with every job due and served, no worker can be out of steps before all jobs have ended |
| `JobQueueRace.QueueDrains` | apps/web/lib/queue/pg-queue.ts:113-134 | whatever handlers answer, the workers' run is bounded and ends with every job completed or dead-lettered |
| `Webhooks.WebhookSender.EnqueueOutboundWebhook` | apps/web/lib/webhooks/outboundWebhookSender.ts:51-78 | one pending delivery, due at once, for each enabled subscription of the event, in order (see `OneRowEach`); nothing else changes |
| `Webhooks.WebhookSender.ProcessDueOutboundWebhooks` | apps/web/lib/webhooks/outboundWebhookSender.ts:96-150 | at most `limit` due rows, each attempted once and recorded at its own time; any due row left over means the limit was reached |
| `Webhooks.WebhookSender.ClaimDue` | apps/web/lib/webhooks/outboundWebhookSender.ts:120-137 | claims the earliest due rows, distinct, and only them |
| `Webhooks.WebhookSender.AttemptDelivery` | apps/web/lib/webhooks/outboundWebhookSender.ts:152-223 | the row and the result of an attempt are those of which `AnswerDecides` and `AnswerIsKept` tell; no other row changes |
| `Webhooks.OneRowEach` | apps/web/lib/webhooks/outboundWebhookSender.ts:51-78 | the new rows are those of the enabled subscriptions to the event, in table order, each pending, unsent, with six attempts and due at the time of the call |
| `Webhooks.AnswerDecides` | apps/web/lib/webhooks/outboundWebhookSender.ts:188-223 | delivered if and only if the target responds with 200 to 299; else exhausted if and only if that was the last attempt; else pending, due exactly 30 s, 2 min, 10 min, 1 h or 6 h after the attempt; the reported outcome alike |
| `Webhooks.AnswerIsKept` | apps/web/lib/webhooks/outboundWebhookSender.ts:188-223 | the row counts the attempt and holds the status and the error of its last answer, as the result does; a success clears no error |
| `WebhookRace.EveryStateOk` | apps/web/lib/webhooks/outboundWebhookSender.ts:96-223 | the claim, attempt and timing invariant in every state of every interleaving of sweeps |
| `WebhookRace.AttemptsSpaced` | apps/web/lib/webhooks/outboundWebhookSender.ts:30-30 | at most six requests per delivery, each no earlier than its backoff after the one before |
| `WebhookRace.AttemptsDelayed` | apps/web/lib/webhooks/outboundWebhookSender.ts:30-30 | so the k-th comes no earlier than creation plus the backoff entries before it, the sixth 7 hours 12.5 minutes |
| `WebhookRace.SixRequestsReach` | apps/web/lib/webhooks/outboundWebhookSender.ts:30-30 | both bounds are attained: a run sends all six requests exactly at these times and then exhausts the delivery |
| `WebhookRace.OneSweepAtATime` | apps/web/lib/webhooks/outboundWebhookSender.ts:102-137 | no delivery is held by two sweeps or twice by one |
| `WebhookRace.EndedStays` | apps/web/lib/webhooks/outboundWebhookSender.ts:190-211 | delivered and exhausted rows never change and are never sent again |
| `WebhookRace.DeliveredExactly` | apps/web/lib/webhooks/outboundWebhookSender.ts:188-197 | in any interleaving a row becomes delivered in exactly the steps that record a status of 200 to 299 for it |
| `WebhookRace.DeliveredByStatus` | apps/web/lib/webhooks/outboundWebhookSender.ts:188-223 | in every state a row is delivered if and only if its last status is 200 to 299; one that has failed holds an error, one never answered neither |
| `WebhookRace.ClampIdle` | apps/web/lib/webhooks/outboundWebhookSender.ts:214-214 | the index clamp never decides a delay of a row made by `enqueueOutboundWebhook` |
| `Campaign.CampaignDb.AssertWalletHasBalance` | apps/web/lib/billing/callGuard.ts:34-57 | refuses exactly wallet-gated plans without balance, after inserting the alert |
| `Campaign.CampaignDb.CreateOutboundCall` | apps/web/lib/calls/createCall.ts:42-104 | tables and outcome of the gated transaction, rolled back (the alert too) on every throw, equal the specification `CreateCall` |
| `Campaign.CampaignDb.EnqueueDueCampaignLeads` | apps/web/lib/campaigns/dialer.ts:55-73 | one job for each of at most 200 distinct due leads, all of them when fewer than 200 are enqueued; members are left unmarked |
| `Campaign.CampaignDb.ProcessCampaignDialJob` | apps/web/lib/campaigns/dialer.ts:77-137 | no phone, a compliance refusal or an empty wallet blocks the member; other failures leave everything for the queue to retry |
| `Campaign.CampaignDb.ScheduleNextAttempt` | apps/web/lib/campaigns/dialer.ts:156-206 | the member after a disposition equals the specification `AfterDisposition` |
| `Campaign.FindDelay` | apps/web/lib/campaigns/dialer.ts:193-196 | the delay of the first matching schedule entry, else of the last entry, else none |
| `Campaign.DelayIsFirstMatch` | apps/web/lib/campaigns/dialer.ts:195-196 | the specified delay is that of the first matching entry, whatever follows it |
| `Campaign.PlacedExactly` | apps/web/lib/calls/createCall.ts:45-103 | a call is placed if and only if the provider takes it and: the lead has consented, has not opted out and the consent has not expired; the campaign, if any, exists, is active, calls on this weekday and at this hour, and fewer than `max_calls_per_hour` calls went to its leads in the last hour; and a wallet plan has a positive balance |
| `Campaign.PlacedWrites` | apps/web/lib/calls/createCall.ts:71-100 | a placed call is one new row and changes, of the members, status, attempts and last call of its own one |
| `Campaign.ConsentReasons` | apps/web/lib/compliance/gate.ts:52-79 | which reason is given when consent is missing, for every lead |
| `Campaign.CampaignReasons` | apps/web/lib/compliance/gate.ts:81-111 | which reason is given when the campaign refuses a consenting lead, in the order of the checks |
| `Campaign.DueAgainExactly` | apps/web/lib/campaigns/dialer.ts:57-66 | after a disposition a member of an active campaign is due again exactly from its delay on if the disposition is not final and an attempt is left, and otherwise never |
| `Campaign.PlacedNotDue` | apps/web/lib/campaigns/dialer.ts:57-66 | a placed or blocked member is never due |
| `Campaign.FinalByDefault` | apps/web/lib/campaigns/dialer.ts:171 | the four dispositions that are final when the caller names none |
| `CampaignRun.CallAllOrNothing` | apps/web/lib/calls/createCall.ts:45-103 | a call is placed if and only if both gates and the provider let it; otherwise every table is unchanged |
| `CampaignRun.UninterruptedDial` | apps/web/lib/calls/createCall.ts:45-103 | the split dial steps, when nothing overtakes them, are one gated transaction |
| `CampaignRun.DispositionDecides` | apps/web/lib/campaigns/dialer.ts:176-205 | exactly when a disposition that nothing overtakes leaves a member pending, completed or exhausted, whatever its status was |
| `CampaignRun.UninterruptedDisposition` | apps/web/lib/campaigns/dialer.ts:156-206 | reading and writing with nothing in between are the whole of the specification `AfterDisposition` |
| `CampaignRun.OvertakenDispositionExactly` | apps/web/lib/campaigns/dialer.ts:172-205 | one that is overtaken between its SELECT and its UPDATE leaves the status it would leave now if and only if the attempts are still on the same side of the cap |
| `CampaignRun.EveryStateEnrolled` | apps/web/lib/campaigns/dialer.ts:55-206 | in every state of every run the jobs and calls concern enrolled leads and each `attempts` counts the calls committed |
| `CampaignRun.CallsGated` | apps/web/lib/calls/createCall.ts:46-59 | every call the campaign has made in a run was permitted, in the sense of `Campaign.PlacedExactly`, in an earlier state of that run, in a transaction with the same start |
| `CampaignRun.EveryStateCapped` | apps/web/lib/campaigns/dialer.ts:55-73 | calls made and on their way for a lead stay below `max_attempts` plus the calls that overlap, counting those a slow tick has selected and not yet enqueued |
| `CampaignRun.EveryHourCapped` | apps/web/lib/compliance/gate.ts:102-110 | calls made and in flight within any closed hour stay below the cap plus the dials that overlap |
| `CampaignRun.AttemptsCounted` | apps/web/lib/calls/createCall.ts:93-100 | a lead's `attempts` is the number of calls committed for it, below `max_attempts` + p with at most p of its calls on their way at a time |
| `CampaignRun.HourlyWindow` | apps/web/lib/compliance/gate.ts:102-110 | every closed hour, wherever it begins, holds fewer than `max_calls_per_hour` + p calls with at most p dials between gates and commit at a time |
| `CampaignCaps.AttemptsReach` | apps/web/lib/campaigns/dialer.ts:57-70 | for every cap and p a run reaches cap - 1 + p attempts with at most p calls of the lead on their way, although never more than one is enqueued or dialled at a time |
| `CampaignCaps.AttemptCapExactly` | apps/web/lib/campaigns/dialer.ts:57-70 | the attempt cap holds in every run with at most p calls of a lead on their way if and only if p is at most 1 |
| `CampaignCaps.HourReach` | apps/web/lib/compliance/gate.ts:102-110 | for every cap and p a run with at most p dials in flight puts cap - 1 + p calls into one hour |
| `CampaignCaps.HourlyCapExactly` | apps/web/lib/compliance/gate.ts:102-110 | the hourly cap holds in every run with at most p dials in flight if and only if p is at most 1 |
| `CampaignCaps.OverlapBreaksCaps` | apps/web/lib/campaigns/dialer.ts:57-70 | the smallest run, two ticks before the first commit, exceeds both caps of 1 |
| `CampaignCaps.SlowTickBreaksCap` | apps/web/lib/campaigns/dialer.ts:68-70 | a tick that enqueues after another tick's dial is over exceeds the cap of 1 without any two jobs overlapping |
| `CampaignCaps.PendingAtCap` | apps/web/lib/campaigns/dialer.ts:172-205 | for every cap a run without overlapping calls leaves a lead pending with no attempt left, because a dial commits between the two statements of a disposition; no tick selects it again |
| `RateLimit.RateLimiter.CheckRateLimit` | apps/web/lib/security/rateLimit.ts:44-69 | the answer and the whole event table after pruning, counting and inserting; a refused request still prunes |
| `RateLimit.TableRemembers` | apps/web/lib/security/rateLimit.ts:53-62 | with no caller's window under a quarter of the bucket's, the pruned table still counts every admitted hit of the window |
| `RateLimit.WindowBound` | apps/web/lib/security/rateLimit.ts:37-43 | under that condition every interval of the window's length holds at most `limit` admitted hits |
| `RateLimit.PruningLetsOneMore` | apps/web/lib/security/rateLimit.ts:53-56 | otherwise a serial run exists with `limit` + 1 admitted hits in one window, whatever the other caller's limit |
| `RateLimit.LimitHoldsExactly` | apps/web/lib/security/rateLimit.ts:44-69 | the limit holds for every serial run and every window if and only if no other caller's window is shorter than a quarter of it |
| `RateLimit.RepositoryWindows` | apps/web/lib/webhooks/n8n-auth.ts:81 | the login limit of 300 s is not protected from the 60 s webhook limiter; the reverse is |
| `RateLimitRace.OverlapBound` | apps/web/lib/security/rateLimit.ts:49-68 | with at most p checks of the bucket between SELECT and INSERT and no short windows, every window admits at most `limit` - 1 + p hits in any interleaving |
| `RateLimitRace.OverlapReach` | apps/web/lib/security/rateLimit.ts:58-68 | for every limit and p a run with at most p such checks admits `limit` - 1 + p hits at one instant |
| `RateLimitRace.LimitHoldsExactly` | apps/web/lib/security/rateLimit.ts:49-68 | over every interleaving the limit holds if and only if no two checks of the bucket are in flight at a time and no other caller's window is shorter than a quarter of it |
| `ConnectionPool.TenantDb.WithTenant` | apps/web/lib/db/tenant.ts:21-54 | commits exactly what the body returns if COMMIT succeeds, rolls back otherwise, and gives connection and settings (organisation, user, derived role) back on every path |
| `PoolCreation.PoolModule.GetPool` | services/voice-gateway/voice_gateway/db.py:45-55 | returns the existing pool unchanged, or creates it once under the lock, or raises without a DSN |
| `PoolCreation.OnePool` | services/voice-gateway/voice_gateway/db.py:45-55 | however tasks interleave at most one pool is created and everyone who gets one gets that one |
| `PoolCreation.SomeTaskGoesOn` | services/voice-gateway/voice_gateway/db.py:38-55 | while any task is waiting, some task can go on |
| `Failover.FailoverLog.CallWithFailoverTs` | apps/web/lib/providers/failover.ts:67-136 | outcome and events of the TypeScript loop equal the specification `Failover` |
| `Failover.FailoverLog.CallWithFailoverPy` | services/voice-gateway/voice_gateway/providers/failover.py:90-139 | outcome and events of the Python loop, which finds the next hop by counting attempts, equal the same specification |
| `Failover.SameFailover` | services/voice-gateway/voice_gateway/providers/failover.py:93-139 | both implementations agree on the outcome and on every hop, whatever the wording of reasons |
| `Failover.AnswerIsBest` | apps/web/lib/providers/failover.ts:61-66 | an answer comes from the best-ranked attempted candidate that answers, and the log is the hop chain from the top-ranked one to it |
| `Failover.GivingUp` | apps/web/lib/providers/failover.ts:126-135 | giving up means every attempted candidate failed, in order, with a chain that ends in one self-loop |
| `Failover.CrashExactly` | apps/web/lib/providers/failover.ts:93-134 | reading the last failure of an empty list happens if and only if `maxAttempts` leaves no candidate |
| `Failover.AnsweredExactly` | apps/web/lib/providers/failover.ts:86-106 | of n candidates, the first `maxAttempts` or all but the last -`maxAttempts`, one that answers is returned if and only if there is one, the first, after as many events as its position; giving up needs n > 0 and no answer |
| `Failover.HopsToAnswer` | apps/web/lib/providers/failover.ts:107-123 | before an answer every failed candidate logs one hop to the next with its own reason |
| `Failover.ReportsEveryFailure` | apps/web/lib/providers/failover.ts:107-136 | giving up reports all n candidates with key and reason in order and logs n events, the last a self-loop of the last one tried |
| `Failover.WordingsDifferExactly` | services/voice-gateway/voice_gateway/providers/failover.py:113-117 | the two implementations word every failure alike except a timeout |
| `Turn.ConversationOrchestrator.Listen` | services/voice-gateway/voice_gateway/media_stream/server.py:61-82 | the chunks fed before stop or the end of the connection and the last final transcript a stateful recogniser gave on them; interruptions only raise the flag |
| `Turn.ConversationOrchestrator.RunTurn` | services/voice-gateway/voice_gateway/orchestrator/pipeline.py:93-124 | messages and audio of a turn as specified; first token and first byte marked at most once each, in order; a latency row for each stage measured with a known provider; when audio is emitted the three stage latencies add up exactly to the end-to-end latency |
| `Turn.ConversationOrchestrator.Transcribe` | services/voice-gateway/voice_gateway/orchestrator/pipeline.py:99-109 | the text the turn is about, with the end of speech and the transcript marked in that order |
| `Turn.ConversationOrchestrator.ApplyGrounding` | services/voice-gateway/voice_gateway/orchestrator/pipeline.py:148-160 | the old system messages are replaced by the new prompt in first place, the others kept in order |
| `Turn.ConversationOrchestrator.ReplyAndSpeak` | services/voice-gateway/voice_gateway/orchestrator/pipeline.py:162-202 | through any depth of tool calls: the appended messages, the audio, and the marks added to the tracker |
| `Turn.ConversationOrchestrator.ReadStream` | services/voice-gateway/voice_gateway/orchestrator/pipeline.py:165-188 | reads up to the first tool call; marks the first token exactly when text first arrives |
| `Turn.ConversationOrchestrator.Play` | services/voice-gateway/voice_gateway/orchestrator/pipeline.py:194-202 | plays the synthesised prefix before the first interruption after the reset, marking the first byte once |
| `Turn.TurnLatencyTracker.MarkTranscriptReceived` | services/voice-gateway/voice_gateway/latency.py:63-66 | records the time and the stage latency since the end of speech |
| `Turn.TurnLatencyTracker.MarkLlmFirstToken` | services/voice-gateway/voice_gateway/latency.py:68-71 | records the time and the stage latency since the transcript |
| `Turn.TurnLatencyTracker.MarkFirstTtsByte` | services/voice-gateway/voice_gateway/latency.py:73-78 | records the last stage and the end-to-end latency |
| `Turn.EarlyInterruptionsCleared` | services/voice-gateway/voice_gateway/media_stream/server.py:78-79 | interruptions among the inbound frames cut nothing off the audio and change no message |
| `Turn.CutExactly` | services/voice-gateway/voice_gateway/orchestrator/pipeline.py:194-202 | the audio is exactly the first k chunks if and only if the first interruption is raised before chunk k; all of it if and only if there is none |
| `Turn.SilentTurn` | services/voice-gateway/voice_gateway/orchestrator/pipeline.py:111-112 | nothing is said to what was not understood, nor without a reply |
| `Turn.ExchangeShape` | services/voice-gateway/voice_gateway/orchestrator/pipeline.py:114-192 | a turn adds the user's words, one tool message per call in order, and at most one assistant message |
| `Turn.ConversationIsHistory` | services/voice-gateway/voice_gateway/orchestrator/pipeline.py:113-192 | after any turns the list is the surviving system prompt followed by everything said so far: append-only |
| `Turn.OneSystemMessage` | services/voice-gateway/voice_gateway/orchestrator/pipeline.py:148-160 | with grounding there is exactly one system message once a turn was understood |
| `Turn.GroundedCall` | services/voice-gateway/voice_gateway/orchestrator/pipeline.py:116-160 | for a whole call with grounding: one system message, first, then the history |
| `Turn.UngroundedCall` | services/voice-gateway/voice_gateway/orchestrator/pipeline.py:83-91 | without grounding no system message ever appears |
| `Turn.FedExactly` | services/voice-gateway/voice_gateway/media_stream/server.py:61-82 | the recogniser is fed the audio of exactly the non-empty media frames before the first stop, in order |
| `Turn.QuestionIs` | services/voice-gateway/voice_gateway/orchestrator/pipeline.py:100-112 | the text is the trailing transcript if there is one, else the last final transcript of the last chunk that had any, else empty |
| `Turn.ScanIs` | services/voice-gateway/voice_gateway/orchestrator/pipeline.py:165-188 | a model call is read up to its first tool call; its text is that of the deltas before |
| `Turn.CallsExactly` | services/voice-gateway/voice_gateway/orchestrator/pipeline.py:172-191 | the leading model calls with a tool call give the tools called; the next one gives the reply |
| `Turn.RepliesAre` | services/voice-gateway/voice_gateway/orchestrator/pipeline.py:172-207 | one message per tool with the dispatcher's answer, or that there is no dispatcher, then the reply unless it is empty |
| `Turn.RowsExactly` | services/voice-gateway/voice_gateway/orchestrator/pipeline.py:131-146 | a latency row is written for exactly the stages measured with a known provider |
| `Scoreboard.BuildScoreboard` | apps/web/lib/billing/scoreboard.ts:181-236 | the table filled in place, layer by layer, equals the specification `Board` |
| `Scoreboard.SumLatencies` | apps/web/lib/billing/scoreboard.ts:187-194 | the sums of each provider with latency rows are its duration-weighted total and its sample count, which may be zero |
| `Scoreboard.CollectRatings` | apps/web/lib/billing/scoreboard.ts:196-201 | the map holds the last Hinglish rating of each provider and ignores other metrics |
| `Scoreboard.ScoreLayers` | apps/web/lib/billing/scoreboard.ts:217-233 | every row is scored against the rows of its own layer, in whatever order the layers are visited |
| `Scoreboard.ScoreLayer` | apps/web/lib/billing/scoreboard.ts:218-232 | one layer's rows get their scores, all other rows stay as they are |
| `Scoreboard.CompositeInUnit` | apps/web/lib/billing/scoreboard.ts:220-231 | a row is scored if and only if its provider has latency rows and some weight applies: with NaN if some latency of its layer is, else within [0, 1] |
| `Scoreboard.SampledNotBroken` | db/migrations/012_phase7_billing.sql:463-465 | rows that count at least one sample, as the loading query groups them, give no NaN |
| `Scoreboard.BetterNeverScoresLower` | apps/web/lib/billing/scoreboard.ts:220-231 | within a layer, no dearer, no slower and rated no worse (or both unrated) never scores lower; NaN comes for both or neither |
| `Scoreboard.ScoreIs` | apps/web/lib/billing/scoreboard.ts:212-231 | the score from the extremes of the layer: cost weight on one minus the place among the costs, latency weight likewise, quality weight on a tenth of a rating if there is one, out of the weights that count |
| `Scoreboard.CostOutweighsLatency` | apps/web/lib/billing/scoreboard.ts:66-70 | with the default weights an unrated row that is cheapest and slowest scores 4/7, one that is fastest and dearest 3/7 |
| `Scoreboard.MeanOfTwo` | apps/web/lib/billing/scoreboard.ts:187-194 | two measurements of a provider count by their numbers of samples |
| `Scoreboard.RatingIsLast` | apps/web/lib/billing/scoreboard.ts:196-201 | a row has a rating if and only if there is a Hinglish one, and then the last |
| `Scoreboard.RatingHelpsExactly` | apps/web/lib/billing/scoreboard.ts:222-231 | a rating raises a score if and only if, out of one, it exceeds the score without it |
| `Scoreboard.KeyTellsLayer` | apps/web/lib/billing/scoreboard.ts:189 | joined keys of colon-free layers name one provider of one layer |
| `Scoreboard.ColonConfusesLayers` | apps/web/lib/billing/scoreboard.ts:189 | with a colon in a layer's name two providers share a key |
| `Scoreboard.LayersApart` | apps/web/lib/billing/scoreboard.ts:173-179 | one layer's part of the scoreboard is the scoreboard of that layer's data alone |
| `Scoreboard.UnitsDoNotMatter` | apps/web/lib/billing/scoreboard.ts:173-179 | positive affine changes of any layer's cost or latency unit change no score |
| `Slug.SlugIsWords` | apps/web/lib/agent-builder/commit.ts:26-31 | a slug is the lower-case words of the name joined by underscores, or "stage" if it has none |
| `Slug.SameSlugExactly` | apps/web/lib/agent-builder/commit.ts:26-31 | two names share a slug if and only if they have the same words |
| `Slug.SlugOfSlug` | apps/web/lib/agent-builder/commit.ts:26-31 | slugify is idempotent for any lower-casing that leaves keys alone |
| `Slug.WordsAreRuns` | apps/web/lib/agent-builder/commit.ts:26-31 | the words of a name are, all of them and in order, its maximal runs of key characters |
| `Slug.SlugIsKey` | apps/web/lib/agent-builder/commit.ts:26-31 | a slug is not empty, has only lower-case letters, digits and single underscores, and no underscore at its ends |
| `Slug.PlainIsKey` | apps/web/lib/agent-builder/commit.ts:26-31 | a name of lower-case letters and digits is its own slug |
| `Crm.CrmDb.CommitPrompt` | apps/web/lib/agent-builder/commit.ts:101-136 | the error cases, all without effect; otherwise the next version, the only active one; versions 1..k stay in order |
| `Crm.CrmDb.CommitGeneratedConfig` | apps/web/lib/agent-builder/commit.ts:89-167 | the refusals without effect; otherwise the prompt and the three lists as specified, each list left out where its own transaction fails, exactly when the commit then throws, and the created counts as numbers of new distinct keys |
| `Versions.WriteKeepsVersionsExactly` | apps/web/lib/agent-builder/commit.ts:114-133 | a commit's write keeps versions 1..k with only k active if and only if its version is still the next one and its UPDATE saw every row of the agent |
| `Versions.CommittedIs` | apps/web/lib/agent-builder/commit.ts:114-133 | a commit alone, whatever the table holds, adds one active row numbered one above the greatest version of the agent, deactivates the agent's others and leaves the rest |
| `Versions.SeenExactly` | apps/web/lib/agent-builder/commit.ts:114-118 | what a task has open, and the version it read, told from the order of the steps |
| `Versions.VersionsRightExactly` | apps/web/lib/agent-builder/commit.ts:114-133 | over any interleaving the versions are right in every state if and only if no commit is written, to the agent of another, between that one's read and write |
| `Versions.OverlappingCommits` | apps/web/lib/agent-builder/commit.ts:114-133 | two overlapping commits to an agent without prompts both become version 1, and both stay active |
| `Crm.InsertRows` | apps/web/lib/crm/pipeline.ts:104-123 | the created rows are as specified and are appended; existing rows stay |
| `KeyedTables.CreatedExactly` | apps/web/lib/crm/pipeline.ts:112-121 | for a real agent one row per suggested key not yet present, and keys stay distinct |
| `KeyedTables.FirstSuggestionWins` | apps/web/lib/crm/pipeline.ts:112-121 | of several suggestions with one key the first is created, never over a present one |
| `KeyedTables.CreatedInOrder` | apps/web/lib/crm/pipeline.ts:112-121 | the created rows are exactly those of the suggestions that are first with their key and not yet present, with all their columns and in their order |
| `KeyedTables.RerunExactly` | apps/web/lib/crm/pipeline.ts:45-49 | repeating an insertion creates nothing if and only if there is an agent or nothing was asked for |
| `Crm.StagesFromNames` | apps/web/lib/agent-builder/commit.ts:138-151 | the number of stages created in terms of the display names alone |
| `Crm.DispositionsFromNames` | apps/web/lib/crm/dispositions.ts:60-81 | the same for dispositions |
| `Crm.CriteriaFromTexts` | apps/web/lib/crm/scoring.ts:38-56 | the same for scoring criteria, whose keys may be empty |
| `Crm.StageSays` | apps/web/lib/agent-builder/commit.ts:41-61 | every column of a suggested stage; won or lost by its trimmed lower-case name, terminal if it is either or the last of several |
| `Crm.OthersSay` | apps/web/lib/crm/scoring.ts:38-50 | the columns of suggested dispositions and criteria; weights 3, 2 and 1, and medium without a hint |
| `Crm.TrimmedIs` | apps/web/lib/agent-builder/commit.ts:45 | trimming leaves a part of the text without a blank at either end and drops only blanks |
| `Crm.CrmDb.TransitionLeadStage` | apps/web/lib/crm/pipeline.ts:160-209 | both errors without effect; otherwise the lead moves, one history row is appended and the history stays a chain |
| `LeadHistory.ListedIsSorted` | apps/web/lib/crm/pipeline.ts:215-226 | the history read back holds the written moves, ordered by the time their transactions began |
| `LeadHistory.MoveKeepsListExactly` | apps/web/lib/crm/pipeline.ts:168-206 | a move keeps every history a chain, as read back, if and only if the stage it read is still the lead's and no written move of the lead began later; or else it moves to the stage the lead is in and is shown in then |
| `LeadHistory.MoveKeepsChainExactly` | apps/web/lib/crm/pipeline.ts:168-206 | in the order of writing it is enough that the stage read is still the lead's stage |
| `LeadHistory.HistoryIsAChain` | apps/web/lib/crm/pipeline.ts:152-159 | after any serial moves every lead's history, as read back, is a chain from its first stage to its current one |
| `LeadRace.CurrentExactly` | apps/web/lib/crm/pipeline.ts:188-191 | after any interleaving each lead is in the stage of the last move written for it |
| `LeadRace.ShownExactly` | apps/web/lib/crm/pipeline.ts:215-226 | the stage that the history read back shows for the time of a BEGIN is told from the order of the steps |
| `LeadRace.ChainsExactly` | apps/web/lib/crm/pipeline.ts:160-226 | over any interleaving of BEGINs, reads and writes every history, as read back, is a chain in every state if and only if each move is written in place: its lead still is, or is again, in the stage read, and no written move of the lead began later (or it is a move from a stage to itself where that stage is shown) |
| `LeadRace.WritingChainsExactly` | apps/web/lib/crm/pipeline.ts:168-206 | in the order of writing, if and only if each move is written while its lead still is, or is again, in the stage read |
| `LeadRace.UndisturbedInPlace` | apps/web/lib/crm/pipeline.ts:168-206 | a move is safe when no other move of its lead is written from its BEGIN to its own writing |
| `LeadRace.OverlappingMoves` | apps/web/lib/crm/pipeline.ts:168-206 | two overlapping moves of a lead both claim to leave the same stage |
| `LeadRace.LateMove` | db/migrations/010_crm_pipeline.sql:162-162 | two moves that each leave the stage the lead is in, listed in the wrong order because the one that began first was written last |

## Left out

- WebhookRace.EveryStateOk: a claim may take any duplicate-free choice of due rows, of which the earliest `limit` unlocked ones are one; the order is stated for one process by `Webhooks.WebhookSender.ClaimDue`.
- CampaignRun.HourlyWindow: counts the calls placed for the campaign itself; the gate also counts other calls to its leads, which only makes it stricter.
- CampaignRun.EveryStateCapped: a tenant may edit anything in a run but not remove a lead from the campaign or raise its two caps beyond the given ones.
- RateLimit.RateLimiter.CheckRateLimit: one check at a time, though the clock runs between its three statements; `RateLimitRace` interleaves them.
- PoolDeadlock.DeadlockExactly: wallets that do not exist yet (for these, `PoolDeadlock.FewUsersEnd` gives the safe bound); a task takes at most one row lock, before it nests.
- LeadRace.ChainsExactly: each BEGIN reads a later time than the one before it; two in the same microsecond would be listed in any order.
- Turn.ConversationOrchestrator.RunTurn: model calls that never end or throw, and a listener that stops reading the audio, are not modelled.
- Amounts are counted in units of 0.0001, the scale of the columns; rounding of finer amounts and the upper bound of the column type are not modelled.
- Scores and latencies are reals: floating-point rounding is not modelled.
- Row-level security and the SQL functions of the migrations (payment credits, telephony webhooks, rate-card lookup); each module but those of the shared pool is about one organisation.
- Process crashes, lost connections and failing statements, apart from constraint violations: the queue and the webhook sender have no lease, so a row held by a crashed worker stays claimed.
- Closing the gateway's pool while tasks still use it.
- The BullMQ queue, provider adapters, encryption, signatures, HTTP routes, sessions, dashboards, analytics queries.
- Invoices, the cost simulator and the silence ladder: settled by reading a branch or one rounding identity.
