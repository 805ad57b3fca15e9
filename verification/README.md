# Credits, jobs and sessions: a Dafny model

The service sells image-generation jobs for credits. Three parties share one account per user
(`balance`, `held`) and one append-only ledger: the API reserves credits when a job is submitted and
releases them when it is cancelled, the GPU worker debits or releases them when the job ends, and the
payment webhook grants and takes back credits. There is no coordinator. Everything rests on
idempotency keys, a row lock, a unique index, a CHECK constraint, a status guard and a cancel flag
that is polled between stages. This project states what that adds up to and proves it over every
interleaving and every run.

`dafny verify dfyconfig.toml` checks the whole project.

## How it is organised

| file | what it holds |
|---|---|
| `Keys.dfy` | idempotency keys; structured keys lose nothing against the formatted strings |
| `Ledger.dfy` | one user's book and what each ledger operation commits when it runs alone (`Exec`) |
| `CreditService.dfy` | the credit service with mutable balance rows, one session, commit and rollback, proved against `Exec` |
| `Interleaving.dfy` | any number of operations as separate check, lock, write and commit steps; refines a serial execution |
| `Completion.dfy` | those steps complete: a flushed operation takes effect, an undisturbed one completes, none aborts without a reason, no key takes effect twice |
| `Protocol.dfy` | the settlement protocol: API, worker and webhook as one state machine (`Next`, `Run`) |
| `ProtocolInvariant.dfy` | what every step of the protocol keeps |
| `Settlement.dfy` | the results over whole runs: exclusivity, conservation, solvency, completion, cancellation |
| `Histories.dfy` | each user's book and each job's cancel requests as accounts of the steps of a run |
| `Retries.dfy` | how often a job is claimed, how long it is delayed and how it ends, in every run |
| `JobRows.dfy` | a job's ledger rows carry exactly its price, in every run |
| `Locality.dfy` | a job's steps depend on nothing but the job and its user's book |
| `StageRunner.dfy` | stage order, generating backends, per-stage retry and the image threaded through the stages |
| `Worker.dfy` | the finalization functions and `run_job` in imperative form; a delivery is a run of the protocol, in any world |
| `Scenarios.dfy` | runs from the empty system into the states that the results warn about |
| `JobService.dfy` | submit, pack, cancel, requeue in imperative form; the accounting of packs |
| `Payments.dfy` | webhook fulfilment, refunds, chargebacks |
| `WebhookEffects.dfy` | what purchases, refunds and chargebacks record, pay out, take and entitle to, over whole histories |
| `Reversals.dfy` | what refunds and chargebacks take back of a purchase, over whole histories |
| `RateLimit.dfy`, `Sessions.dfy`, `Paging.dfy`, `FaceCrop.dfy`, `Uuid7.dfy` | the smaller cores |

The model has two grains. In `Interleaving` the steps inside one ledger transaction are separate. In
`Protocol` each transaction is one step, with three exceptions where the code is really longer than
a transaction: a delivery is a sequence of polls, stages and saves; a crash can drop it between any
two of them; and a cancel request is two steps, because it reads the row and raises the Redis flag
first and commits later (`backend/app/modules/pipeline/service.py:226-254`).

A cancel is called *hidden* when no later poll of the delivery can see it: it was accepted between
the final poll and the finalizing commit (the *window*), or its flag was never raised because the
queue entry could not be fetched (`backend/app/queue/producer.py:89-93`).

## What turned out to be false, and the exact conditions

* **"Balance is the sum of the ledger"** (`backend/app/modules/credits/models.py:3-5`) fails after a
  reversal larger than the balance: the cached balance is clamped at zero and the ledger row is not.
  It holds if and only if no reversal has overdrawn (`Ledger.CacheIsLedgerSumIff`); spending credits
  and then refunding their purchase is enough to break it (`Ledger.CacheDepartsFromLedgerSum`).
* **Debit or refund, never both.** `finalize_success` reads neither the status nor the flag again. A
  job key gets both settlements if and only if it is debited and a hidden cancel of that job
  committed (`Settlement.DoubleSettlementIff`). From every state in the window it does happen
  (`Settlement.WindowIsReal`), and for every price, grant and number of stages there is a run from
  the empty system that does it and ends COMPLETED (`Scenarios.DoubleSettlementHappens`), and one that
  leaves another job's reservation uncovered (`Scenarios.ReservationLost`). What is held falls short
  of the reservations by at most the cost of the user's doubly settled jobs
  (`Settlement.HeldWithinReserved`).
* **A cancelled job is terminal.** Two steps write a status without reading it, and a step takes a job
  out of CANCELLED if and only if it is one of them (`Settlement.CancelledOverwrittenIff`): QUEUED or
  FAILED from the failure handling, COMPLETED from the finalizing commit. CANCELLED stays for good if
  and only if no delivery is in flight or the one in flight has seen the flag or polls it next
  (`Settlement.CancelledIsTerminalIff`). `Scenarios.CancelledOverwritten` gives the runs; put back
  with the flag up, the job is never claimed again, with the flag down it is.
* **Refresh-token reuse revokes the family.** It does so inside the database session, and then the
  exception rolls the request back, so nothing of it is committed
  (`Sessions.ReuseRevokesOnlyInSession`, `Sessions.ChainSurvivesReuse`).
* **Every paid purchase is recorded.** If and only if the event names an existing user and an active
  plan that comes with credits (`Payments.PurchaseRecordedIff`). A plan without credits makes `grant`
  raise and a user id without a user violates the foreign key; the request rolls back, and every
  redelivery fails the same way.
* **A purchase is reversed once.** When the balance may go negative, the credits taken back for a
  purchase are its grant times the number of its recorded refunds and chargebacks, so they stay
  within the grant if and only if at most one was recorded; chargebacks take back the whole grant each
  in every configuration (`Reversals.TakenBackExactly`). Any two such events take it back twice
  (`Reversals.ReversedTwiceHappens`).
* **Item keys of packs are distinct.** Within a pack they always are. Across packs two keys are equal
  if and only if variant and `pack:slug` text agree (`Keys.PackItemKeysEqualIff`), so they are
  distinct for slugs without a colon, as all shipped slugs are
  (`Keys.PackItemKeyInjectiveAcrossPacks`), and any slug with a colon clashes with an item of another
  pack (`Keys.PackItemKeyClashAcrossPacks`).
* **Paging shows every row.** If and only if no two neighbours at a multiple of the page size were
  created at the same time (`Paging.WalkShowsAllIff`). Otherwise the rows that share their creation
  time with the last row of an earlier page are missed, and only those (`Paging.WalkMissesOnlyTies`);
  of rows all created together, only the first page is shown (`Paging.TiesAreMissed`).
* **The face lies inside the crop.** True at every position if and only if the larger side of the face
  is above 25/23 of a pixel and at most 50/33, or at least 35/23 (`FaceCrop.FaceInsideIff`).
* **A job is claimed at most max(1, JOB_MAX_RETRIES) times.** A job in delivery has been claimed more
  often if and only if a delivery of it was lost, to a crash or a refused debit, on the last allowed
  attempt or later; it has then been claimed once more for each such loss (`Retries.ClaimBound`). A
  claim does not look at the number of attempts, so claims and crashes reach any number
  (`Scenarios.ClaimedAnyNumberOfTimes`). The delays, in contrast, are bounded in every run
  (`Retries.DelayBound`).
* **Retry-After is long enough.** Redis rounds the time to live to whole seconds, and a counter is still
  there in the millisecond of its expiry. So the announced wait falls short exactly when at least a
  second is left and less than 500 ms beyond whole seconds, none at all included, and never by half a
  second (`RateLimit.AnnouncedWait`); a retry after exactly that wait is denied again exactly then
  (`RateLimit.RetryDeniedIff`), for instance a whole window after a denial in the instant the window
  starts (`RateLimit.WholeWindowTooShort`).

## Model

| member | source | states |
|---|---|---|
| Keys.RenderInjective | backend/app/modules/pipeline/finalize.py:68-92 | equal key strings come from the same kind of key for the same job, event or user, whatever text is in them; so a debit key is never a refund key |
| Keys.PackItemKeyInjective | backend/app/modules/pipeline/service.py:172-188 | within one pack, two items with the same derived key are the same style and variant, even when slugs contain colons |
| Keys.PackItemKeysEqualIff | backend/app/modules/pipeline/service.py:170-186 | across packs, two derived keys are equal exactly when the variants are and pack id, colon and slug read the same |
| Keys.PackItemKeyInjectiveAcrossPacks | backend/app/modules/pipeline/service.py:170-186 | for slugs without a colon the key identifies pack, style and variant, whatever pack id the caller sent |
| Keys.PackItemKeyClashAcrossPacks | backend/app/modules/pipeline/service.py:170-186 | every slug with a colon has the same key as an item of another pack |
| Ledger.ExecKeepsSound | backend/app/modules/credits/models.py:37-62 | every operation, rejected or not, keeps the balance non-negative, the version equal to the number of rows and the keys unique, and only ever extends the ledger |
| Ledger.ExecIsIdempotent | backend/app/modules/credits/service.py:47-59 | repeating a keyed operation that was not rejected returns the first row and changes nothing |
| Ledger.AppliedIff | backend/app/modules/credits/service.py:47-142 | an operation takes effect exactly when no row has its key, a grant is positive, a hold fits into balance - held, and a debit into the balance; otherwise nothing changes |
| Ledger.AppliedMoves | backend/app/modules/credits/service.py:74-243 | one that takes effect adds one row under its key; which of balance and held each kind moves, by how much, and what its row carries |
| Ledger.ReversalTakes | backend/app/modules/credits/service.py:224-239 | a reversal takes all of its amount off the ledger if it may go negative, else the same off ledger and balance; off the balance all of it or what is there |
| Ledger.CacheAccounting | backend/app/modules/credits/service.py:208-243 | after any history, balance = ledger sum + credits clamped by overdrawing reversals |
| Ledger.CacheIsLedgerSumIff | backend/app/modules/credits/models.py:3-5 | balance equals the ledger sum if and only if no reversal in the history overdrew, and the gap never narrows |
| Ledger.CacheDepartsFromLedgerSum | backend/app/modules/credits/service.py:224-239 | granting n, spending d of it and reversing the grant leaves balance 0 and ledger sum -d |
| CreditService.CreditSession.LockedBalance | backend/app/modules/credits/service.py:25-44 | returns the user's row, creating a zero row for a new user, and changes nobody's book |
| CreditService.CreditSession.FlushTxn | backend/app/modules/credits/models.py:37-62 | writes the ledger row and the balance row together, or neither when the balance would be negative |
| CreditService.CreditSession.Grant | backend/app/modules/credits/service.py:74-104 | for its user exactly the ledger's grant: rejects non-positive amounts, returns the existing row for a used key, else adds; nobody else changes |
| CreditService.CreditSession.Hold | backend/app/modules/credits/service.py:107-142 | exactly the ledger's hold: refused when balance - held is too small, else only held grows |
| CreditService.CreditSession.Debit | backend/app/modules/credits/service.py:145-173 | exactly the ledger's debit: no funds check of its own, refused only by the CHECK constraint |
| CreditService.CreditSession.RefundHold | backend/app/modules/credits/service.py:176-205 | exactly the ledger's refund: only held shrinks, clamped at zero |
| CreditService.CreditSession.ReverseGrant | backend/app/modules/credits/service.py:208-243 | exactly the ledger's reversal: the balance is clamped, the row is not, and less is taken when negatives are not allowed |
| CreditService.CreditSession.Commit | backend/app/db/session.py:40-43 | what was committed becomes what a rollback returns to |
| CreditService.CreditSession.Rollback | backend/app/db/session.py:44-46 | every user's book is that of the last commit |
| Interleaving.InterleavingRefinesSerial | backend/app/modules/credits/service.py:25-59 | every interleaving of check, lock, write, commit and rollback steps commits, per user, what running the completed operations one at a time in lock order commits; no key takes effect twice; the balance is never negative |
| Interleaving.CompletedOperationsAgree | backend/app/modules/credits/service.py:47-142 | each completed operation returned what it returns at its place in the serial execution, and aborted or unfinished ones left no trace there |
| Completion.AppliedAtMostOnce | backend/app/modules/credits/models.py:52-62 | of all concurrent operations with one key for one user, at most one is applied |
| Completion.CommitTakesEffect | backend/app/modules/credits/service.py:84-104 | in every reachable state the commit of a flushed operation returns what it returns alone on the committed book, leaves that book, and touches no other book, lock or operation |
| Completion.UndisturbedCompletes | backend/app/modules/credits/service.py:25-142 | from every reachable state in which nobody holds its user's lock, an operation's own steps complete it with the outcome and the book of running it alone, or abort it with the same error |
| Completion.AbortsOnlyFor | backend/app/modules/credits/models.py:52-62 | in every run an operation aborts only by a rollback, for a key or a row that another committed since, or for an error it raises alone on the committed book |
| Interleaving.RunKeepsInv | backend/app/modules/credits/service.py:25-44 | in every reachable state each lock has one holder, which works on the committed row, and a written operation is still valid when it commits |
| ProtocolInvariant.NextKeepsInv | ai-engine/ai_engine/worker.py:62-126 | every step of API, worker and webhook keeps the invariant tying job rows, ledger rows, progress, results and reservations together |
| ProtocolInvariant.RunKeepsInv | ai-engine/ai_engine/worker.py:62-200 | so it holds after every run |
| ProtocolInvariant.SettleConserves | backend/app/modules/credits/service.py:145-205 | a debit or refund of one job moves held by exactly that job's reservation and leaves the others' reservations alone |
| Settlement.DoubleSettlementIff | backend/app/modules/pipeline/finalize.py:174-181 | a job has both a debit and a refund if and only if it was debited and a hidden cancel committed; such a cancel was accepted unsignalled or inside the window |
| Settlement.SettledExactlyOnce | backend/app/modules/pipeline/finalize.py:174-210 | in every run a charged COMPLETED job is debited and a FAILED or CANCELLED one refunded; a terminal charged job has exactly one settlement if and only if it was not both debited and hit by a hidden cancel; without a hidden cancel of that job, debited means COMPLETED |
| Settlement.WindowIsReal | ai-engine/ai_engine/worker.py:99-123 | from any state in the window, a cancel accepted and committed there leads to both settlements and COMPLETED when the delivery finishes |
| Scenarios.DoubleSettlementHappens | ai-engine/ai_engine/worker.py:99-123 | for every price, sufficient grant and number of stages, a run from the empty system whose only cancel falls into the window ends COMPLETED with both settlements |
| Scenarios.WindowReached | ai-engine/ai_engine/worker.py:98-102 | the run that leads into the window with a payable, running, charged job |
| Scenarios.ReservationLost | backend/app/modules/pipeline/finalize.py:83-84 | a run of two jobs after which held is max(0, c2 - c1) while c2 is reserved |
| Settlement.LateMeans | backend/app/modules/pipeline/service.py:226-254 | the model's marker for a committed hidden cancel says exactly that such a commit happened in the run |
| Settlement.HeldWithinReserved | backend/app/modules/credits/service.py:138-201 | in every run held is at most the summed cost of the user's jobs with a hold and no settlement, and short of it by at most the summed cost of the user's doubly settled jobs |
| Settlement.HeldIsReserved | backend/app/modules/credits/service.py:138-201 | so held is exactly that sum, and no clamp clips, while the doubly settled jobs cost nothing, as when there are none or no hidden cancel of the user's own jobs committed; requeued clones add nothing |
| Settlement.NoDoubleIff | backend/app/modules/pipeline/finalize.py:174-181 | a user is in that state exactly when none of the user's own jobs was both debited and hit by a hidden cancel |
| Settlement.Solvent | backend/app/modules/credits/models.py:39 | in every run balance and held are never negative, and without a reversal held <= balance, whatever was cancelled; while moreover nothing of the user's is doubly settled, the debit of a held job is never refused |
| Settlement.SecondSettlementDrainsHeld | backend/app/modules/pipeline/finalize.py:83-105 | a second settlement takes the cost out of held again, so held falls short exactly when the user has other reservations |
| Settlement.ReleasedExactlyOnce | backend/app/modules/pipeline/service.py:245-251 | in every run a charged FAILED or CANCELLED job has exactly one refund row, nothing reserved, and no debit unless a hidden cancel of it committed; a COMPLETED one has exactly one debit row; no job has two rows of a kind |
| JobRows.RowsCarryThePrice | backend/app/modules/pipeline/finalize.py:68-106 | in every run the hold, debit and refund rows under a job's keys reserve, take and release exactly that job's price |
| Settlement.CompletionIsAtomic | ai-engine/ai_engine/worker.py:117-121 | results, progress 100 and the debit appear together; progress is at most 95 before; without a hidden cancel of the job it has results exactly when COMPLETED |
| Settlement.ProgressOnlyGrows | backend/app/modules/pipeline/finalize.py:131-134 | over retries, redeliveries and anything else, progress never falls and results are never added to |
| Settlement.CancelIsFinal | backend/app/modules/pipeline/finalize.py:112-128 | once the flag is up and no delivery is past its final poll, the job never completes and is never debited |
| Settlement.CancelledOverwrittenIff | ai-engine/ai_engine/worker.py:174-200 | a step takes a job out of CANCELLED exactly when it is its delivery's failure handling or an accepted finalizing commit, and what the status then is |
| Settlement.CancelledIsTerminalIff | backend/app/modules/pipeline/finalize.py:119-122 | CANCELLED stays over every continuation exactly when no delivery is in flight, or it has seen the flag, or its next poll will |
| Settlement.CancelledJobLeftQueued | ai-engine/ai_engine/worker.py:174-184 | put back after a committed cancel the job is QUEUED and refunded, and claimed again exactly when the flag was not raised |
| Scenarios.CancelledOverwritten | ai-engine/ai_engine/worker.py:174-200 | for every price, grant, number of stages, flagged or not, and for each way a stage fails, a run in which CANCELLED is overwritten by QUEUED or FAILED |
| Histories.BooksAreHistories | backend/app/modules/credits/models.py:3-5 | in every run of the protocol each user's book is what its operations leave one after another, so the balance is the ledger sum plus the clamped credits |
| Histories.PendingIsAcceptedLessEnded | backend/app/modules/pipeline/service.py:226-254 | in every run a job's pending cancel requests, hidden or not, are those accepted less those committed or rolled back |
| Retries.ClaimBound | backend/app/modules/pipeline/finalize.py:119-125 | in every run, with cancels, other jobs and webhooks, a job is claimed at most max(1, maximum) times and once more per delivery lost on the last allowed attempt or later; exactly that many times while in delivery with the limit reached, so a job in delivery is beyond the limit exactly when there was such a loss; a waiting job has a claim left under the same count |
| Retries.DelayBound | ai-engine/ai_engine/worker.py:174-184 | in every run, with cancels, crashes, refused debits and other jobs, the delays of one job add up to at most base * (2^max(1, maximum) - 2) |
| Scenarios.ClaimedAnyNumberOfTimes | backend/app/modules/pipeline/finalize.py:112-128 | for every limit and every k, a run from the empty system in which a job is claimed k times and the worker crashes each time |
| Retries.JobEnds | ai-engine/ai_engine/worker.py:169-200 | with no delivery lost and no cancel accepted, an idle job is COMPLETED or FAILED, claimed once more than put back, or QUEUED with a claim left because its last delivery was put back or it had none |
| StageRunner.OrderedStagesAreCanonical | ai-engine/ai_engine/pipeline/runner.py:31-40 | for every request the stages are a duplicate-free subsequence of the order that starts with "generate", contain exactly the known requested ones, and normalising again changes nothing |
| StageRunner.ImageAlwaysThere | ai-engine/ai_engine/pipeline/base.py:46-51 | for every stage list and whatever the models answer, the image is there before and after every stage after "generate" and when outputs are saved, and the missing-image error is unreachable |
| StageRunner.StageRunIsLastTry | ai-engine/ai_engine/pipeline/runner.py:43-68 | a stage ends as its last attempt does, where all earlier attempts failed transiently and at most three are made |
| StageRunner.GenerateEndsAs | ai-engine/ai_engine/pipeline/runner.py:43-68 | "generate" makes as many attempts, at most three, as its answers fail transiently, and ends as the deciding answer says: passed with its image, or raised, transient exactly if that answer was |
| StageRunner.AttemptsFit | ai-engine/ai_engine/pipeline/bg_removal.py:33-43 | what one attempt at each stage makes of the answers: which raise which error, that only a backend's is ever transient, and which image or auxiliary output they leave |
| StageRunner.StageContext.RunGenerate | ai-engine/ai_engine/pipeline/flux.py:243-280 | passes exactly if the first backend that does not decline returns an image, and then holds it; raises a transient error exactly if that backend fails transiently, and "model unavailable" if all decline |
| StageRunner.StageContext.RunImpl | ai-engine/ai_engine/pipeline/runner.py:44-49 | one attempt at any stage: result, image and auxiliary outputs by the answers; "bg_removal" keeps the image |
| StageRunner.StageContext.RunStage | ai-engine/ai_engine/pipeline/runner.py:43-68 | how many attempts the answers call for, that only "generate" is ever attempted again, what the last one leaves, and the seconds slept between them |
| Worker.ClaimJob | backend/app/modules/pipeline/finalize.py:112-128 | claims exactly the jobs that are not terminal and not flagged, as the protocol's claim does |
| Worker.DebitSync | backend/app/modules/pipeline/finalize.py:68-86 | the worker's debit is the same transition as the API's debit under the job's debit key |
| Worker.RefundSync | backend/app/modules/pipeline/finalize.py:89-106 | the worker's refund is the same transition as the API's refund under the job's refund key |
| Worker.FinalizeSuccess | ai-engine/ai_engine/worker.py:117-121 | results, completion and charge together, or nothing of them when the debit is refused |
| Worker.ReleaseAndEnd | backend/app/modules/pipeline/finalize.py:184-210 | the refund, unless nothing was charged, and the terminal status |
| Worker.HandleFailure | ai-engine/ai_engine/worker.py:169-200 | reschedules with the right delay exactly for a transient failure with attempts left, else refunds and fails |
| Worker.RunStages | ai-engine/ai_engine/worker.py:98-115 | the loop ends as the polls and the stages' results call for, with the images they leave and the progress of the stages passed |
| Worker.EndIsUnique | ai-engine/ai_engine/worker.py:98-115 | those polls and results determine one end only |
| Worker.RunJob | ai-engine/ai_engine/worker.py:62-126 | put back without room, skipped exactly when terminal or flagged, both without any change; otherwise the job row, the user's book and the return value are those of one delivery whose loop ended as polls and answers call for |
| Worker.DeliveryIsRun | ai-engine/ai_engine/worker.py:62-200 | in any world a delivery is a run of the settlement protocol: claim, then poll, stage and save for each stage passed, then the steps of its end lead to exactly the row and book that `run_job` leaves, and change no other job or book |
| Locality.RunMirrors | backend/app/modules/pipeline/finalize.py:68-210 | what a job's steps do in a world of their own they do in every world, to that job and its user's book only |
| Worker.DeliveryOutcome | ai-engine/ai_engine/worker.py:98-200 | for every end of the loop: what `run_job` returns, the status, attempts, results and saved progress of the row, the delay of a retry, and whether the hold is released, charged or left |
| Worker.AfterDeliveryFacts | ai-engine/ai_engine/worker.py:169-200 | a delivery without a cancel and with funds completes with one debit, fails with one refund, or is rescheduled with the book untouched, by how its stages went and how many attempts are left |
| Worker.DeliverUntilDone | ai-engine/ai_engine/worker.py:169-200 | undisturbed redelivery claims the job at most max(1, maximum) times with total delay at most base * (2^maximum - 2); every delivery but the last failed transiently; it ends COMPLETED exactly when the last passed all stages, else FAILED, with one debit or one refund over all deliveries |
| Worker.BackoffBound | ai-engine/ai_engine/worker.py:174-175 | the delays over all retries sum to base * (2^claims - 2), which grows with the number of claims |
| JobService.PackAccounting | backend/app/modules/pipeline/service.py:153-191 | a pack is accepted if and only if its new items cost nothing or all fit into balance - held; then held has grown by exactly the summed price of the distinct new items, their jobs exist, and nobody else changed |
| JobService.PackReplay | backend/app/modules/pipeline/service.py:161-171 | repeating an accepted pack, or any part of it, under the same id changes nothing, however much later and whatever happened in between |
| JobService.PackItemsAre | backend/app/modules/pipeline/service.py:172-189 | the items of a pack are every variant below the count of every requested style, and nothing else |
| JobService.ItemsAdd | backend/app/modules/pipeline/service.py:153-191 | an accepted pack keeps all jobs and adds queued jobs of its user only, each with the key, price and stages of one of its items |
| JobService.JobService.SubmitJob | backend/app/modules/pipeline/service.py:49-150 | hold and job row together: the existing job for a used key; else, exactly if the price fits into balance - held, one queued job and held grown by the price; else payment required and nothing |
| JobService.JobService.SubmitPack | backend/app/modules/pipeline/service.py:153-191 | returns a job per style and variant in the order of the loops, each under its own item key, with the new items' prices held, exactly if they fit; or leaves the state as it was |
| JobService.JobService.SubmitVariants | backend/app/modules/pipeline/service.py:173-189 | the inner loop appends one job per variant of the style, in order, under that variant's key |
| JobService.JobService.AcceptCancelRequest | backend/app/modules/pipeline/service.py:226-242 | not found for strangers, conflict for terminal jobs, else the flag is raised if it can be and one request is pending; nothing else changes |
| JobService.JobService.CommitCancelRequest | backend/app/modules/pipeline/service.py:243-254 | CANCELLED and the refund row together, the price off held unless it was refunded before, one request fewer pending, nothing else |
| JobService.JobService.RequeueJob | backend/app/modules/admin/service.py:154-194 | adds a queued clone of the same user and stages, of cost zero, that is never charged; nothing for an unknown job or a used key |
| Payments.PaymentsService.HandleWebhook | backend/app/modules/payments/service.py:79-110 | dispatch and deduplication by event id; a failed delivery leaves the state as it was |
| Payments.PaymentsService.FulfillPurchase | backend/app/modules/payments/service.py:113-162 | payment, grant, subscription and entitlement together or not at all, as the transition does whose effects over histories `WebhookEffects` states |
| Payments.PaymentsService.HandleReversal | backend/app/modules/payments/service.py:165-242 | finds the original purchase, records the refund or chargeback and reverses its grant |
| WebhookEffects.PurchasePaysOut | backend/app/modules/payments/service.py:113-162 | over every history: a new purchase event that can be fulfilled records one payment of its plan's credits and pays out exactly those; any other changes nothing, and which error it gets |
| WebhookEffects.EntitledIff | backend/app/modules/payments/service.py:149-153 | over every history a user is entitled and subscribed to a plan if and only if a purchase of it was recorded for that user and it is a subscription plan |
| WebhookEffects.SubscriptionIsLast | backend/app/modules/payments/service.py:149-153 | the subscription carries the provider's reference of the last such purchase |
| WebhookEffects.ReversalTakesIff | backend/app/modules/payments/service.py:165-242 | over every history: a new refund or chargeback is recorded exactly if its original is unique, or there is none and its user exists; for whom, for how much, and what it takes off ledger and balance; else nothing changes, and which error it gets |
| WebhookEffects.OthersChangeNothing | backend/app/modules/payments/service.py:79-110 | no other delivery changes anything: missing id, recorded id, unknown type, and the answer to each |
| Payments.RedeliveryIsInvisible | backend/app/modules/payments/service.py:89-95 | dropping a delivery whose event already has a payment changes nothing, then or afterwards, whatever happens around it |
| Payments.PaymentsMatchLedger | backend/app/modules/payments/service.py:113-228 | one payment per event; each purchase has its grant row and each nonzero reversal its reversal row, in full when negatives are allowed; payment-linked grants sum to the credits of the user's purchases |
| Payments.PurchaseRecordedIff | backend/app/modules/payments/service.py:113-147 | a new purchase event is recorded exactly when it names an existing user and an active plan with credits; otherwise nothing changes |
| Payments.PurchaseReversedTwice | backend/app/modules/payments/service.py:165-228 | any two new reversal events of one purchase, in either order, each take back the whole grant when negatives are allowed; two chargebacks always |
| Reversals.TakenBackExactly | backend/app/modules/payments/service.py:165-242 | over every history, the credits taken back for a purchase are at least its grant times its recorded chargebacks and at most its grant times its recorded reversals, exactly the latter when negatives are allowed; so then they stay within the grant exactly while at most one is recorded, and two chargebacks always exceed it |
| Reversals.ReversedTwiceHappens | backend/app/modules/payments/service.py:165-242 | a new user's fulfilled purchase and any two reversal events leave a ledger sum of minus the grant; two chargebacks even when negatives are not allowed |
| RateLimit.RateKey.Hit | backend/app/core/rate_limit.py:14-31 | in terms of the counter found: the new count, the verdict, the expiry set or kept, and the announced wait, also when the process dies before EXPIRE; a finished hit never leaves a counter without expiry |
| RateLimit.HitIsCommands | backend/app/core/rate_limit.py:20-31 | a hit is its INCRBY and, when it sends one, its EXPIRE among the commands over which the bounds range, and it admits what they record as admitted |
| RateLimit.AdmissionBounds | backend/app/core/rate_limit.py:20-31 | for every sequence of commands, including lost EXPIREs, at most limit units are admitted in one life of the counter, a life lasts longer than a window, and any stretch of one window's length admits at most 2 * limit - 1 |
| RateLimit.BoundIsReached | backend/app/core/rate_limit.py:20-31 | for every limit from 2 up, 2 * limit - 1 is reached, so that bound is tight |
| RateLimit.AnnouncedWait | backend/app/core/rate_limit.py:24-31 | the announced wait falls short exactly when at least a second is left and less than 500 ms beyond whole seconds; half a second more always suffices |
| RateLimit.RetryDeniedIff | backend/app/core/rate_limit.py:14-31 | for every limit, window and moment of a denial in it: a retry after exactly the announced wait is denied again exactly when that wait falls short |
| RateLimit.WholeWindowTooShort | backend/app/core/rate_limit.py:24-31 | a hit denied in the instant the window starts, repeated after the whole window it was told to wait, is denied again |
| Sessions.AuthService.RevokeFamilyRows | backend/app/modules/auth/service.py:285-291 | exactly the sessions of the family become revoked |
| Sessions.AuthService.RevokeAllSessions | backend/app/modules/auth/service.py:304-313 | exactly the sessions of the user become revoked |
| Sessions.AuthService.Logout | backend/app/modules/auth/service.py:294-301 | the presented session is revoked; an unknown token changes nothing |
| Sessions.AuthService.Refresh | backend/app/modules/auth/service.py:248-282 | succeeds exactly for an unrevoked, unexpired token of an active user, and which error every other gets; rotation, and the family revoked on reuse, in the session |
| Sessions.AuthService.HandleRefresh | backend/app/db/session.py:37-46 | the same verdicts; a success commits the rotation, an error leaves the sessions as they were |
| Sessions.RefreshesIff | backend/app/modules/auth/service.py:248-282 | over every serialised run, a refresh of an unrevoked, unexpired token of an active user revokes it and adds one live session of its user and family for thirty days; any other changes nothing |
| Sessions.FamilyChain | backend/app/modules/auth/service.py:248-313 | over every serialised run a family's only unrevoked session is its newest, and revocation is permanent |
| Sessions.TokenRefreshesOnce | backend/app/modules/auth/service.py:261-278 | a token refreshes successfully at most once |
| Sessions.RefreshRotates | backend/app/modules/auth/service.py:275-278 | after a successful refresh the new token is the only live one of its family |
| Sessions.ReuseRevokesOnlyInSession | backend/app/modules/auth/service.py:261-266 | presenting a revoked token revokes its whole family in the session, and nothing of it is committed |
| Sessions.ChainSurvivesReuse | backend/app/modules/auth/service.py:261-266 | after a rotation, replaying the old token leaves the new one usable |
| FaceCrop.FrameFace | ai-engine/ai_engine/pipeline/flux.py:94-107 | the canvas is the reference moved by (left, top), with filler outside it, for every box centred in the image |
| FaceCrop.RegionFits | ai-engine/ai_engine/pipeline/flux.py:98-107 | for such a box the region to crop is never inverted |
| FaceCrop.FaceInsideIff | ai-engine/ai_engine/pipeline/flux.py:95-100 | every face with this larger side lies wholly inside the crop if and only if the side is above 25/23 and at most 50/33 px, or at least 35/23 px |
| FaceCrop.FaceInsideSquare | ai-engine/ai_engine/pipeline/flux.py:95-100 | a face of such a size lies inside wherever it is |
| FaceCrop.FaceCutOff | ai-engine/ai_engine/pipeline/flux.py:95-100 | for every other size there is a face of it that sticks out, on top or on the right |
| FaceCrop.LargestFaceIsLast | ai-engine/ai_engine/pipeline/flux.py:93 | the framed face has the largest area and is the last of those that do |
| Paging.WalkShowsAllIff | backend/app/modules/pipeline/router.py:109-125 | following cursors shows the whole list exactly when no two neighbours at a multiple of the page size tie |
| Paging.WalkMissesOnlyTies | backend/app/modules/pipeline/router.py:109-125 | following cursors shows rows at strictly increasing positions and misses exactly those that tie with the last row of an earlier page |
| Paging.TiesAreMissed | backend/app/modules/pipeline/router.py:109-125 | of more rows than a page, all created together, only the first page is ever shown |
| Paging.DistinctTimesShowAll | backend/app/modules/pipeline/service.py:212-223 | with distinct creation times the pages concatenate to the whole list |
| Paging.CursorAdvances | backend/app/modules/pipeline/router.py:116-124 | every cursor leaves strictly fewer rows, so the walk ends, in whatever order the rows come |
| Uuid7.Generate | backend/app/core/ids.py:15-27 | every field reads back from the id as what was put in: no two overlap and nothing leaves the 128 bits (section 5.7 of RFC 9562) |
| Uuid7.FieldsDetermineId | backend/app/core/ids.py:22-26 | an id is determined by its five fields, so they cover all 128 bits |
| Uuid7.EarlierIsSmaller | backend/app/core/ids.py:22 | the id with the earlier millisecond is the smaller number, whatever the other bits |

## Left out

- HTTP routing, event streaming, Redis pub/sub, RQ internals, object storage, email and metrics: input and output. A queued job may be delivered at any time and any number of times, one delivery in flight per job.
- Model inference: what a model answers is an input of each attempt at a stage; the stage error codes of one backend's own checks are collapsed into one transient and one permanent failure, and error attribution fields are not stored.
- Password hashing, tokens, signatures and OAuth: tokens and ids are fresh distinct values.
- `price_job`, prompt composition, consent and style checks: a price is any positive integer fixed at submission, and a refused submission is only modelled for credits.
- Enqueueing happens before the request commits (`backend/app/modules/pipeline/service.py:141-147`), so no claim is made that a submitted job runs.
- The cancel flag's life of 3600 s: the model's flag stays up.
- Liveness across crashes, queue loss and exceptions outside stages: the code leaves such jobs RUNNING or QUEUED.
- Worker transactions are atomic steps: a status read and written by two overlapping transactions of one job is modelled for cancel requests only.
- Paging.WalkMissesOnlyTies: the source hands the decoded cursor on as text (`backend/app/core/pagination.py:30-36`, `backend/app/modules/pipeline/router.py:116-120`); whether the database compares that with a timestamp is not modelled, the model's cursor is the timestamp.
- Worker.DeliverUntilDone: deliveries of one job back to back; `Retries.ClaimBound`, `Retries.DelayBound` and `Retries.JobEnds` state the bounds and the outcome over every run.
- Worker.RunJob: the delivery is that of one worker on one job; cancel requests appear between polls and commit after the call. Interleaving with other steps of the same job is covered by the protocol's own results, and other jobs and users by `Worker.DeliveryIsRun`.
- Interleaving: one ledger operation per transaction; transactions with several operations are atomic steps of the protocol.
- The job service and the payment service call the credit operations through their proved specification and keep the books as a map; the credit service itself is modelled with mutable rows.
- The progress percentage is computed with integers; for one to six stages the source's floating-point result is the same integer.
- FaceCrop works on exact reals; the final resize and the plain cover crop for a reference without a face are not modelled.
- Column widths (160 characters for ledger keys), the empty-string idempotency key, and the key strings themselves: keys are structured values, which `Keys.RenderInjective` justifies.
- Redis semantics (atomic pipeline, rounding of TTL to whole seconds, a key gone once the clock is past its expiry) are taken from Redis itself.
- Sessions: refreshes are serialised; two concurrent refreshes of one token are not modelled. Guest accounts and the access token are not modelled.
- Invoices, amounts of money, subscription periods and the checkout flow.
- The frontend, deployment, monitoring, gallery, style catalogue, feature flags and moderation: no state shared with the credit and job protocols.
