/**
 The job-settlement protocol: the API, the GPU workers and the payment webhook share the users'
 books and the job rows. Each database transaction is one atomic step; a crash can drop a delivery
 between any two of them, and a dropped or finished delivery can be made again. One delivery per
 job is in flight at a time.

 A cancel request is two steps, because the service reads the job row and raises the Redis flag
 before its transaction commits: `AcceptCancel`, then `CommitCancel` or `AbortCancel`.

 `Next` is total: a step that is not enabled changes nothing, so every sequence of steps is a run.
 */
module Protocol {
  import opened Wrappers
  import opened Keys
  import opened Ledger

  type Pos = n: nat | 1 <= n witness 1

  datatype Status = Queued | Running | Completed | Failed | Cancelled

  predicate Terminal(s: Status) { s.Completed? || s.Failed? || s.Cancelled? }

  datatype Ending = Succeeds | FailsTransiently | FailsHard

  /** Where the delivery in flight is. `tries` is the attempt number it read when it claimed. */
  datatype Delivery =
    | Idle
    | Looping(stage: nat, tries: nat)          // about to poll the cancel flag before `stage`
    | Stopping(tries: nat)                     // saw the flag
    | InStage(stage: nat, tries: nat)
    | Saving(stage: nat, tries: nat)           // stage returned, progress not yet saved
    | Failing(transient: bool, tries: nat)     // stage raised
    | Finishing(tries: nat)                    // all stages done, not yet finalized

  datatype Job = Job(
    user: UserId, key: string, cost: nat, stages: Pos,
    noCharge: bool,            // payload of a requeued clone
    status: Status, attempts: nat, progress: nat, results: nat,
    worker: Delivery,
    flag: bool,                // the Redis cancel flag
    seen: nat, unseen: nat,    // accepted cancels not yet committed, by whether a poll can still see them
    late: bool)                // observer: an unseen cancel has committed

  datatype World = World(maxRetries: nat, books: map<UserId, Book>, jobs: seq<Job>)

  datatype Step =
    | Credit(user: UserId, op: Op)
    | Submit(user: UserId, key: string, cost: Pos, stages: Pos)
    | Requeue(of: nat, key: string)
    | AcceptCancel(j: nat, who: UserId, admin: bool, signalled: bool)
    | CommitCancel(j: nat, hidden: bool)
    | AbortCancel(j: nat, hidden: bool)
    | Claim(j: nat)
    | Poll(j: nat)
    | MarkCancelled(j: nat)
    | StageEnds(j: nat, ending: Ending)
    | Save(j: nat)
    | Fail(j: nat)
    | Finalize(j: nat, outputs: Pos)
    | Crash(j: nat)

  function BookAt(w: World, u: UserId): Book {
    if u in w.books then w.books[u] else EMPTY
  }

  function SetJob(w: World, j: nat, job: Job): World
    requires j < |w.jobs|
  {
    w.(jobs := w.jobs[j := job])
  }

  predicate KeyTaken(jobs: seq<Job>, key: string) { exists j :: 0 <= j < |jobs| && jobs[j].key == key }

  /** Between the check before the final stage and the commit that finalizes the job. */
  predicate InWindow(job: Job) {
    match job.worker
    case InStage(i, _) => i + 1 == job.stages
    case Saving(i, _) => i + 1 == job.stages
    case Finishing(_) => true
    case _ => false
  }

  /** A cancel that no later poll of this delivery will see. */
  predicate Hidden(job: Job, signalled: bool) { !signalled || InWindow(job) }

  predicate MayCancel(job: Job, who: UserId, admin: bool) {
    (admin || who == job.user) && !Terminal(job.status)
  }

  // ---------------------------------------------------------------------------------------------
  // Row transitions
  // ---------------------------------------------------------------------------------------------

  function NewJob(user: UserId, key: string, cost: nat, stages: Pos, noCharge: bool): Job {
    Job(user, key, cost, stages, noCharge, Queued, 0, 0, 0, Idle, false, 0, 0, false)
  }

  predicate Claimable(job: Job) { !Terminal(job.status) && !job.flag }

  function ClaimRow(job: Job): Job {
    job.(status := Running, attempts := job.attempts + 1, worker := Looping(0, job.attempts + 1))
  }

  function StagePercent(done: nat, total: Pos): nat { done * 95 / total }

  function SaveRow(job: Job, stage: nat, tries: nat): Job {
    job.(progress := Max(job.progress, StagePercent(stage + 1, job.stages)),
         worker := if stage + 1 < job.stages then Looping(stage + 1, tries) else Finishing(tries))
  }

  function EndRow(job: Job, status: Status): Job { job.(status := status, worker := Idle) }

  function CompleteRow(job: Job, outputs: nat): Job {
    job.(status := Completed, progress := 100, results := job.results + outputs, worker := Idle)
  }

  predicate Retries(job: Job, maxRetries: nat) {
    job.worker.Failing? && job.worker.transient && job.worker.tries < maxRetries
  }

  // ---------------------------------------------------------------------------------------------
  // Steps
  // ---------------------------------------------------------------------------------------------

  /** One transaction that runs a ledger operation for the job's user and then writes the job row;
      if the operation raises, the row becomes `lost` instead and the book is not touched. */
  function Settle(w: World, j: nat, op: Op, job: Job, lost: Job): World
    requires j < |w.jobs|
  {
    var u := w.jobs[j].user;
    var r := Exec(BookAt(w, u), op);
    if r.outcome.Rejected? then SetJob(w, j, lost) else SetJob(w, j, job).(books := w.books[u := r.book])
  }

  function RefundOp(job: Job): Op { OpRefund(job.cost, Some(RefundKey(job.key))) }
  function DebitOp(job: Job): Op { OpDebit(job.cost, Some(DebitKey(job.key))) }

  predicate CreditOp(op: Op) {
    || (op.OpGrant? && (op.key.Some? ==> !op.key.value.HoldKey? && !op.key.value.DebitKey? && !op.key.value.RefundKey?))
    || (op.OpReverse? && op.key.Some? && op.key.value.ReverseKey?)
  }

  function Next(w: World, s: Step): World {
    match s
    case Credit(u, op) =>
      if CreditOp(op) then w.(books := w.books[u := Exec(BookAt(w, u), op).book]) else w
    case Submit(u, key, cost, stages) => DoSubmit(w, u, key, cost, stages)
    case Requeue(i, key) =>
      if i < |w.jobs| && !KeyTaken(w.jobs, key)
      then w.(jobs := w.jobs + [NewJob(w.jobs[i].user, key, 0, w.jobs[i].stages, true)])
      else w
    case AcceptCancel(j, who, admin, signalled) => if j < |w.jobs| then DoAccept(w, j, who, admin, signalled) else w
    case CommitCancel(j, hidden) => if j < |w.jobs| then DoCommitCancel(w, j, hidden) else w
    case AbortCancel(j, hidden) => if j < |w.jobs| then DoAbortCancel(w, j, hidden) else w
    case Claim(j) =>
      if j < |w.jobs| && w.jobs[j].worker.Idle? && Claimable(w.jobs[j]) then SetJob(w, j, ClaimRow(w.jobs[j])) else w
    case Poll(j) => if j < |w.jobs| && w.jobs[j].worker.Looping? then DoPoll(w, j) else w
    case MarkCancelled(j) => if j < |w.jobs| && w.jobs[j].worker.Stopping? then DoRefundAndEnd(w, j, Cancelled) else w
    case StageEnds(j, e) => if j < |w.jobs| && w.jobs[j].worker.InStage? then DoStageEnds(w, j, e) else w
    case Save(j) =>
      if j < |w.jobs| && w.jobs[j].worker.Saving?
      then SetJob(w, j, SaveRow(w.jobs[j], w.jobs[j].worker.stage, w.jobs[j].worker.tries)) else w
    case Fail(j) =>
      if j < |w.jobs| && w.jobs[j].worker.Failing? then
        if Retries(w.jobs[j], w.maxRetries) then SetJob(w, j, EndRow(w.jobs[j], Queued))
        else DoRefundAndEnd(w, j, Failed)
      else w
    case Finalize(j, outputs) => if j < |w.jobs| && w.jobs[j].worker.Finishing? then DoFinalize(w, j, outputs) else w
    case Crash(j) => if j < |w.jobs| then SetJob(w, j, w.jobs[j].(worker := Idle)) else w
  }

  /** The hold and the job row are one transaction; a refused hold leaves nothing. */
  function DoSubmit(w: World, u: UserId, key: string, cost: Pos, stages: Pos): World {
    if KeyTaken(w.jobs, key) then w
    else
      var r := Exec(BookAt(w, u), OpHold(cost, Some(HoldKey(key))));
      if r.outcome.Rejected? then w
      else w.(books := w.books[u := r.book], jobs := w.jobs + [NewJob(u, key, cost, stages, false)])
  }

  function DoAccept(w: World, j: nat, who: UserId, admin: bool, signalled: bool): World
    requires j < |w.jobs|
  {
    var job := w.jobs[j];
    if !MayCancel(job, who, admin) then w
    else if Hidden(job, signalled)
    then SetJob(w, j, job.(flag := job.flag || signalled, unseen := job.unseen + 1))
    else SetJob(w, j, job.(flag := true, seen := job.seen + 1))
  }

  predicate HasPending(job: Job, hidden: bool) { 0 < if hidden then job.unseen else job.seen }

  function DropPending(job: Job, hidden: bool): Job
    requires HasPending(job, hidden)
  {
    if hidden then job.(unseen := job.unseen - 1) else job.(seen := job.seen - 1)
  }

  /** Writes the status it decided on when the request was accepted, whatever the row says now. */
  function DoCommitCancel(w: World, j: nat, hidden: bool): World
    requires j < |w.jobs|
  {
    var job := w.jobs[j];
    if !HasPending(job, hidden) then w
    else
      var dropped := DropPending(job, hidden);
      Settle(w, j, RefundOp(job), dropped.(status := Cancelled, late := job.late || hidden), dropped)
  }

  function DoAbortCancel(w: World, j: nat, hidden: bool): World
    requires j < |w.jobs|
  {
    if HasPending(w.jobs[j], hidden) then SetJob(w, j, DropPending(w.jobs[j], hidden)) else w
  }

  function DoPoll(w: World, j: nat): World
    requires j < |w.jobs| && w.jobs[j].worker.Looping?
  {
    var d := w.jobs[j].worker;
    SetJob(w, j, w.jobs[j].(worker := if w.jobs[j].flag then Stopping(d.tries) else InStage(d.stage, d.tries)))
  }

  function DoStageEnds(w: World, j: nat, e: Ending): World
    requires j < |w.jobs| && w.jobs[j].worker.InStage?
  {
    var d := w.jobs[j].worker;
    SetJob(w, j, w.jobs[j].(worker := if e.Succeeds? then Saving(d.stage, d.tries)
                                      else Failing(e.FailsTransiently?, d.tries)))
  }

  function DoRefundAndEnd(w: World, j: nat, status: Status): World
    requires j < |w.jobs|
  {
    var job := w.jobs[j];
    if job.noCharge then SetJob(w, j, EndRow(job, status))
    else Settle(w, j, RefundOp(job), EndRow(job, status), job.(worker := Idle))
  }

  /** Neither the status nor the cancel flag is read again here. */
  function DoFinalize(w: World, j: nat, outputs: Pos): World
    requires j < |w.jobs|
  {
    var job := w.jobs[j];
    if job.noCharge then SetJob(w, j, CompleteRow(job, outputs))
    else Settle(w, j, DebitOp(job), CompleteRow(job, outputs), job.(worker := Idle))
  }

  function RunFrom(w: World, steps: seq<Step>): World {
    if steps == [] then w else Next(RunFrom(w, steps[..|steps| - 1]), steps[|steps| - 1])
  }

  function Run(maxRetries: nat, steps: seq<Step>): World {
    RunFrom(World(maxRetries, map[], []), steps)
  }

  // ---------------------------------------------------------------------------------------------
  // Vocabulary of the results
  // ---------------------------------------------------------------------------------------------

  predicate HeldFor(w: World, job: Job) { HasKey(BookAt(w, job.user).ledger, HoldKey(job.key)) }
  predicate Debited(w: World, job: Job) { HasKey(BookAt(w, job.user).ledger, DebitKey(job.key)) }
  predicate Refunded(w: World, job: Job) { HasKey(BookAt(w, job.user).ledger, RefundKey(job.key)) }

  predicate Both(w: World, job: Job) { Debited(w, job) && Refunded(w, job) }

  /** Credits reserved for one job: its cost while it has a hold and no settlement. */
  function Outstanding(job: Job, u: UserId, ledger: seq<Txn>): nat {
    if job.user == u && HasKey(ledger, HoldKey(job.key))
       && !HasKey(ledger, DebitKey(job.key)) && !HasKey(ledger, RefundKey(job.key))
    then job.cost else 0
  }

  function Reserved(jobs: seq<Job>, u: UserId, ledger: seq<Txn>): nat {
    if jobs == [] then 0
    else Reserved(jobs[..|jobs| - 1], u, ledger) + Outstanding(jobs[|jobs| - 1], u, ledger)
  }

  /** No job of the user has both settlements. */
  ghost predicate NoDouble(jobs: seq<Job>, u: UserId, ledger: seq<Txn>) {
    forall j :: 0 <= j < |jobs| && jobs[j].user == u ==> !Doubled(jobs[j], ledger)
  }

  predicate Doubled(job: Job, ledger: seq<Txn>) {
    HasKey(ledger, DebitKey(job.key)) && HasKey(ledger, RefundKey(job.key))
  }

  /** What a job's second settlement took: its cost once it has both. */
  function DoubledShare(job: Job, u: UserId, ledger: seq<Txn>): nat {
    if job.user == u && Doubled(job, ledger) then job.cost else 0
  }

  function DoubledCost(jobs: seq<Job>, u: UserId, ledger: seq<Txn>): nat {
    if jobs == [] then 0
    else DoubledCost(jobs[..|jobs| - 1], u, ledger) + DoubledShare(jobs[|jobs| - 1], u, ledger)
  }

  ghost predicate NoReversal(ledger: seq<Txn>) {
    forall t :: t in ledger ==> !t.kind.Reversal?
  }
}
