/**
 The GPU worker as it runs: the finalization functions over a job row and a database session, the
 `run_job` loop, and whole-job retry. A delivery is proved to be a run of the settlement protocol,
 in whatever world of other jobs and users it takes place.
 */
module Worker {
  import opened Wrappers
  import opened Keys
  import opened Ledger
  import opened CreditService
  import opened Protocol
  import opened StageRunner
  import Settlement
  import opened Locality

  /** A row of the jobs table. */
  class JobRow {
    const user: UserId
    const key: string
    const cost: nat
    const requested: seq<Requested>
    const noCharge: bool
    var status: Status
    var attempts: nat
    var progress: nat
    var results: nat

    constructor (user: UserId, key: string, cost: nat, requested: seq<Requested>, noCharge: bool)
      ensures this.user == user && this.key == key && this.cost == cost
      ensures this.requested == requested && this.noCharge == noCharge
      ensures status == Queued && attempts == 0 && progress == 0 && results == 0
    {
      this.user, this.key, this.cost, this.requested, this.noCharge := user, key, cost, requested, noCharge;
      status, attempts, progress, results := Queued, 0, 0, 0;
    }

    function Stages(): Pos {
      OrderedStagesAreCanonical(requested);
      |OrderedStages(requested)|
    }

    /** The row as the protocol sees it, with the delivery in flight and the cancel flag. */
    function As(d: Delivery, flag: bool, seen: nat): Job
      reads this
    {
      Job(user, key, cost, Stages(), noCharge, status, attempts, progress, results, d, flag, seen, 0, false)
    }
  }

  /** The part of the protocol's state that one job and its user's book make up. */
  function Alone(maxRetries: nat, b: Book, job: Job): World {
    World(maxRetries, map[job.user := b], [job])
  }

  lemma AloneSettles(maxRetries: nat, b: Book, job: Job, op: Op, done: Job, lost: Job)
    requires done.user == job.user == lost.user
    ensures var r := Exec(b, op);
            Settle(Alone(maxRetries, b, job), 0, op, done, lost)
            == if r.outcome.Rejected? then Alone(maxRetries, b, lost) else Alone(maxRetries, r.book, done)
  {
    assert map[job.user := b][job.user := Exec(b, op).book] == map[job.user := Exec(b, op).book];
  }

  // ---------------------------------------------------------------------------------------------
  // Finalization functions
  // ---------------------------------------------------------------------------------------------

  method ClaimJob(job: JobRow, flagged: bool) returns (claimed: bool)
    modifies job
    ensures claimed == (!Terminal(old(job.status)) && !flagged)
    ensures !claimed ==> unchanged(job)
    ensures claimed ==> forall seen ::
                job.As(Looping(0, job.attempts), flagged, seen) == ClaimRow(old(job.As(Idle, flagged, seen)))
  {
    if job.status.Completed? || job.status.Cancelled? || job.status.Failed? { return false; }
    if flagged { return false; }
    job.status := Running;
    job.attempts := job.attempts + 1;
    claimed := true;
  }

  method SetProgress(job: JobRow, progress: nat)
    modifies job`progress
    ensures job.progress == Max(old(job.progress), progress)
  {
    job.progress := Max(job.progress, progress);
  }

  method DebitSync(db: CreditSession, job: JobRow) returns (out: Outcome)
    requires db.Valid()
    modifies db`balances, db`ledger, db.Rows()
    ensures db.Valid() && fresh(db.Rows() - old(db.Rows()))
    ensures unchanged(job)
    ensures Executed(db.BookOf(job.user), out) == Exec(old(db.BookOf(job.user)), DebitOp(job.As(Idle, false, 0)))
    ensures forall v :: v != job.user ==> db.BookOf(v) == old(db.BookOf(v))
  {
    var idem := Some(DebitKey(job.key));
    var existing := Find(LedgerOf(db.ledger, job.user), idem);
    if existing.Some? { return Existing(existing.value); }
    var bal := db.LockedBalance(job.user);
    out := db.FlushTxn(job.user, bal, bal.balance - job.cost, Max(0, bal.held - job.cost),
                       Txn(Kind.Debit, 0 - job.cost, 0, idem, None));
  }

  method RefundSync(db: CreditSession, job: JobRow) returns (out: Outcome)
    requires db.Valid()
    modifies db`balances, db`ledger, db.Rows()
    ensures db.Valid() && fresh(db.Rows() - old(db.Rows()))
    ensures unchanged(job)
    ensures Executed(db.BookOf(job.user), out) == Exec(old(db.BookOf(job.user)), RefundOp(job.As(Idle, false, 0)))
    ensures forall v :: v != job.user ==> db.BookOf(v) == old(db.BookOf(v))
  {
    var idem := Some(RefundKey(job.key));
    var existing := Find(LedgerOf(db.ledger, job.user), idem);
    if existing.Some? { return Existing(existing.value); }
    var bal := db.LockedBalance(job.user);
    out := db.FlushTxn(job.user, bal, bal.balance, Max(0, bal.held - job.cost),
                       Txn(Kind.Refund, 0, job.cost, idem, None));
  }

  /** Persist the primary image and the auxiliary ones, then charge and complete: one transaction.
      If the debit is refused nothing of it remains. */
  method FinalizeSuccess(db: CreditSession, job: JobRow, ctx: StageContext) returns (ok: bool)
    requires db.Valid() && ctx.image.Some?
    modifies db`balances, db`ledger, db.Rows(), job
    ensures db.Valid() && fresh(db.Rows() - old(db.Rows()))
    ensures var b, row := old(db.BookOf(job.user)), old(job.As(Idle, false, 0));
            && ok == (job.noCharge || !Exec(b, DebitOp(row)).outcome.Rejected?)
            && job.As(Idle, false, 0) == (if ok then CompleteRow(row, 1 + |ctx.extras|) else row)
            && db.BookOf(job.user) == (if job.noCharge then b else Exec(b, DebitOp(row)).book)
    ensures forall v :: v != job.user ==> db.BookOf(v) == old(db.BookOf(v))
  {
    var saved := job.results;
    job.results := job.results + 1;
    for i := 0 to |ctx.extras|
      invariant job.results == saved + 1 + i
      invariant job.status == old(job.status) && job.attempts == old(job.attempts) && job.progress == old(job.progress)
      modifies job
    {
      job.results := job.results + 1;
    }
    if !job.noCharge {
      var out := DebitSync(db, job);
      if out.Rejected? {
        job.results := saved;
        return false;
      }
    }
    job.status := Completed;
    job.progress := 100;
    ok := true;
  }

  /** `mark_cancelled` and `finalize_failure`: release the hold unless nothing was charged, then
      write the terminal status. */
  method ReleaseAndEnd(db: CreditSession, job: JobRow, status: Status)
    requires db.Valid() && 0 <= db.BookOf(job.user).acct.balance
    modifies db`balances, db`ledger, db.Rows(), job
    ensures db.Valid() && fresh(db.Rows() - old(db.Rows()))
    ensures var b, row := old(db.BookOf(job.user)), old(job.As(Idle, false, 0));
            && job.As(Idle, false, 0) == EndRow(row, status)
            && db.BookOf(job.user) == (if job.noCharge then b else Exec(b, RefundOp(row)).book)
    ensures forall v :: v != job.user ==> db.BookOf(v) == old(db.BookOf(v))
  {
    if !job.noCharge {
      var out := RefundSync(db, job);
    }
    job.status := status;
  }

  // ---------------------------------------------------------------------------------------------
  // One delivery
  // ---------------------------------------------------------------------------------------------

  datatype Returned =
    | RequeuedNoCapacity
    | Skipped
    | StoppedByCancel
    | Finished
    | RetryScheduled(delay: nat)
    | GaveUp
    | DebitRefused            // the exception leaves `run_job`

  function Pow2(n: nat): nat { if n == 0 then 1 else 2 * Pow2(n - 1) }

  /** The base delay doubled as often as there were attempts. */
  function RetryDelay(base: nat, attempts: nat): nat {
    if attempts == 0 then base else 2 * RetryDelay(base, attempts - 1)
  }

  lemma {:induction false} RetryDelayIsPower(base: nat, attempts: nat)
    ensures RetryDelay(base, attempts) == base * Pow2(attempts)
  {
    if attempts > 0 {
      RetryDelayIsPower(base, attempts - 1);
      TwiceProduct(base, Pow2(attempts - 1));
    }
  }

  lemma TwiceProduct(base: nat, p: nat)
    ensures base * (2 * p) == 2 * (base * p)
  {}

  /** The worker's settings and the answers it gets while it works: whether the GPU has room, what
      each poll of the cancel flag reads (the first by the claim, then one before each stage), and
      what the models answer to each attempt at each stage. */
  datatype Setting = Setting(maxRetries: nat, baseDelay: nat, sdTurbo: bool, hasReference: bool,
                             capacity: bool, flagged: nat -> bool, ask: nat -> nat -> Answers)

  function ConditionsOf(cfg: Setting, requested: seq<Requested>): Conditions {
    Conditions(OrderedStages(requested), cfg.hasReference, cfg.sdTurbo)
  }

  /** How the stage loop ends. */
  datatype LoopEnd = AllPassed(images: Images) | SawFlag(stage: nat) | StageRaised(stage: nat, error: StageError)

  /** Every stage before `n` was polled for, not cancelled, and passed. */
  ghost predicate Cleared(cfg: Setting, rs: seq<Ran>, n: nat)
    requires n <= |rs|
  {
    PassedThrough(rs, n) && forall i :: 1 <= i <= n ==> !cfg.flagged(i)
  }

  /** The end that the polls and the stages' results call for. */
  ghost predicate EndsAs(cfg: Setting, rs: seq<Ran>, end: LoopEnd) {
    match end
    case AllPassed(im) => Cleared(cfg, rs, |rs|) && im == ImagesAfter(rs)
    case SawFlag(i) => i < |rs| && Cleared(cfg, rs, i) && cfg.flagged(i + 1)
    case StageRaised(i, e) => i < |rs| && Cleared(cfg, rs, i) && !cfg.flagged(i + 1) && rs[i].result == Raised(e)
  }

  /** There is only one such end, so what a delivery does is determined by its answers. */
  lemma EndIsUnique(cfg: Setting, rs: seq<Ran>, a: LoopEnd, b: LoopEnd)
    requires EndsAs(cfg, rs, a) && EndsAs(cfg, rs, b)
    ensures a == b
  {
    ClearedUpTo(cfg, rs, a, if b.AllPassed? then |rs| else b.stage);
    ClearedUpTo(cfg, rs, b, if a.AllPassed? then |rs| else a.stage);
  }

  /** No stage is cleared beyond the one where the loop ends. */
  lemma ClearedUpTo(cfg: Setting, rs: seq<Ran>, end: LoopEnd, n: nat)
    requires EndsAs(cfg, rs, end) && n <= |rs| && Cleared(cfg, rs, n)
    ensures n <= if end.AllPassed? then |rs| else end.stage
  {}

  lemma ClearedNext(cfg: Setting, rs: seq<Ran>, i: nat)
    requires i < |rs| && Cleared(cfg, rs, i) && !cfg.flagged(i + 1) && rs[i].result.Passed?
    ensures Cleared(cfg, rs, i + 1) && ImagesAfter(rs[..i + 1]) == rs[i].images
  {}

  /** What the stages of a delivery make of the answers they get. */
  function RunsOf(cfg: Setting, requested: seq<Requested>): seq<Ran> {
    StageRuns(ConditionsOf(cfg, requested), cfg.ask)
  }

  /** The run recorded so far has led to this row and this book. */
  ghost predicate Reached(w0: World, trace: seq<Step>, maxRetries: nat, b: Book, row: Job) {
    RunFrom(w0, trace) == Alone(maxRetries, b, row)
  }

  lemma Extend(w0: World, trace: seq<Step>, n: nat, b: Book, row: Job, s: Step, b': Book, row': Job)
    requires Reached(w0, trace, n, b, row)
    requires Next(Alone(n, b, row), s) == Alone(n, b', row')
    ensures Reached(w0, trace + [s], n, b', row')
  {
    Settlement.RunFromStep(w0, trace, s);
  }

  lemma ExtendClaim(w0: World, trace: seq<Step>, n: nat, b: Book, row: Job)
    requires Reached(w0, trace, n, b, row) && row.worker.Idle? && Claimable(row)
    ensures Reached(w0, trace + [Claim(0)], n, b, ClaimRow(row))
  {
    Extend(w0, trace, n, b, row, Claim(0), b, ClaimRow(row));
  }

  lemma ExtendStage(w0: World, trace: seq<Step>, n: nat, b: Book, row: Job, e: Ending)
    requires Reached(w0, trace, n, b, row) && row.worker.Looping? && !row.flag
    ensures Reached(w0, trace + [Poll(0)] + [StageEnds(0, e)], n, b, AfterStage(row, e))
  {
    ExtendPoll(w0, trace, n, b, row);
    ExtendEnd(w0, trace + [Poll(0)], n, b, Polled(row), e);
  }

  ghost function Polled(row: Job): Job
    requires row.worker.Looping?
  {
    row.(worker := if row.flag then Stopping(row.worker.tries) else InStage(row.worker.stage, row.worker.tries))
  }

  lemma ExtendPoll(w0: World, trace: seq<Step>, n: nat, b: Book, row: Job)
    requires Reached(w0, trace, n, b, row) && row.worker.Looping?
    ensures Reached(w0, trace + [Poll(0)], n, b, Polled(row))
  {
    Extend(w0, trace, n, b, row, Poll(0), b, Polled(row));
  }

  lemma ExtendEnd(w0: World, trace: seq<Step>, n: nat, b: Book, row: Job, e: Ending)
    requires Reached(w0, trace, n, b, row) && row.worker.InStage?
    ensures Reached(w0, trace + [StageEnds(0, e)], n, b,
                    row.(worker := if e.Succeeds? then Saving(row.worker.stage, row.worker.tries)
                                   else Failing(e.FailsTransiently?, row.worker.tries)))
  {
    Extend(w0, trace, n, b, row, StageEnds(0, e), b,
           row.(worker := if e.Succeeds? then Saving(row.worker.stage, row.worker.tries)
                          else Failing(e.FailsTransiently?, row.worker.tries)));
  }

  ghost function AfterStage(row: Job, e: Ending): Job
    requires row.worker.Looping?
  {
    row.(worker := if e.Succeeds? then Saving(row.worker.stage, row.worker.tries)
                   else Failing(e.FailsTransiently?, row.worker.tries))
  }

  lemma ExtendSave(w0: World, trace: seq<Step>, n: nat, b: Book, row: Job)
    requires Reached(w0, trace, n, b, row) && row.worker.Saving?
    ensures Reached(w0, trace + [Save(0)], n, b, SaveRow(row, row.worker.stage, row.worker.tries))
  {
    Extend(w0, trace, n, b, row, Save(0), b, SaveRow(row, row.worker.stage, row.worker.tries));
  }

  lemma ExtendFail(w0: World, trace: seq<Step>, n: nat, b: Book, row: Job)
    requires Reached(w0, trace, n, b, row) && row.worker.Failing? && 0 <= b.acct.balance
    ensures Reached(w0, trace + [Fail(0)], n,
                    if Retries(row, n) || row.noCharge then b else Exec(b, RefundOp(row)).book,
                    EndRow(row, if Retries(row, n) then Queued else Failed))
  {
    AloneSettles(n, b, row, RefundOp(row), EndRow(row, Failed), row.(worker := Idle));
    Extend(w0, trace, n, b, row, Fail(0),
           if Retries(row, n) || row.noCharge then b else Exec(b, RefundOp(row)).book,
           EndRow(row, if Retries(row, n) then Queued else Failed));
  }

  lemma ExtendFinalize(w0: World, trace: seq<Step>, n: nat, b: Book, row: Job, outputs: Pos)
    requires Reached(w0, trace, n, b, row) && row.worker.Finishing?
    ensures var refused := !row.noCharge && Exec(b, DebitOp(row)).outcome.Rejected?;
            Reached(w0, trace + [Step.Finalize(0, outputs)], n,
                    if row.noCharge then b else Exec(b, DebitOp(row)).book,
                    if refused then row.(worker := Idle) else CompleteRow(row, outputs))
  {
    var refused := !row.noCharge && Exec(b, DebitOp(row)).outcome.Rejected?;
    AloneSettles(n, b, row, DebitOp(row), CompleteRow(row, outputs), row.(worker := Idle));
    Extend(w0, trace, n, b, row, Step.Finalize(0, outputs),
           if row.noCharge then b else Exec(b, DebitOp(row)).book,
           if refused then row.(worker := Idle) else CompleteRow(row, outputs));
  }

  /** A poll finds the flag newly raised: a cancel was accepted, the poll sees it, the worker
      releases the hold. */
  lemma ExtendStop(w0: World, trace: seq<Step>, n: nat, b: Book, row: Job)
    requires Reached(w0, trace, n, b, row)
    requires row.worker.Looping? && !row.flag && row.seen == 0 && !Terminal(row.status) && 0 <= b.acct.balance
    ensures Reached(w0, trace + [AcceptCancel(0, row.user, false, true)] + [Poll(0)] + [MarkCancelled(0)], n,
                    if row.noCharge then b else Exec(b, RefundOp(row)).book,
                    EndRow(row, Cancelled).(flag := true, seen := 1))
  {
    var accept := AcceptCancel(0, row.user, false, true);
    var flagged := row.(flag := true, seen := 1);
    ExtendAccept(w0, trace, n, b, row);
    ExtendPoll(w0, trace + [accept], n, b, flagged);
    ExtendMark(w0, trace + [accept] + [Poll(0)], n, b, Polled(flagged));
  }

  lemma ExtendAccept(w0: World, trace: seq<Step>, n: nat, b: Book, row: Job)
    requires Reached(w0, trace, n, b, row)
    requires row.worker.Looping? && row.seen == 0 && !Terminal(row.status)
    ensures Reached(w0, trace + [AcceptCancel(0, row.user, false, true)], n, b, row.(flag := true, seen := 1))
  {
    Extend(w0, trace, n, b, row, AcceptCancel(0, row.user, false, true), b, row.(flag := true, seen := 1));
  }

  lemma ExtendMark(w0: World, trace: seq<Step>, n: nat, b: Book, row: Job)
    requires Reached(w0, trace, n, b, row) && row.worker.Stopping? && 0 <= b.acct.balance
    ensures Reached(w0, trace + [MarkCancelled(0)], n,
                    if row.noCharge then b else Exec(b, RefundOp(row)).book, EndRow(row, Cancelled))
  {
    AloneSettles(n, b, row, RefundOp(row), EndRow(row, Cancelled), row.(worker := Idle));
    Extend(w0, trace, n, b, row, MarkCancelled(0),
           if row.noCharge then b else Exec(b, RefundOp(row)).book, EndRow(row, Cancelled));
  }

  // ---------------------------------------------------------------------------------------------
  // One delivery as a run of the protocol
  // ---------------------------------------------------------------------------------------------

  /** The stage at which the loop ended; `n` when it ran through all of them. */
  function EndStage(end: LoopEnd, n: nat): nat { if end.AllPassed? then n else end.stage }

  /** A claimed row after `k` stages were passed and their progress saved. */
  function Swept(row: Job, k: nat): (swept: Job)
    requires row.worker.Looping?
    ensures swept.stages == row.stages
  {
    if k == 0 then row else SaveRow(Swept(row, k - 1), k - 1, row.worker.tries)
  }

  /** What a delivery returns and leaves behind. */
  datatype Delivered = Delivered(ret: Returned, book: Book, row: Job)

  /** How a delivery concludes once its loop has ended with this row. */
  function Conclusion(cfg: Setting, b: Book, row: Job, end: LoopEnd, tries: nat): Delivered {
    var released := if row.noCharge then b else Exec(b, RefundOp(row)).book;
    match end
    case SawFlag(_) => Delivered(StoppedByCancel, released, EndRow(row, Cancelled).(flag := true, seen := 1))
    case StageRaised(_, e) =>
      if e.transient && tries < cfg.maxRetries
      then Delivered(RetryScheduled(RetryDelay(cfg.baseDelay, tries)), b, EndRow(row, Queued))
      else Delivered(GaveUp, released, EndRow(row, Failed))
    case AllPassed(im) =>
      if row.noCharge then Delivered(Finished, b, CompleteRow(row, 1 + |im.extras|))
      else if Exec(b, DebitOp(row)).outcome.Rejected? then Delivered(DebitRefused, b, row.(worker := Idle))
      else Delivered(Finished, Exec(b, DebitOp(row)).book, CompleteRow(row, 1 + |im.extras|))
  }

  /** A whole delivery of an unclaimed row that may be claimed. */
  function AfterDelivery(cfg: Setting, b: Book, row: Job, end: LoopEnd): Delivered {
    var claimed := ClaimRow(row);
    Conclusion(cfg, b, Swept(claimed, EndStage(end, row.stages)), end, claimed.attempts)
  }

  /** The conclusion depends on what the sweep left in the row, not on where the delivery was. */
  lemma AfterDeliveryFrom(cfg: Setting, b: Book, row: Job, end: LoopEnd, mid: Job)
    requires row.worker.Idle? && EndStage(end, row.stages) <= row.stages
    requires mid == ClaimRow(row).(progress := Swept(ClaimRow(row), EndStage(end, row.stages)).progress, worker := Idle)
    ensures AfterDelivery(cfg, b, row, end) == Conclusion(cfg, b, mid, end, row.attempts + 1)
  {
    SweptAt(ClaimRow(row), EndStage(end, row.stages));
  }

  /** The book with the one settlement that a completed or failed job calls for. */
  function SettledBook(b: Book, key: string, cost: nat, noCharge: bool, completed: bool): Book {
    if noCharge then b
    else Exec(b, if completed then OpDebit(cost, Some(DebitKey(key))) else OpRefund(cost, Some(RefundKey(key)))).book
  }

  /** A delivery that saw no cancel and can be paid for is retried or settles the job. */
  lemma AfterDeliveryFacts(cfg: Setting, b: Book, row: Job, end: LoopEnd)
    requires row.worker.Idle? && EndStage(end, row.stages) <= row.stages && !end.SawFlag?
    requires row.cost <= b.acct.balance
    ensures var d, tries := AfterDelivery(cfg, b, row, end), row.attempts + 1;
            && d.row.attempts == tries
            && (!d.ret.RetryScheduled? ==> d.book == SettledBook(b, row.key, row.cost, row.noCharge, end.AllPassed?))
            && (if end.AllPassed? then d.ret == Finished && d.row.status == Completed
                else if end.error.transient && tries < cfg.maxRetries
                then d.ret == RetryScheduled(RetryDelay(cfg.baseDelay, tries)) && d.row.status == Queued && d.book == b
                else d.ret == GaveUp && d.row.status == Failed)
  {
    SweptAt(ClaimRow(row), EndStage(end, row.stages));
  }

  lemma DividesUp(a: int, b: int, n: int)
    requires a <= b && 0 < n
    ensures a / n <= b / n
  {
    var more := b / n - a / n;
    assert b - a == n * more + b % n - a % n;
    assert more < 0 ==> n * more + n <= 0;
  }

  /** Passing `k` of `n` stages saves `k * 95 / n` percent, unless more was saved before. */
  lemma {:induction false} SweptProgress(row: Job, k: nat)
    requires row.worker.Looping?
    ensures Swept(row, k).progress == if k == 0 then row.progress else Max(row.progress, k * 95 / row.stages)
  {
    if k > 0 {
      SweptProgress(row, k - 1);
      DividesUp((k - 1) * 95, k * 95, row.stages);
    }
  }

  /** A released hold: the refund row is there, and the cost is off what is held unless it was there before. */
  predicate Released(b: Book, b': Book, row: Job) {
    if row.noCharge || HasKey(b.ledger, RefundKey(row.key)) then b' == b
    else
      && HasKey(b'.ledger, RefundKey(row.key)) && b'.acct.balance == b.acct.balance
      && b'.acct.held == Max(0, b.acct.held - row.cost)
  }

  predicate Charged(b: Book, b': Book, row: Job) {
    if row.noCharge || HasKey(b.ledger, DebitKey(row.key)) then b' == b
    else
      && HasKey(b'.ledger, DebitKey(row.key)) && b'.acct.balance == b.acct.balance - row.cost
      && b'.acct.held == Max(0, b.acct.held - row.cost)
  }

  predicate DebitFails(b: Book, row: Job) {
    !row.noCharge && !HasKey(b.ledger, DebitKey(row.key)) && b.acct.balance < row.cost
  }

  /** Everything that a delivery returns and leaves, by how its loop ended: status, results, progress, the
      delay of a retry, and what became of the reservation. */
  lemma DeliveryOutcome(cfg: Setting, b: Book, row: Job, end: LoopEnd)
    requires row.worker.Idle? && 0 <= b.acct.balance && EndStage(end, row.stages) <= row.stages
    ensures var d, tries, passed := AfterDelivery(cfg, b, row, end), row.attempts + 1, EndStage(end, row.stages);
            var progress := if passed == 0 then row.progress else Max(row.progress, passed * 95 / row.stages);
            && d.row == row.(status := d.row.status, attempts := tries, progress := d.row.progress,
                             results := d.row.results, flag := d.row.flag, seen := d.row.seen)
            && d.row.results == row.results + (if d.ret.Finished? then 1 + |end.images.extras| else 0)
            && d.row.progress == (if d.ret.Finished? then 100 else progress)
            && match end
               case SawFlag(_) => d.ret == StoppedByCancel && d.row.status == Cancelled && Released(b, d.book, row)
               case StageRaised(_, e) =>
                 if e.transient && tries < cfg.maxRetries
                 then d.ret == RetryScheduled(cfg.baseDelay * Pow2(tries)) && d.row.status == Queued && d.book == b
                 else d.ret == GaveUp && d.row.status == Failed && Released(b, d.book, row)
               case AllPassed(_) =>
                 if DebitFails(b, row) then d.ret == DebitRefused && d.row.status == Running && d.book == b
                 else d.ret == Finished && d.row.status == Completed && Charged(b, d.book, row)
  {
    var k := EndStage(end, row.stages);
    SweptAt(ClaimRow(row), k);
    SweptProgress(ClaimRow(row), k);
    RetryDelayIsPower(cfg.baseDelay, row.attempts + 1);
    RefundReleases(b, row);
    DebitCharges(b, row);
  }

  lemma RefundReleases(b: Book, row: Job)
    requires 0 <= b.acct.balance
    ensures Released(b, if row.noCharge then b else Exec(b, RefundOp(row)).book, row)
  {
    var op := RefundOp(row);
    if Exec(b, op).outcome.Applied? { AppendFacts(b.ledger, Exec(b, op).outcome.txn); }
  }

  lemma DebitCharges(b: Book, row: Job)
    requires 0 <= b.acct.balance
    ensures !row.noCharge ==> (Exec(b, DebitOp(row)).outcome.Rejected? <==> DebitFails(b, row))
    ensures !DebitFails(b, row) ==> Charged(b, if row.noCharge then b else Exec(b, DebitOp(row)).book, row)
  {
    var op := DebitOp(row);
    if Exec(b, op).outcome.Applied? { AppendFacts(b.ledger, Exec(b, op).outcome.txn); }
  }

  function SweepSteps(k: nat): seq<Step> {
    if k == 0 then [Claim(0)] else SweepSteps(k - 1) + [Poll(0)] + [StageEnds(0, Succeeds)] + [Save(0)]
  }

  /** The protocol steps of a delivery. The cancel request in them is the one whose flag a poll found
      newly raised. */
  function DeliverySteps(row: Job, end: LoopEnd): seq<Step> {
    var swept := SweepSteps(EndStage(end, row.stages));
    match end
    case SawFlag(_) => swept + [AcceptCancel(0, row.user, false, true)] + [Poll(0)] + [MarkCancelled(0)]
    case StageRaised(_, e) =>
      swept + [Poll(0)] + [StageEnds(0, if e.transient then FailsTransiently else FailsHard)] + [Fail(0)]
    case AllPassed(im) => swept + [Step.Finalize(0, 1 + |im.extras|)]
  }

  lemma {:induction false} SweepIsRun(n: nat, b: Book, row: Job, k: nat)
    requires row.worker.Idle? && Claimable(row) && k <= row.stages
    ensures Reached(Alone(n, b, row), SweepSteps(k), n, b, Swept(ClaimRow(row), k))
  {
    var w0, claimed := Alone(n, b, row), ClaimRow(row);
    if k == 0 {
      ExtendClaim(w0, [], n, b, row);
      assert SweepSteps(0) == [] + [Claim(0)];
    } else {
      SweepIsRun(n, b, row, k - 1);
      SweptAt(claimed, k - 1);
      ExtendPassed(w0, SweepSteps(k - 1), n, b, Swept(claimed, k - 1));
    }
  }

  lemma ExtendPassed(w0: World, trace: seq<Step>, n: nat, b: Book, row: Job)
    requires Reached(w0, trace, n, b, row) && row.worker.Looping? && !row.flag
    ensures Reached(w0, trace + [Poll(0)] + [StageEnds(0, Succeeds)] + [Save(0)], n, b,
                    SaveRow(row, row.worker.stage, row.worker.tries))
  {
    ExtendStage(w0, trace, n, b, row, Succeeds);
    ExtendSave(w0, trace + [Poll(0)] + [StageEnds(0, Succeeds)], n, b, AfterStage(row, Succeeds));
  }

  /** After `k` stages the row differs from the claimed one in its progress and its place only. */
  lemma {:induction false} SweptAt(row: Job, k: nat)
    requires row.worker.Looping? && row.worker.stage == 0 && k <= row.stages
    ensures Swept(row, k)
            == row.(progress := Swept(row, k).progress, worker := AtStage(k, row.stages, row.worker.tries))
  {
    if k > 0 { SweptAt(row, k - 1); }
  }

  function AtStage(index: nat, total: nat, tries: nat): Delivery {
    if index < total then Looping(index, tries) else Finishing(tries)
  }

  lemma DeliveryIsRunAlone(cfg: Setting, b: Book, row: Job, end: LoopEnd)
    requires row.worker.Idle? && Claimable(row) && row.seen == 0 && 0 <= b.acct.balance
    requires !end.AllPassed? ==> end.stage < row.stages
    ensures var d := AfterDelivery(cfg, b, row, end);
            RunFrom(Alone(cfg.maxRetries, b, row), DeliverySteps(row, end)) == Alone(cfg.maxRetries, d.book, d.row)
  {
    var w0, k, n := Alone(cfg.maxRetries, b, row), EndStage(end, row.stages), cfg.maxRetries;
    SweepIsRun(n, b, row, k);
    SweptAt(ClaimRow(row), k);
    var at := Swept(ClaimRow(row), k);
    match end
    case SawFlag(_) => ExtendStop(w0, SweepSteps(k), n, b, at);
    case StageRaised(_, e) =>
      var ending := if e.transient then FailsTransiently else FailsHard;
      ExtendStage(w0, SweepSteps(k), n, b, at, ending);
      ExtendFail(w0, SweepSteps(k) + [Poll(0)] + [StageEnds(0, ending)], n, b, AfterStage(at, ending));
    case AllPassed(im) => ExtendFinalize(w0, SweepSteps(k), n, b, at, 1 + |im.extras|);
  }

  lemma {:induction false} SweepIsOfJob0(k: nat)
    ensures AllOfJob0(SweepSteps(k))
  {
    if k > 0 { SweepIsOfJob0(k - 1); }
  }

  lemma DeliveryIsOfJob0(row: Job, end: LoopEnd)
    ensures AllOfJob0(DeliverySteps(row, end))
  {
    SweepIsOfJob0(EndStage(end, row.stages));
  }

  /** A delivery is a run of the protocol. In any world, its steps, taken for job `j`, lead to the row
      and the user's book that the delivery leaves, and change no other job and no other book. */
  lemma DeliveryIsRun(cfg: Setting, w: World, j: nat, end: LoopEnd)
    requires j < |w.jobs| && w.maxRetries == cfg.maxRetries
    requires var row := w.jobs[j];
             && row.worker.Idle? && Claimable(row) && row.seen == 0
             && 0 <= BookAt(w, row.user).acct.balance
             && (!end.AllPassed? ==> end.stage < row.stages)
    ensures AllOfJob0(DeliverySteps(w.jobs[j], end))
    ensures var row, u := w.jobs[j], w.jobs[j].user;
            var w', d := RunFrom(w, AimAll(DeliverySteps(row, end), j)), AfterDelivery(cfg, BookAt(w, u), row, end);
            && w'.jobs == w.jobs[j := d.row]
            && BookAt(w', u) == d.book
            && (forall v :: v != u ==> BookAt(w', v) == BookAt(w, v))
  {
    var row, b := w.jobs[j], BookAt(w, w.jobs[j].user);
    DeliveryIsOfJob0(row, end);
    DeliveryIsRunAlone(cfg, b, row, end);
    SameUser(cfg, b, row, end);
    RunMirrors(w, Alone(cfg.maxRetries, b, row), j, DeliverySteps(row, end));
  }

  lemma SameUser(cfg: Setting, b: Book, row: Job, end: LoopEnd)
    requires row.worker.Idle? && EndStage(end, row.stages) <= row.stages
    ensures AfterDelivery(cfg, b, row, end).row.user == row.user
  {
    SweptAt(ClaimRow(row), EndStage(end, row.stages));
  }

  // ---------------------------------------------------------------------------------------------
  // The worker
  // ---------------------------------------------------------------------------------------------

  /** `_handle_failure`: reschedule a transient failure while attempts remain, else give up. */
  method HandleFailure(db: CreditSession, job: JobRow, cfg: Setting, transient: bool, tries: nat)
    returns (ret: Returned)
    requires db.Valid() && 0 <= db.BookOf(job.user).acct.balance
    modifies db`balances, db`ledger, db.Rows(), job
    ensures db.Valid() && fresh(db.Rows() - old(db.Rows()))
    ensures var b, row := old(db.BookOf(job.user)), old(job.As(Idle, false, 0));
            var again := transient && tries < cfg.maxRetries;
            && ret == (if again then RetryScheduled(RetryDelay(cfg.baseDelay, tries)) else GaveUp)
            && job.As(Idle, false, 0) == EndRow(row, if again then Queued else Failed)
            && db.BookOf(job.user) == (if again || job.noCharge then b else Exec(b, RefundOp(row)).book)
    ensures forall v :: v != job.user ==> db.BookOf(v) == old(db.BookOf(v))
  {
    if transient && tries < cfg.maxRetries {
      job.status := Queued;
      RetryDelayIsPower(cfg.baseDelay, tries);
      ret := RetryScheduled(cfg.baseDelay * Pow2(tries));
    } else {
      ReleaseAndEnd(db, job, Failed);
      ret := GaveUp;
    }
  }

  /** The stage loop of `run_job`: poll, run the stage, save progress, until a poll sees a cancel, a
      stage raises, or the stages are done. */
  method RunStages(job: JobRow, cfg: Setting, ctx: StageContext, tries: nat) returns (end: LoopEnd)
    requires ctx.c == ConditionsOf(cfg, job.requested) && ctx.Value() == NO_IMAGES
    modifies ctx, job`progress
    ensures EndsAs(cfg, RunsOf(cfg, job.requested), end)
    ensures end.AllPassed? ==> ctx.Value() == end.images
    ensures job.progress == Swept(old(job.As(Looping(0, tries), false, 0)), EndStage(end, job.Stages())).progress
  {
    OrderedStagesAreCanonical(job.requested);
    var stages := ctx.c.stages;
    ghost var rs, row := RunsOf(cfg, job.requested), job.As(Looping(0, tries), false, 0);
    for index := 0 to |stages|
      invariant Cleared(cfg, rs, index) && ctx.Value() == ImagesAfter(rs[..index])
      invariant job.progress == Swept(row, index).progress
    {
      if cfg.flagged(index + 1) { return SawFlag(index); }
      var out := RunAt(ctx, cfg, index);
      if out.Raised? { return StageRaised(index, out.error); }
      SweptAt(row, index);
      SetProgress(job, StagePercent(index + 1, |stages|));
      ClearedNext(cfg, rs, index);
    }
    assert rs[..|stages|] == rs;
    end := AllPassed(ctx.Value());
  }

  method RunAt(ctx: StageContext, cfg: Setting, index: nat) returns (out: StageResult)
    requires index < |ctx.c.stages|
    requires ctx.Value() == ImagesAfter(StageRuns(ctx.c, cfg.ask)[..index])
    modifies ctx
    ensures Ran(out, ctx.Value()) == StageRuns(ctx.c, cfg.ask)[index]
  {
    StageRunsAt(ctx.c, cfg.ask, index);
    var ran, _, _ := ctx.RunStage(ctx.c.stages[index], cfg.ask(index));
    out := ran;
  }

  /** `run_job`. `end` says how the stage loop ended. A call that claims the job is a delivery, and so
      a run of the protocol. */
  method RunJob(db: CreditSession, job: JobRow, cfg: Setting) returns (ret: Returned, ghost end: LoopEnd)
    requires db.Valid() && 0 <= db.BookOf(job.user).acct.balance
    modifies db`balances, db`ledger, db.Rows(), job
    ensures db.Valid() && fresh(db.Rows() - old(db.Rows()))
    ensures ret.RequeuedNoCapacity? <==> !cfg.capacity
    ensures ret.Skipped? <==> cfg.capacity && (Terminal(old(job.status)) || cfg.flagged(0))
    ensures ret.RequeuedNoCapacity? || ret.Skipped? ==>
              unchanged(job) && db.BookOf(job.user) == old(db.BookOf(job.user))
    ensures !ret.RequeuedNoCapacity? && !ret.Skipped? ==>
              && EndsAs(cfg, RunsOf(cfg, job.requested), end)
              && Left(db, job, ret, end)
                    == AfterDelivery(cfg, old(db.BookOf(job.user)), old(job.As(Idle, false, 0)), end)
    ensures forall v :: v != job.user ==> db.BookOf(v) == old(db.BookOf(v))
  {
    end := SawFlag(0);
    ghost var start := job.As(Idle, false, 0);
    if !cfg.capacity { return RequeuedNoCapacity, end; }
    var claimed := ClaimJob(job, cfg.flagged(0));
    if !claimed { return Skipped, end; }
    ghost var b := db.BookOf(job.user);
    ret, end := Work(db, job, cfg);
    AfterDeliveryFrom(cfg, b, start, end, AtLoopEnd(ClaimRow(start), end));
  }

  /** The claimed row as the loop leaves it. */
  ghost function AtLoopEnd(row: Job, end: LoopEnd): Job
    requires row.worker.Looping?
  {
    row.(progress := Swept(row, EndStage(end, row.stages)).progress, worker := Idle)
  }

  /** What `run_job` does once it has claimed the job. */
  method Work(db: CreditSession, job: JobRow, cfg: Setting) returns (ret: Returned, ghost end: LoopEnd)
    requires db.Valid() && 0 <= db.BookOf(job.user).acct.balance
    modifies db`balances, db`ledger, db.Rows(), job
    ensures db.Valid() && fresh(db.Rows() - old(db.Rows()))
    ensures EndsAs(cfg, RunsOf(cfg, job.requested), end) && (end.AllPassed? || end.stage < job.Stages())
    ensures var row := old(job.As(Looping(0, job.attempts), false, 0));
            Left(db, job, ret, end)
              == Conclusion(cfg, old(db.BookOf(job.user)), AtLoopEnd(row, end), end, old(job.attempts))
    ensures forall v :: v != job.user ==> db.BookOf(v) == old(db.BookOf(v))
  {
    var ctx := new StageContext(ConditionsOf(cfg, job.requested));
    var ended := RunStages(job, cfg, ctx, job.attempts);
    ret := Conclude(db, job, cfg, ctx, ended, job.attempts);
    end := ended;
  }

  /** What a delivery left of the job and its user's book. */
  ghost function Left(db: CreditSession, job: JobRow, ret: Returned, end: LoopEnd): Delivered
    reads db, set v | v in db.balances :: db.balances[v], job
  {
    Delivered(ret, db.BookOf(job.user), job.As(Idle, end.SawFlag?, if end.SawFlag? then 1 else 0))
  }

  /** What `run_job` does after its loop. */
  method Conclude(db: CreditSession, job: JobRow, cfg: Setting, ctx: StageContext, end: LoopEnd, tries: nat)
    returns (ret: Returned)
    requires db.Valid() && 0 <= db.BookOf(job.user).acct.balance
    requires ctx.c == ConditionsOf(cfg, job.requested) && EndsAs(cfg, RunsOf(cfg, job.requested), end)
    requires end.AllPassed? ==> ctx.Value() == end.images
    modifies db`balances, db`ledger, db.Rows(), job
    ensures db.Valid() && fresh(db.Rows() - old(db.Rows()))
    ensures Left(db, job, ret, end)
              == Conclusion(cfg, old(db.BookOf(job.user)), old(job.As(Idle, false, 0)), end, tries)
    ensures forall v :: v != job.user ==> db.BookOf(v) == old(db.BookOf(v))
  {
    match end
    case SawFlag(_) =>
      ReleaseAndEnd(db, job, Cancelled);
      ret := StoppedByCancel;
    case StageRaised(_, e) =>
      ret := HandleFailure(db, job, cfg, e.transient, tries);
    case AllPassed(_) =>
      OrderedStagesAreCanonical(job.requested);
      ImageAlwaysThere(job.requested, ctx.c, cfg.ask, |ctx.c.stages| - 1);
      var ok := FinalizeSuccess(db, job, ctx);
      ret := if ok then Finished else DebitRefused;
  }

  // ---------------------------------------------------------------------------------------------
  // Whole-job retry
  // ---------------------------------------------------------------------------------------------

  /** How delivery number `k` of the job ended. */
  ghost predicate EndedAs(cfg: Setting, requested: seq<Requested>, answers: nat -> nat -> nat -> Answers,
                          k: nat, end: LoopEnd)
  {
    EndsAs(cfg.(ask := answers(k)), RunsOf(cfg.(ask := answers(k)), requested), end)
  }

  ghost predicate RaisedTransiently(cfg: Setting, requested: seq<Requested>, answers: nat -> nat -> nat -> Answers,
                                    k: nat)
  {
    exists end :: EndedAs(cfg, requested, answers, k, end) && end.StageRaised? && end.error.transient
  }

  /** The first `n` deliveries raised transient errors. */
  ghost predicate AllRetried(cfg: Setting, requested: seq<Requested>, answers: nat -> nat -> nat -> Answers, n: nat) {
    forall k :: 0 <= k < n ==> RaisedTransiently(cfg, requested, answers, k)
  }

  /** The last of `claims` deliveries ended like this, and only that one was not to be retried. */
  ghost predicate Retried(cfg: Setting, requested: seq<Requested>, answers: nat -> nat -> nat -> Answers,
                          claims: nat, end: LoopEnd)
  {
    && 1 <= claims
    && AllRetried(cfg, requested, answers, claims - 1)
    && EndedAs(cfg, requested, answers, claims - 1, end)
    && (end.AllPassed? || (end.StageRaised? && (end.error.transient ==> cfg.maxRetries <= claims)))
  }

  /** Deliver a queued job again for as long as the worker reschedules it. With room on the GPU, no
      cancel, one delivery at a time and funds for the charge, the job is claimed at most
      max(1, JOB_MAX_RETRIES) times, the scheduled delays stay within base * (2^max - 2), and it
      ends COMPLETED or FAILED, debited or refunded once: every delivery but the last failed
      transiently, and the last one passed all stages, or failed for good, or was the last allowed.
      The measure is the number of attempts left. */
  method DeliverUntilDone(db: CreditSession, job: JobRow, cfg: Setting, answers: nat -> nat -> nat -> Answers)
    returns (claims: nat, delayed: nat, ghost end: LoopEnd)
    requires db.Valid() && job.cost <= db.BookOf(job.user).acct.balance
    requires job.status == Queued && job.attempts == 0
    requires cfg.capacity && forall i :: !cfg.flagged(i)
    modifies db`balances, db`ledger, db.Rows(), job
    ensures db.Valid()
    ensures claims == job.attempts && 1 <= claims <= Max(1, cfg.maxRetries)
    ensures Retried(cfg, job.requested, answers, claims, end)
    ensures StatusAndBook(db, job) == SettledAs(old(db.BookOf(job.user)), job, end)
    ensures delayed == cfg.baseDelay * (Pow2(claims) - 2)
    ensures 1 <= cfg.maxRetries ==> delayed <= cfg.baseDelay * (Pow2(cfg.maxRetries) - 2)
    ensures cfg.maxRetries == 0 ==> delayed == 0
  {
    claims, delayed, end := DeliverFrom(db, job, cfg, answers, 0, db.BookOf(job.user));
    BackoffBound(cfg.baseDelay, claims, Max(1, cfg.maxRetries));
  }

  lemma RetriedNext(cfg: Setting, requested: seq<Requested>, answers: nat -> nat -> nat -> Answers,
                    k: nat, end: LoopEnd)
    requires AllRetried(cfg, requested, answers, k) && EndedAs(cfg, requested, answers, k, end)
    ensures end.StageRaised? && end.error.transient ==> AllRetried(cfg, requested, answers, k + 1)
    ensures end.AllPassed? || (end.StageRaised? && (end.error.transient ==> cfg.maxRetries <= k + 1)) ==>
              Retried(cfg, requested, answers, k + 1, end)
  {
    assert EndedAs(cfg, requested, answers, k, end);
  }

  ghost function StatusAndBook(db: CreditSession, job: JobRow): (Status, Book)
    reads db, set v | v in db.balances :: db.balances[v], job
  {
    (job.status, db.BookOf(job.user))
  }

  /** The status of a job that is over, and what becomes of its user's book, once `b`. */
  function SettledAs(b: Book, job: JobRow, end: LoopEnd): (Status, Book) {
    (if end.AllPassed? then Completed else Failed,
     SettledBook(b, job.key, job.cost, job.noCharge, end.AllPassed?))
  }

  /** One delivery that nothing outside the stages disturbs: it is retried or it settles the job. */
  method Deliver(db: CreditSession, job: JobRow, cfg: Setting, answers: nat -> nat -> nat -> Answers,
                 k: nat, ghost b: Book)
    returns (again: bool, delay: nat, ghost end: LoopEnd)
    requires db.Valid() && job.cost <= b.acct.balance && db.BookOf(job.user) == b
    requires job.status == Queued && job.attempts == k
    requires cfg.capacity && forall i :: !cfg.flagged(i)
    requires AllRetried(cfg, job.requested, answers, k)
    modifies db`balances, db`ledger, db.Rows(), job
    ensures db.Valid() && fresh(db.Rows() - old(db.Rows()))
    ensures job.attempts == k + 1
    ensures again ==>
              && delay == RetryDelay(cfg.baseDelay, k + 1)
                    == RetryDelay(cfg.baseDelay, k + 2) - RetryDelay(cfg.baseDelay, k + 1)
              && k + 1 < cfg.maxRetries
              && job.status == Queued && db.BookOf(job.user) == b
              && AllRetried(cfg, job.requested, answers, k + 1)
    ensures !again ==>
              && delay == 0 && StatusAndBook(db, job) == SettledAs(b, job, end)
              && Retried(cfg, job.requested, answers, k + 1, end)
  {
    ghost var row := job.As(Idle, false, 0);
    var out, how := RunJob(db, job, cfg.(ask := answers(k)));
    AfterDeliveryFacts(cfg, b, row, how);
    RetriedNext(cfg, job.requested, answers, k, how);
    again, end := out.RetryScheduled?, how;
    delay := if again then out.delay else 0;
  }

  /** The deliveries from number `k` on. The measure is the number of attempts left. */
  method DeliverFrom(db: CreditSession, job: JobRow, cfg: Setting, answers: nat -> nat -> nat -> Answers,
                     k: nat, ghost b: Book)
    returns (claims: nat, delayed: nat, ghost end: LoopEnd)
    requires db.Valid() && job.cost <= b.acct.balance && db.BookOf(job.user) == b
    requires job.status == Queued && job.attempts == k && (k == 0 || k < cfg.maxRetries)
    requires cfg.capacity && forall i :: !cfg.flagged(i)
    requires AllRetried(cfg, job.requested, answers, k)
    modifies db`balances, db`ledger, db.Rows(), job
    ensures db.Valid()
    ensures claims == job.attempts && k < claims <= Max(1, cfg.maxRetries)
    ensures Retried(cfg, job.requested, answers, claims, end)
    ensures StatusAndBook(db, job) == SettledAs(b, job, end)
    ensures delayed == RetryDelay(cfg.baseDelay, claims) - RetryDelay(cfg.baseDelay, k + 1)
    decreases Max(1, cfg.maxRetries) - k
  {
    var again, delay, how := Deliver(db, job, cfg, answers, k, b);
    if !again { return k + 1, 0, how; }
    var rest;
    claims, rest, end := DeliverFrom(db, job, cfg, answers, k + 1, b);
    delayed := delay + rest;
  }

  lemma {:induction false} RetryDelayGrows(base: nat, a: nat, b: nat)
    requires a <= b
    ensures RetryDelay(base, a) <= RetryDelay(base, b)
  {
    if a < b { RetryDelayGrows(base, a, b - 1); }
  }

  /** All delays together, in powers of two. */
  lemma BackoffBound(base: nat, claims: nat, most: nat)
    requires 1 <= claims <= most
    ensures RetryDelay(base, claims) - RetryDelay(base, 1) == base * (Pow2(claims) - 2) <= base * (Pow2(most) - 2)
  {
    RetryDelayGrows(base, claims, most);
    RetryDelayLessTwo(base, claims);
    RetryDelayLessTwo(base, most);
  }

  lemma RetryDelayLessTwo(base: nat, n: nat)
    ensures RetryDelay(base, n) - RetryDelay(base, 1) == base * (Pow2(n) - 2)
  {
    RetryDelayIsPower(base, n);
    RetryDelayIsPower(base, 1);
    assert Pow2(1) == 2;
    assert base * (Pow2(n) - 2) == base * Pow2(n) - base * 2;
  }
}
