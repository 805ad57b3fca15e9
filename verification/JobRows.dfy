/**
 What the ledger rows of a job say: hold, debit and refund rows carry exactly the job's price, in every
 run.
 */
module JobRows {
  import opened Wrappers
  import opened Keys
  import opened Ledger
  import opened Protocol
  import opened ProtocolInvariant

  /** The row that a job key stands for. */
  function RowOf(job: Job, k: Key): Txn {
    match k
    case HoldKey(_) => Txn(Hold, 0, job.cost, Some(k), None)
    case DebitKey(_) => Txn(Debit, 0 - job.cost, 0, Some(k), None)
    case _ => Txn(Refund, 0, job.cost, Some(k), None)
  }

  ghost predicate RowTold(jobs: seq<Job>, t: Txn) {
    t.key.Some? && JobKey(t.key.value) ==>
      exists j :: 0 <= j < |jobs| && jobs[j].key == t.key.value.job && t == RowOf(jobs[j], t.key.value)
  }

  ghost predicate Told(jobs: seq<Job>, ledger: seq<Txn>) {
    forall t :: t in ledger ==> RowTold(jobs, t)
  }

  ghost predicate AllTold(w: World) { forall u :: Told(w.jobs, BookAt(w, u).ledger) }

  lemma ToldLater(js1: seq<Job>, js2: seq<Job>, ledger: seq<Txn>)
    requires Keeps(js1, js2) && Told(js1, ledger)
    ensures Told(js2, ledger)
  {
    forall t | t in ledger && t.key.Some? && JobKey(t.key.value) ensures RowTold(js2, t) {
      assert RowTold(js1, t);
      var j :| 0 <= j < |js1| && js1[j].key == t.key.value.job && t == RowOf(js1[j], t.key.value);
      assert SameIdentity(js1[j], js2[j]);
    }
  }

  /** An operation writes at most one row, under its own key. */
  lemma ToldAfter(jobs: seq<Job>, b: Book, op: Op)
    requires Told(jobs, b.ledger)
    requires Exec(b, op).outcome.Applied? ==> RowTold(jobs, Exec(b, op).outcome.txn)
    ensures Told(jobs, Exec(b, op).book.ledger)
  {}

  lemma CreditTold(w: World, u: UserId, op: Op)
    requires AllTold(w)
    ensures AllTold(Next(w, Credit(u, op)))
  {
    var w' := Next(w, Credit(u, op));
    if CreditOp(op) {
      assert Told(w.jobs, BookAt(w, u).ledger);
      if Exec(BookAt(w, u), op).outcome.Applied? { CreditRow(BookAt(w, u), op); }
      ToldAfter(w.jobs, BookAt(w, u), op);
      forall v ensures Told(w'.jobs, BookAt(w', v).ledger) { assert Told(w.jobs, BookAt(w, v).ledger); }
    }
  }

  lemma SubmitTold(w: World, u: UserId, key: string, cost: Pos, stages: Pos)
    requires AllTold(w)
    ensures AllTold(DoSubmit(w, u, key, cost, stages))
  {
    var w' := DoSubmit(w, u, key, cost, stages);
    if w' != w {
      var b, op := BookAt(w, u), OpHold(cost, Some(HoldKey(key)));
      forall v ensures Told(w'.jobs, BookAt(w, v).ledger) {
        assert Told(w.jobs, BookAt(w, v).ledger);
        ToldLater(w.jobs, w'.jobs, BookAt(w, v).ledger);
      }
      HoldTold(w'.jobs, |w.jobs|, b, op);
      forall v ensures Told(w'.jobs, BookAt(w', v).ledger) { assert Told(w'.jobs, BookAt(w, v).ledger); }
    }
  }

  lemma HoldTold(jobs: seq<Job>, j: nat, b: Book, op: Op)
    requires j < |jobs| && op == OpHold(jobs[j].cost, Some(HoldKey(jobs[j].key))) && Told(jobs, b.ledger)
    ensures Told(jobs, Exec(b, op).book.ledger)
  {
    if Exec(b, op).outcome.Applied? { assert Exec(b, op).outcome.txn == RowOf(jobs[j], HoldKey(jobs[j].key)); }
    ToldAfter(jobs, b, op);
  }

  lemma SettleTold(w: World, j: nat, op: Op, job: Job, lost: Job)
    requires AllTold(w) && j < |w.jobs| && SameIdentity(w.jobs[j], job) && SameIdentity(w.jobs[j], lost)
    requires op == RefundOp(w.jobs[j]) || op == DebitOp(w.jobs[j])
    ensures AllTold(Settle(w, j, op, job, lost))
  {
    var w', u, b := Settle(w, j, op, job, lost), w.jobs[j].user, BookAt(w, w.jobs[j].user);
    assert Told(w.jobs, b.ledger);
    if Exec(b, op).outcome.Applied? { assert Exec(b, op).outcome.txn == RowOf(w.jobs[j], op.key.value); }
    ToldAfter(w.jobs, b, op);
    SettleStays(w, j, op, job, lost);
    forall v ensures Told(w'.jobs, BookAt(w', v).ledger) {
      assert Told(w.jobs, BookAt(w, v).ledger);
      ToldLater(w.jobs, w'.jobs, BookAt(w', v).ledger);
    }
  }

  /** A step that writes no ledger row. */
  lemma RowsUntouched(w: World, s: Step)
    requires AllTold(w) && Next(w, s).books == w.books
    ensures AllTold(Next(w, s))
  {
    JobsStay(w, s);
    forall v ensures Told(Next(w, s).jobs, BookAt(Next(w, s), v).ledger) {
      assert Told(w.jobs, BookAt(w, v).ledger);
      ToldLater(w.jobs, Next(w, s).jobs, BookAt(w, v).ledger);
    }
  }

  lemma NextTold(w: World, s: Step)
    requires AllTold(w)
    ensures AllTold(Next(w, s))
  {
    match s
    case Credit(u, op) => CreditTold(w, u, op);
    case Submit(u, key, cost, stages) => SubmitTold(w, u, key, cost, stages);
    case CommitCancel(j, hidden) => if j < |w.jobs| { CommitTold(w, j, hidden); }
    case MarkCancelled(j) => if j < |w.jobs| { EndTold(w, j, Cancelled); }
    case Fail(j) => if j < |w.jobs| { FailTold(w, j); }
    case Finalize(j, outputs) => if j < |w.jobs| { FinalizeTold(w, j, outputs); }
    case _ => RowsUntouched(w, s);
  }

  lemma CommitTold(w: World, j: nat, hidden: bool)
    requires AllTold(w) && j < |w.jobs|
    ensures AllTold(DoCommitCancel(w, j, hidden))
  {
    var job := w.jobs[j];
    if HasPending(job, hidden) {
      var dropped := DropPending(job, hidden);
      SettleTold(w, j, RefundOp(job), dropped.(status := Cancelled, late := job.late || hidden), dropped);
    }
  }

  lemma EndTold(w: World, j: nat, status: Status)
    requires AllTold(w) && j < |w.jobs|
    ensures AllTold(DoRefundAndEnd(w, j, status))
  {
    var job := w.jobs[j];
    SettleTold(w, j, RefundOp(job), EndRow(job, status), job.(worker := Idle));
    if job.noCharge { RowTouched(w, j, EndRow(job, status)); }
  }

  lemma FailTold(w: World, j: nat)
    requires AllTold(w) && j < |w.jobs|
    ensures AllTold(Next(w, Fail(j)))
  {
    EndTold(w, j, Failed);
    RowTouched(w, j, EndRow(w.jobs[j], Queued));
  }

  lemma FinalizeTold(w: World, j: nat, outputs: Pos)
    requires AllTold(w) && j < |w.jobs|
    ensures AllTold(Next(w, Finalize(j, outputs)))
  {
    var job := w.jobs[j];
    SettleTold(w, j, DebitOp(job), CompleteRow(job, outputs), job.(worker := Idle));
    RowTouched(w, j, CompleteRow(job, outputs));
  }

  lemma RowTouched(w: World, j: nat, job: Job)
    requires AllTold(w) && j < |w.jobs| && SameIdentity(w.jobs[j], job)
    ensures AllTold(SetJob(w, j, job))
  {
    forall v ensures Told(SetJob(w, j, job).jobs, BookAt(SetJob(w, j, job), v).ledger) {
      assert Told(w.jobs, BookAt(w, v).ledger);
      ToldLater(w.jobs, SetJob(w, j, job).jobs, BookAt(w, v).ledger);
    }
  }

  lemma {:induction false} RunTold(n: nat, steps: seq<Step>)
    ensures AllTold(Run(n, steps))
  {
    if steps != [] {
      RunTold(n, steps[..|steps| - 1]);
      NextTold(Run(n, steps[..|steps| - 1]), steps[|steps| - 1]);
    }
  }

  /** In every run, any ledger row under one of a job's keys is the row of that job: its hold reserves,
      its refund releases and its debit takes exactly the job's price. */
  lemma RowsCarryThePrice(n: nat, steps: seq<Step>, j: nat, u: UserId, t: Txn)
    requires j < |Run(n, steps).jobs| && t in BookAt(Run(n, steps), u).ledger
    requires t.key.Some? && JobKey(t.key.value) && t.key.value.job == Run(n, steps).jobs[j].key
    ensures t == RowOf(Run(n, steps).jobs[j], t.key.value)
  {
    var w := Run(n, steps);
    RunTold(n, steps);
    RunKeepsInv(n, steps);
    assert Told(w.jobs, BookAt(w, u).ledger) && RowTold(w.jobs, t);
    var i :| 0 <= i < |w.jobs| && w.jobs[i].key == t.key.value.job && t == RowOf(w.jobs[i], t.key.value);
    assert i == j;
  }
}
