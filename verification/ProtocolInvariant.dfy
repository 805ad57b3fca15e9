/**
 What every step of the settlement protocol keeps.
 */
module ProtocolInvariant {
  import opened Wrappers
  import opened Keys
  import opened Ledger
  import opened Protocol

  /** One job row against the three ledger facts about it: held, debited, refunded. */
  ghost predicate JobOk(job: Job, h: bool, d: bool, r: bool) {
    && h == !job.noCharge
    && (job.noCharge ==> job.cost == 0)
    // completion
    && d == (!job.noCharge && job.results > 0)
    && (job.results > 0 <==> job.progress == 100)
    && (job.results == 0 ==> job.progress <= 95)
    && (job.results > 0 ==> job.worker.Idle? && (job.status.Completed? || (job.status.Cancelled? && job.late)))
    && (job.status.Completed? ==> job.results > 0)
    // refunds
    && (!job.noCharge && (job.status.Failed? || job.status.Cancelled?) ==> r)
    && (job.late ==> r)
    && (job.seen > 0 ==> job.flag && !InWindow(job) && job.results == 0)
    && (r && !job.late ==> job.results == 0 && Stopped(job))
    // the delivery
    && (job.worker.Stopping? ==> job.flag)
    && (job.worker.Looping? || job.worker.InStage? || job.worker.Saving? ==> job.worker.stage < job.stages)
  }

  /** No delivery of this job can reach the finalizing commit any more. */
  predicate Stopped(job: Job) {
    || (job.worker.Idle? && (job.status.Failed? || job.status.Cancelled?))
    || (job.flag && !InWindow(job))
  }

  ghost predicate JobFits(w: World, job: Job) {
    JobOk(job, HeldFor(w, job), Debited(w, job), Refunded(w, job))
  }

  ghost predicate DistinctKeys(jobs: seq<Job>) {
    forall i, j :: 0 <= i < j < |jobs| ==> jobs[i].key != jobs[j].key
  }

  predicate JobKey(k: Key) { k.HoldKey? || k.DebitKey? || k.RefundKey? }

  /** Ledger keys made from job keys come from existing jobs. */
  ghost predicate KeysOwned(w: World, u: UserId) {
    forall k :: JobKey(k) && HasKey(BookAt(w, u).ledger, k) ==> KeyTaken(w.jobs, k.job)
  }

  /** `held` lies between the reservations less the doubly settled cost and the reservations, and
      without reversals it is covered by the balance. */
  ghost predicate Conserved(jobs: seq<Job>, u: UserId, b: Book) {
    && 0 <= b.acct.held <= Reserved(jobs, u, b.ledger) <= b.acct.held + DoubledCost(jobs, u, b.ledger)
    && (NoReversal(b.ledger) ==> b.acct.held <= b.acct.balance)
  }

  ghost predicate UserOk(w: World, u: UserId) {
    Sound(BookAt(w, u)) && KeysOwned(w, u) && Conserved(w.jobs, u, BookAt(w, u))
  }

  ghost predicate Inv(w: World) {
    && DistinctKeys(w.jobs)
    && (forall j :: 0 <= j < |w.jobs| ==> JobFits(w, w.jobs[j]))
    && (forall u :: UserOk(w, u))
  }

  // ---------------------------------------------------------------------------------------------
  // Reservations
  // ---------------------------------------------------------------------------------------------

  /** Two jobs count the same towards the reservations and the doubly settled cost. */
  predicate SameShares(a: Job, l1: seq<Txn>, b: Job, l2: seq<Txn>, u: UserId) {
    Outstanding(a, u, l1) == Outstanding(b, u, l2) && DoubledShare(a, u, l1) == DoubledShare(b, u, l2)
  }

  lemma {:induction false} ReservedSame(js1: seq<Job>, js2: seq<Job>, u: UserId, l1: seq<Txn>, l2: seq<Txn>)
    requires |js1| == |js2|
    requires forall i :: 0 <= i < |js1| ==> SameShares(js1[i], l1, js2[i], l2, u)
    ensures Reserved(js1, u, l1) == Reserved(js2, u, l2)
    ensures DoubledCost(js1, u, l1) == DoubledCost(js2, u, l2)
  {
    if js1 != [] {
      var n := |js1| - 1;
      assert SameShares(js1[n], l1, js2[n], l2, u);
      ReservedSame(js1[..n], js2[..n], u, l1, l2);
    }
  }

  /** If only job `j` changes, the sums change by what it changes. */
  lemma {:induction false} ReservedUpdate(js1: seq<Job>, js2: seq<Job>, j: nat, u: UserId, l1: seq<Txn>, l2: seq<Txn>)
    requires j < |js1| == |js2|
    requires forall i :: 0 <= i < |js1| && i != j ==> SameShares(js1[i], l1, js2[i], l2, u)
    ensures Reserved(js2, u, l2) == Reserved(js1, u, l1) - Outstanding(js1[j], u, l1) + Outstanding(js2[j], u, l2)
    ensures DoubledCost(js2, u, l2)
            == DoubledCost(js1, u, l1) - DoubledShare(js1[j], u, l1) + DoubledShare(js2[j], u, l2)
    ensures Outstanding(js1[j], u, l1) <= Reserved(js1, u, l1)
  {
    var n := |js1| - 1;
    if j == n {
      ReservedSame(js1[..n], js2[..n], u, l1, l2);
    } else {
      assert SameShares(js1[n], l1, js2[n], l2, u);
      ReservedUpdate(js1[..n], js2[..n], j, u, l1, l2);
    }
  }

  /** Two ledgers say the same about a job. */
  predicate SameFacts(job: Job, l1: seq<Txn>, l2: seq<Txn>) {
    && HasKey(l1, HoldKey(job.key)) == HasKey(l2, HoldKey(job.key))
    && HasKey(l1, DebitKey(job.key)) == HasKey(l2, DebitKey(job.key))
    && HasKey(l1, RefundKey(job.key)) == HasKey(l2, RefundKey(job.key))
  }

  predicate SameIdentity(a: Job, b: Job) {
    a.user == b.user && a.key == b.key && a.cost == b.cost && a.stages == b.stages && a.noCharge == b.noCharge
  }

  ghost predicate SameIdentities(js1: seq<Job>, js2: seq<Job>) {
    |js1| == |js2| && forall i :: 0 <= i < |js1| ==> SameIdentity(js1[i], js2[i])
  }

  /** `js2` has the jobs of `js1`, possibly further along, and possibly more. */
  ghost predicate Keeps(js1: seq<Job>, js2: seq<Job>) {
    |js1| <= |js2| && forall i :: 0 <= i < |js1| ==> SameIdentity(js1[i], js2[i])
  }

  /** No step removes a job or changes whose it is, its key or its price. */
  lemma JobsStay(w: World, s: Step)
    ensures Keeps(w.jobs, Next(w, s).jobs)
  {
    if s.CommitCancel? || s.MarkCancelled? || s.Fail? || s.Finalize? {
      SettlementStays(w, s);
    } else if s.Credit? || s.Submit? || s.Requeue? || s.AcceptCancel? || s.AbortCancel? {
    } else {
      DeliveryStays(w, s);
    }
  }

  lemma SettlementStays(w: World, s: Step)
    requires s.CommitCancel? || s.MarkCancelled? || s.Fail? || s.Finalize?
    ensures Keeps(w.jobs, Next(w, s).jobs)
  {
    if s.j < |w.jobs| {
      match s
      case CommitCancel(j, hidden) => CommitStays(w, j, hidden);
      case MarkCancelled(j) => EndStays(w, j, Cancelled);
      case Fail(j) => EndStays(w, j, Failed);
      case Finalize(j, n) => FinalizeStays(w, j, n);
    }
  }

  lemma CommitStays(w: World, j: nat, hidden: bool)
    requires j < |w.jobs|
    ensures Keeps(w.jobs, DoCommitCancel(w, j, hidden).jobs)
  {
    var job := w.jobs[j];
    if HasPending(job, hidden) {
      var dropped := DropPending(job, hidden);
      SettleStays(w, j, RefundOp(job), dropped.(status := Cancelled, late := job.late || hidden), dropped);
    }
  }

  lemma EndStays(w: World, j: nat, status: Status)
    requires j < |w.jobs|
    ensures Keeps(w.jobs, DoRefundAndEnd(w, j, status).jobs)
  {
    SettleStays(w, j, RefundOp(w.jobs[j]), EndRow(w.jobs[j], status), w.jobs[j].(worker := Idle));
  }

  lemma FinalizeStays(w: World, j: nat, outputs: Pos)
    requires j < |w.jobs|
    ensures Keeps(w.jobs, DoFinalize(w, j, outputs).jobs)
  {
    SettleStays(w, j, DebitOp(w.jobs[j]), CompleteRow(w.jobs[j], outputs), w.jobs[j].(worker := Idle));
  }

  lemma SettleStays(w: World, j: nat, op: Op, job: Job, lost: Job)
    requires j < |w.jobs| && SameIdentity(w.jobs[j], job) && SameIdentity(w.jobs[j], lost)
    ensures Keeps(w.jobs, Settle(w, j, op, job, lost).jobs)
  {}

  lemma DeliveryStays(w: World, s: Step)
    requires s.Claim? || s.Poll? || s.StageEnds? || s.Save? || s.Crash?
    ensures Keeps(w.jobs, Next(w, s).jobs)
  {}

  lemma {:induction false} JobsStayOverRuns(w: World, steps: seq<Step>)
    ensures Keeps(w.jobs, RunFrom(w, steps).jobs)
  {
    if steps != [] {
      JobsStayOverRuns(w, steps[..|steps| - 1]);
      JobsStay(RunFrom(w, steps[..|steps| - 1]), steps[|steps| - 1]);
    }
  }

  /** A step that settles none of the user's jobs conserves the reservations. */
  lemma FrameConserves(js1: seq<Job>, js2: seq<Job>, u: UserId, b1: Book, b2: Book)
    requires Conserved(js1, u, b1) && SameIdentities(js1, js2)
    requires forall i :: 0 <= i < |js1| && js1[i].user == u ==> SameFacts(js1[i], b1.ledger, b2.ledger)
    requires b2.acct.held == b1.acct.held
    requires NoReversal(b2.ledger) ==> NoReversal(b1.ledger) && b1.acct.balance <= b2.acct.balance
    ensures Conserved(js2, u, b2)
  {
    forall i | 0 <= i < |js1| ensures SameShares(js1[i], b1.ledger, js2[i], b2.ledger, u) {
      assert SameIdentity(js1[i], js2[i]);
      if js1[i].user == u { assert SameFacts(js1[i], b1.ledger, b2.ledger); }
    }
    ReservedSame(js1, js2, u, b1.ledger, b2.ledger);
  }

  /** The change that settling one job makes to its user's book. */
  ghost predicate Settled(job: Job, b: Book, b': Book, key: Key) {
    && (key == DebitKey(job.key) || key == RefundKey(job.key))
    && (forall k :: HasKey(b'.ledger, k) <==> HasKey(b.ledger, k) || k == key)
    && (NoReversal(b'.ledger) ==> NoReversal(b.ledger))
    && (if HasKey(b.ledger, key) then b' == b
        else && b'.acct.held == Max(0, b.acct.held - job.cost)
             && b'.acct.balance == b.acct.balance - (if key.DebitKey? then job.cost else 0))
  }

  /** The arithmetic heart: a first settlement releases exactly the job's own reservation; a second one
      takes its cost once more, up to the clamp at zero. */
  lemma SettleConserves(js1: seq<Job>, js2: seq<Job>, j: nat, b1: Book, b2: Book, key: Key)
    requires j < |js1| && SameIdentities(js1, js2) && DistinctKeys(js1)
    requires Settled(js1[j], b1, b2, key) && 0 <= b2.acct.balance
    requires HasKey(b1.ledger, HoldKey(js1[j].key)) || js1[j].cost == 0
    requires Conserved(js1, js1[j].user, b1)
    ensures Conserved(js2, js1[j].user, b2)
  {
    var job, u := js1[j], js1[j].user;
    if HasKey(b1.ledger, key) {
      FrameConserves(js1, js2, u, b1, b2);
    } else {
      assert SameIdentity(job, js2[j]);
      forall i | 0 <= i < |js1| && i != j ensures SameShares(js1[i], b1.ledger, js2[i], b2.ledger, u) {
        assert js1[i].key != job.key && SameIdentity(js1[i], js2[i]);
      }
      ReservedUpdate(js1, js2, j, u, b1.ledger, b2.ledger);
    }
  }

  // ---------------------------------------------------------------------------------------------
  // Two kinds of step: on a job row alone, and on a job row with its user's book
  // ---------------------------------------------------------------------------------------------

  lemma KeysStayTaken(js1: seq<Job>, js2: seq<Job>)
    requires |js1| <= |js2| && forall i :: 0 <= i < |js1| ==> js1[i].key == js2[i].key
    ensures forall k :: KeyTaken(js1, k) ==> KeyTaken(js2, k)
  {
    forall k | KeyTaken(js1, k) ensures KeyTaken(js2, k) {
      var i :| 0 <= i < |js1| && js1[i].key == k;
      assert js2[i].key == k;
    }
  }

  lemma RowStep(w: World, j: nat, job: Job)
    requires Inv(w) && j < |w.jobs| && SameIdentity(job, w.jobs[j])
    requires JobFits(w, w.jobs[j]) ==> JobFits(w, job)
    ensures Inv(SetJob(w, j, job))
  {
    var w' := SetJob(w, j, job);
    forall i | 0 <= i < |w'.jobs| ensures JobFits(w', w'.jobs[i]) { assert JobFits(w, w.jobs[i]); }
    forall u ensures UserOk(w', u) {
      assert UserOk(w, u);
      RowUser(w, j, job, u);
    }
  }

  lemma RowUser(w: World, j: nat, job: Job, u: UserId)
    requires UserOk(w, u) && j < |w.jobs| && SameIdentity(job, w.jobs[j])
    ensures UserOk(SetJob(w, j, job), u)
  {
    KeysStayTaken(w.jobs, SetJob(w, j, job).jobs);
    FrameConserves(w.jobs, SetJob(w, j, job).jobs, u, BookAt(w, u), BookAt(w, u));
  }

  lemma ReversalAppend(l: seq<Txn>, t: Txn)
    ensures NoReversal(l + [t]) <==> NoReversal(l) && !t.kind.Reversal?
  {
    assert t in l + [t] && forall x :: x in l ==> x in l + [t];
  }

  lemma SettledBook(job: Job, b: Book, op: Op)
    requires Sound(b) && (op == RefundOp(job) || op == DebitOp(job))
    requires !Exec(b, op).outcome.Rejected?
    ensures Settled(job, b, Exec(b, op).book, op.key.value) && Sound(Exec(b, op).book)
  {
    ExecKeepsSound(b, op);
    if Exec(b, op).outcome.Applied? {
      OneMoreRow(b, Exec(b, op).book, Exec(b, op).outcome.txn);
    }
  }

  /** Facts about a book with one more ledger row. */
  lemma OneMoreRow(b: Book, b': Book, t: Txn)
    requires b'.ledger == b.ledger + [t]
    ensures forall k :: HasKey(b'.ledger, k) <==> HasKey(b.ledger, k) || t.key == Some(k)
    ensures NoReversal(b'.ledger) <==> NoReversal(b.ledger) && !t.kind.Reversal?
  {
    AppendFacts(b.ledger, t);
    ReversalAppend(b.ledger, t);
  }

  lemma SettleStep(w: World, j: nat, op: Op, job: Job, lost: Job)
    requires Inv(w) && j < |w.jobs| && SameIdentity(job, w.jobs[j]) && SameIdentity(lost, w.jobs[j])
    requires op == RefundOp(w.jobs[j]) || op == DebitOp(w.jobs[j])
    requires JobFits(w, w.jobs[j]) ==> JobFits(w, lost)
    requires JobFits(w, w.jobs[j]) ==>
               JobOk(job, HeldFor(w, job), Debited(w, job) || op.OpDebit?, Refunded(w, job) || op.OpRefund?)
    ensures Inv(Settle(w, j, op, job, lost))
  {
    var u := w.jobs[j].user;
    if Exec(BookAt(w, u), op).outcome.Rejected? {
      RowStep(w, j, lost);
    } else {
      var b, b', key := BookAt(w, u), Exec(BookAt(w, u), op).book, op.key.value;
      assert UserOk(w, u) && JobFits(w, w.jobs[j]);
      SettledBook(w.jobs[j], b, op);
      SettledStep(w, j, b', key, job);
    }
  }

  lemma JobFrame(w: World, w': World, job: Job)
    requires JobFits(w, job) && SameFacts(job, BookAt(w, job.user).ledger, BookAt(w', job.user).ledger)
    ensures JobFits(w', job)
  {}

  lemma OwnedFrame(w: World, w': World, u: UserId, key: Key)
    requires KeysOwned(w, u) && (forall k :: KeyTaken(w.jobs, k) ==> KeyTaken(w'.jobs, k))
    requires forall k :: JobKey(k) && HasKey(BookAt(w', u).ledger, k) ==> HasKey(BookAt(w, u).ledger, k) || k == key
    requires JobKey(key) ==> KeyTaken(w'.jobs, key.job)
    ensures KeysOwned(w', u)
  {}

  lemma SettledStep(w: World, j: nat, b': Book, key: Key, job: Job)
    requires Inv(w) && j < |w.jobs| && SameIdentity(job, w.jobs[j])
    requires Settled(w.jobs[j], BookAt(w, job.user), b', key) && Sound(b')
    requires JobOk(job, HeldFor(w, job), Debited(w, job) || key.DebitKey?, Refunded(w, job) || key.RefundKey?)
    ensures Inv(SetJob(w, j, job).(books := w.books[job.user := b']))
  {
    var w' := SetJob(w, j, job).(books := w.books[job.user := b']);
    assert JobFits(w, w.jobs[j]) && UserOk(w, job.user);
    forall i | 0 <= i < |w'.jobs| ensures JobFits(w', w'.jobs[i]) {
      SettledRow(w, w', j, b', key, job, i);
    }
    forall v ensures UserOk(w', v) {
      SettledUser(w, w', j, b', key, job, v);
    }
  }

  lemma SettledRow(w: World, w': World, j: nat, b': Book, key: Key, job: Job, i: nat)
    requires DistinctKeys(w.jobs) && j < |w.jobs| && SameIdentity(job, w.jobs[j])
    requires i < |w.jobs| && JobFits(w, w.jobs[i])
    requires Settled(w.jobs[j], BookAt(w, job.user), b', key)
    requires JobOk(job, HeldFor(w, job), Debited(w, job) || key.DebitKey?, Refunded(w, job) || key.RefundKey?)
    requires w' == SetJob(w, j, job).(books := w.books[job.user := b'])
    ensures JobFits(w', w'.jobs[i])
  {
    if i != j {
      assert w.jobs[i].key != job.key;
      JobFrame(w, w', w.jobs[i]);
    }
  }

  lemma SettledUser(w: World, w': World, j: nat, b': Book, key: Key, job: Job, v: UserId)
    requires UserOk(w, v) && DistinctKeys(w.jobs) && j < |w.jobs| && SameIdentity(job, w.jobs[j])
    requires Settled(w.jobs[j], BookAt(w, job.user), b', key) && Sound(b')
    requires HeldFor(w, w.jobs[j]) || job.cost == 0
    requires w' == SetJob(w, j, job).(books := w.books[job.user := b'])
    ensures UserOk(w', v)
  {
    KeysStayTaken(w.jobs, w'.jobs);
    assert KeyTaken(w'.jobs, key.job) by { assert w'.jobs[j].key == key.job; }
    OwnedFrame(w, w', v, key);
    if v == job.user {
      SettleConserves(w.jobs, w'.jobs, j, BookAt(w, v), b', key);
    } else {
      FrameConserves(w.jobs, w'.jobs, v, BookAt(w, v), BookAt(w', v));
    }
  }

  // ---------------------------------------------------------------------------------------------
  // The steps
  // ---------------------------------------------------------------------------------------------

  lemma CreditStep(w: World, u: UserId, op: Op)
    requires Inv(w) && CreditOp(op)
    ensures Inv(Next(w, Credit(u, op)))
  {
    var w' := Next(w, Credit(u, op));
    forall i | 0 <= i < |w.jobs| ensures JobFits(w', w'.jobs[i]) { CreditJob(w, u, op, i); }
    forall v ensures UserOk(w', v) { CreditUser(w, u, op, v); }
  }

  lemma CreditJob(w: World, u: UserId, op: Op, i: nat)
    requires Inv(w) && CreditOp(op) && i < |w.jobs|
    ensures JobFits(Next(w, Credit(u, op)), w.jobs[i])
  {
    assert UserOk(w, u) && JobFits(w, w.jobs[i]);
    CreditFacts(BookAt(w, u), op);
    JobFrame(w, Next(w, Credit(u, op)), w.jobs[i]);
  }

  lemma CreditUser(w: World, u: UserId, op: Op, v: UserId)
    requires Inv(w) && CreditOp(op)
    ensures UserOk(Next(w, Credit(u, op)), v)
  {
    var w' := Next(w, Credit(u, op));
    assert UserOk(w, u) && UserOk(w, v);
    CreditFacts(BookAt(w, u), op);
    OwnedFrame(w, w', v, GuestKey(""));
    FrameConserves(w.jobs, w'.jobs, v, BookAt(w, v), BookAt(w', v));
  }

  lemma CreditFacts(b: Book, op: Op)
    requires Sound(b) && CreditOp(op)
    ensures var b' := Exec(b, op).book;
            && Sound(b')
            && (forall k :: JobKey(k) ==> HasKey(b.ledger, k) == HasKey(b'.ledger, k))
            && b'.acct.held == b.acct.held
            && (NoReversal(b'.ledger) ==> NoReversal(b.ledger) && b.acct.balance <= b'.acct.balance)
  {
    var r := Exec(b, op);
    ExecKeepsSound(b, op);
    if r.outcome.Applied? {
      CreditRow(b, op);
      OneMoreRow(b, r.book, r.outcome.txn);
    }
  }

  lemma CreditRow(b: Book, op: Op)
    requires CreditOp(op) && Exec(b, op).outcome.Applied?
    ensures var r := Exec(b, op);
            && r.book.ledger == b.ledger + [r.outcome.txn]
            && r.outcome.txn.key == op.key
            && r.book.acct.held == b.acct.held
            && (r.outcome.txn.kind.Reversal? || b.acct.balance <= r.book.acct.balance)
  {}

  /** The change that a new job's hold makes to its user's book; a requeued clone makes none. */
  ghost predicate Opened(job: Job, b: Book, b': Book) {
    if job.noCharge then b' == b && job.cost == 0
    else
      && (forall k :: HasKey(b'.ledger, k) <==> HasKey(b.ledger, k) || k == HoldKey(job.key))
      && (NoReversal(b'.ledger) ==> NoReversal(b.ledger))
      && b'.acct.held == b.acct.held + job.cost
      && b'.acct.balance == b.acct.balance
      && b'.acct.held <= b'.acct.balance
  }

  lemma AppendConserves(jobs: seq<Job>, job: Job, b: Book, b': Book)
    requires Opened(job, b, b') && Conserved(jobs, job.user, b)
    requires forall i :: 0 <= i < |jobs| ==> jobs[i].key != job.key
    requires !HasKey(b.ledger, HoldKey(job.key)) && !HasKey(b.ledger, DebitKey(job.key))
             && !HasKey(b.ledger, RefundKey(job.key))
    ensures Conserved(jobs + [job], job.user, b')
  {
    var u, jobs' := job.user, jobs + [job];
    forall i | 0 <= i < |jobs| ensures SameShares(jobs[i], b.ledger, jobs[i], b'.ledger, u) {}
    ReservedSame(jobs, jobs, u, b.ledger, b'.ledger);
    assert jobs'[..|jobs|] == jobs;
  }

  lemma AppendElsewhere(jobs: seq<Job>, job: Job, u: UserId, b: Book)
    requires Conserved(jobs, u, b) && job.user != u
    ensures Conserved(jobs + [job], u, b)
  {
    assert (jobs + [job])[..|jobs|] == jobs;
  }

  lemma AppendStep(w: World, job: Job, b': Book)
    requires Inv(w) && !KeyTaken(w.jobs, job.key)
    requires job == NewJob(job.user, job.key, job.cost, job.stages, job.noCharge)
    requires Opened(job, BookAt(w, job.user), b') && Sound(b')
    ensures Inv(w.(books := w.books[job.user := b'], jobs := w.jobs + [job]))
  {
    var w' := w.(books := w.books[job.user := b'], jobs := w.jobs + [job]);
    assert UserOk(w, job.user);
    forall i | 0 <= i < |w.jobs| ensures w.jobs[i].key != job.key { assert KeyTaken(w.jobs, w.jobs[i].key); }
    forall i | 0 <= i < |w'.jobs| ensures JobFits(w', w'.jobs[i]) {
      AppendRow(w, w', job, b', i);
    }
    forall u ensures UserOk(w', u) {
      AppendUser(w, w', job, b', u);
    }
  }

  lemma AppendRow(w: World, w': World, job: Job, b': Book, i: nat)
    requires (i < |w.jobs| ==> JobFits(w, w.jobs[i]) && w.jobs[i].key != job.key) && i <= |w.jobs|
    requires job == NewJob(job.user, job.key, job.cost, job.stages, job.noCharge)
    requires Opened(job, BookAt(w, job.user), b') && KeysOwned(w, job.user) && !KeyTaken(w.jobs, job.key)
    requires w' == w.(books := w.books[job.user := b'], jobs := w.jobs + [job])
    ensures JobFits(w', w'.jobs[i])
  {
    if i < |w.jobs| { JobFrame(w, w', w.jobs[i]); }
  }

  lemma AppendUser(w: World, w': World, job: Job, b': Book, u: UserId)
    requires UserOk(w, u) && !KeyTaken(w.jobs, job.key)
    requires Opened(job, BookAt(w, job.user), b') && Sound(b')
    requires w' == w.(books := w.books[job.user := b'], jobs := w.jobs + [job])
    ensures UserOk(w', u)
  {
    forall i | 0 <= i < |w.jobs| ensures w.jobs[i].key != job.key { assert KeyTaken(w.jobs, w.jobs[i].key); }
    KeysStayTaken(w.jobs, w'.jobs);
    assert KeyTaken(w'.jobs, job.key) by { assert w'.jobs[|w.jobs|].key == job.key; }
    OwnedFrame(w, w', u, HoldKey(job.key));
    if u == job.user {
      AppendConserves(w.jobs, job, BookAt(w, u), b');
    } else {
      AppendElsewhere(w.jobs, job, u, BookAt(w, u));
    }
  }

  lemma SubmitStep(w: World, u: UserId, key: string, cost: Pos, stages: Pos)
    requires Inv(w)
    ensures Inv(DoSubmit(w, u, key, cost, stages))
  {
    if DoSubmit(w, u, key, cost, stages) != w {
      var b := BookAt(w, u);
      assert UserOk(w, u);
      assert !HasKey(b.ledger, HoldKey(key));
      HoldOpens(b, NewJob(u, key, cost, stages, false));
      AppendStep(w, NewJob(u, key, cost, stages, false), Exec(b, OpHold(cost, Some(HoldKey(key)))).book);
    }
  }

  lemma HoldOpens(b: Book, job: Job)
    requires Sound(b) && !HasKey(b.ledger, HoldKey(job.key)) && !job.noCharge
    requires !Exec(b, OpHold(job.cost, Some(HoldKey(job.key)))).outcome.Rejected?
    ensures var b' := Exec(b, OpHold(job.cost, Some(HoldKey(job.key)))).book; Opened(job, b, b') && Sound(b')
  {
    var op := OpHold(job.cost, Some(HoldKey(job.key)));
    ExecKeepsSound(b, op);
    HoldRow(b, op);
    OneMoreRow(b, Exec(b, op).book, Exec(b, op).outcome.txn);
  }

  lemma HoldRow(b: Book, op: Op)
    requires op.OpHold? && Find(b.ledger, op.key).None? && !Exec(b, op).outcome.Rejected?
    ensures var r := Exec(b, op);
            && r.outcome.Applied? && r.outcome.txn == Txn(Hold, 0, op.amount, op.key, None)
            && r.book.ledger == b.ledger + [r.outcome.txn]
            && r.book.acct.held == b.acct.held + op.amount <= b.acct.balance == r.book.acct.balance
  {}

  lemma RequeueStep(w: World, of: nat, key: string)
    requires Inv(w) && of < |w.jobs| && !KeyTaken(w.jobs, key)
    ensures Inv(Next(w, Requeue(of, key)))
  {
    var clone := NewJob(w.jobs[of].user, key, 0, w.jobs[of].stages, true);
    var b := BookAt(w, clone.user);
    assert UserOk(w, clone.user);
    AppendStep(w, clone, b);
    SameBooks(w.(books := w.books[clone.user := b], jobs := w.jobs + [clone]), Next(w, Requeue(of, key)));
  }

  /** A missing book and an empty one are the same thing. */
  lemma SameBooks(w1: World, w2: World)
    requires Inv(w1) && w1.jobs == w2.jobs && forall u :: BookAt(w1, u) == BookAt(w2, u)
    ensures Inv(w2)
  {
    forall i | 0 <= i < |w2.jobs| ensures JobFits(w2, w2.jobs[i]) { assert JobFits(w1, w1.jobs[i]); }
    forall u ensures UserOk(w2, u) { assert UserOk(w1, u); }
  }

  lemma CommitCancelStep(w: World, j: nat, hidden: bool)
    requires Inv(w) && j < |w.jobs|
    ensures Inv(DoCommitCancel(w, j, hidden))
  {
    var job := w.jobs[j];
    if HasPending(job, hidden) {
      var dropped := DropPending(job, hidden);
      SettleStep(w, j, RefundOp(job), dropped.(status := Cancelled, late := job.late || hidden), dropped);
    }
  }

  lemma RefundAndEndStep(w: World, j: nat, status: Status)
    requires Inv(w) && j < |w.jobs|
    requires !w.jobs[j].worker.Idle? && (status.Failed? || status.Cancelled?)
    ensures Inv(DoRefundAndEnd(w, j, status))
  {
    var job := w.jobs[j];
    if job.noCharge {
      RowStep(w, j, EndRow(job, status));
    } else {
      SettleStep(w, j, RefundOp(job), EndRow(job, status), job.(worker := Idle));
    }
  }

  lemma FinalizeStep(w: World, j: nat, outputs: Pos)
    requires Inv(w) && j < |w.jobs| && w.jobs[j].worker.Finishing?
    ensures Inv(DoFinalize(w, j, outputs))
  {
    var job := w.jobs[j];
    if job.noCharge {
      RowStep(w, j, CompleteRow(job, outputs));
    } else {
      SettleStep(w, j, DebitOp(job), CompleteRow(job, outputs), job.(worker := Idle));
    }
  }

  lemma QuotientBound(a: nat, q: nat, d: Pos)
    requires a <= q * d
    ensures a / d <= q
  {
    assert a == a / d * d + a % d;
    assert (a / d - q) * d <= 0;
  }

  lemma PercentBound(done: nat, total: Pos)
    requires done <= total
    ensures StagePercent(done, total) <= 95
  {
    QuotientBound(done * 95, 95, total);
  }

  lemma NextKeepsInv(w: World, s: Step)
    requires Inv(w)
    ensures Inv(Next(w, s))
  {
    match s
    case Credit(u, op) => if CreditOp(op) { CreditStep(w, u, op); }
    case Submit(u, key, cost, stages) => SubmitStep(w, u, key, cost, stages);
    case Requeue(i, key) => if i < |w.jobs| && !KeyTaken(w.jobs, key) { RequeueStep(w, i, key); }
    case _ => if s.j < |w.jobs| { JobStep(w, s); }
  }

  lemma JobStep(w: World, s: Step)
    requires Inv(w) && !s.Credit? && !s.Submit? && !s.Requeue? && s.j < |w.jobs|
    ensures Inv(Next(w, s))
  {
    match s
    case AcceptCancel(j, who, admin, signalled) => AcceptStep(w, j, who, admin, signalled);
    case CommitCancel(j, hidden) => CommitCancelStep(w, j, hidden);
    case AbortCancel(j, hidden) => if HasPending(w.jobs[j], hidden) { RowStep(w, j, DropPending(w.jobs[j], hidden)); }
    case MarkCancelled(j) => if w.jobs[j].worker.Stopping? { RefundAndEndStep(w, j, Cancelled); }
    case Fail(j) => FailStep(w, j);
    case Finalize(j, outputs) => if w.jobs[j].worker.Finishing? { FinalizeStep(w, j, outputs); }
    case _ => DeliveryStep(w, s);
  }

  lemma AcceptStep(w: World, j: nat, who: UserId, admin: bool, signalled: bool)
    requires Inv(w) && j < |w.jobs|
    ensures Inv(DoAccept(w, j, who, admin, signalled))
  {
    if MayCancel(w.jobs[j], who, admin) { RowStep(w, j, DoAccept(w, j, who, admin, signalled).jobs[j]); }
  }

  lemma FailStep(w: World, j: nat)
    requires Inv(w) && j < |w.jobs|
    ensures Inv(Next(w, Fail(j)))
  {
    if w.jobs[j].worker.Failing? {
      if Retries(w.jobs[j], w.maxRetries) { RowStep(w, j, EndRow(w.jobs[j], Queued)); }
      else { RefundAndEndStep(w, j, Failed); }
    }
  }

  lemma DeliveryStep(w: World, s: Step)
    requires Inv(w) && (s.Claim? || s.Poll? || s.StageEnds? || s.Save? || s.Crash?)
    ensures Inv(Next(w, s))
  {
    if s.j < |w.jobs| && Next(w, s) != w {
      assert JobFits(w, w.jobs[s.j]);
      if s.Save? { PercentBound(w.jobs[s.j].worker.stage + 1, w.jobs[s.j].stages); }
      RowStep(w, s.j, Next(w, s).jobs[s.j]);
    }
  }

  lemma {:induction false} RunKeepsInv(maxRetries: nat, steps: seq<Step>)
    ensures Inv(Run(maxRetries, steps))
  {
    if steps != [] {
      RunKeepsInv(maxRetries, steps[..|steps| - 1]);
      NextKeepsInv(Run(maxRetries, steps[..|steps| - 1]), steps[|steps| - 1]);
    }
  }
}
