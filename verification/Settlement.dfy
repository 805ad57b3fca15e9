/**
 The results about whole runs of the settlement protocol.
 */
module Settlement {
  import opened Wrappers
  import opened Keys
  import opened Ledger
  import opened Protocol
  import opened ProtocolInvariant

  // ---------------------------------------------------------------------------------------------
  // What a step can do to one job row
  // ---------------------------------------------------------------------------------------------

  predicate RowChange(maxRetries: nat, job: Job, s: Step, job': Job) {
    match s
    case AcceptCancel(_, who, admin, signalled) =>
      && MayCancel(job, who, admin)
      && job' == (if Hidden(job, signalled) then job.(flag := job.flag || signalled, unseen := job.unseen + 1)
                  else job.(flag := true, seen := job.seen + 1))
    case CommitCancel(_, hidden) =>
      && HasPending(job, hidden)
      && job' == DropPending(job, hidden).(status := Cancelled, late := job.late || hidden)
    case AbortCancel(_, hidden) => HasPending(job, hidden) && job' == DropPending(job, hidden)
    case Claim(_) => job.worker.Idle? && Claimable(job) && job' == ClaimRow(job)
    case Poll(_) =>
      && job.worker.Looping?
      && job' == job.(worker := if job.flag then Stopping(job.worker.tries)
                              else InStage(job.worker.stage, job.worker.tries))
    case MarkCancelled(_) => job.worker.Stopping? && job' == EndRow(job, Cancelled)
    case StageEnds(_, e) =>
      && job.worker.InStage?
      && job' == job.(worker := if e.Succeeds? then Saving(job.worker.stage, job.worker.tries)
                                else Failing(e.FailsTransiently?, job.worker.tries))
    case Save(_) => job.worker.Saving? && job' == SaveRow(job, job.worker.stage, job.worker.tries)
    case Fail(_) => job.worker.Failing? && job' == EndRow(job, if Retries(job, maxRetries) then Queued else Failed)
    case Finalize(_, outputs) =>
      job.worker.Finishing? && (job' == CompleteRow(job, outputs) || job' == job.(worker := Idle))
    case Crash(_) => job' == job.(worker := Idle)
    case _ => false
  }

  predicate Targets(s: Step, j: nat) {
    !s.Credit? && !s.Submit? && !s.Requeue? && s.j == j
  }

  lemma NextRow(w: World, s: Step, j: nat)
    requires Inv(w) && j < |w.jobs|
    ensures j < |Next(w, s).jobs|
    ensures Next(w, s).jobs[j] == w.jobs[j]
         || (Targets(s, j) && RowChange(w.maxRetries, w.jobs[j], s, Next(w, s).jobs[j]))
  {
    if s.Credit? || s.Submit? || s.Requeue? {
    } else if s.j < |w.jobs| {
      TargetRow(w, s);
    }
  }

  lemma TargetRow(w: World, s: Step)
    requires Inv(w) && !s.Credit? && !s.Submit? && !s.Requeue? && s.j < |w.jobs|
    ensures |Next(w, s).jobs| == |w.jobs|
    ensures forall i :: 0 <= i < |w.jobs| && i != s.j ==> Next(w, s).jobs[i] == w.jobs[i]
    ensures Next(w, s).jobs[s.j] == w.jobs[s.j] || RowChange(w.maxRetries, w.jobs[s.j], s, Next(w, s).jobs[s.j])
  {
    match s
    case AcceptCancel(_, _, _, _) => RequestRow(w, s);
    case CommitCancel(j, hidden) => CommitRow(w, j, hidden);
    case AbortCancel(_, _) => RequestRow(w, s);
    case MarkCancelled(j) => EndSucceeds(w, j, Cancelled);
    case Fail(j) => FailRow(w, j);
    case Finalize(j, outputs) => FinalizeRow(w, j, outputs);
    case _ => DeliveryRow(w, s);
  }

  lemma RequestRow(w: World, s: Step)
    requires s.AcceptCancel? || s.AbortCancel?
    requires s.j < |w.jobs|
    ensures var row := Next(w, s).jobs;
            && row == w.jobs[s.j := row[s.j]]
            && (row[s.j] == w.jobs[s.j] || RowChange(w.maxRetries, w.jobs[s.j], s, row[s.j]))
  {}

  lemma DeliveryRow(w: World, s: Step)
    requires s.Claim? || s.Poll? || s.StageEnds? || s.Save? || s.Crash?
    requires s.j < |w.jobs|
    ensures var row := Next(w, s).jobs;
            && row == w.jobs[s.j := row[s.j]]
            && (row[s.j] == w.jobs[s.j] || RowChange(w.maxRetries, w.jobs[s.j], s, row[s.j]))
  {}

  lemma CommitRow(w: World, j: nat, hidden: bool)
    requires Inv(w) && j < |w.jobs|
    ensures DoCommitCancel(w, j, hidden).jobs == w.jobs[j :=
              if HasPending(w.jobs[j], hidden)
              then DropPending(w.jobs[j], hidden).(status := Cancelled, late := w.jobs[j].late || hidden)
              else w.jobs[j]]
  {
    assert UserOk(w, w.jobs[j].user);
    RefundNotRefused(BookAt(w, w.jobs[j].user), w.jobs[j]);
  }

  lemma FailRow(w: World, j: nat)
    requires Inv(w) && j < |w.jobs|
    ensures Next(w, Fail(j)).jobs == w.jobs[j :=
              if w.jobs[j].worker.Failing?
              then EndRow(w.jobs[j], if Retries(w.jobs[j], w.maxRetries) then Queued else Failed)
              else w.jobs[j]]
  {
    EndSucceeds(w, j, Failed);
  }

  /** The finalizing commit goes through unless the job is charged and its debit is refused. */
  predicate CanFinalize(w: World, j: nat)
    requires j < |w.jobs|
  {
    w.jobs[j].noCharge || !Exec(BookAt(w, w.jobs[j].user), DebitOp(w.jobs[j])).outcome.Rejected?
  }

  lemma FinalizeRow(w: World, j: nat, outputs: Pos)
    requires j < |w.jobs|
    ensures Next(w, Finalize(j, outputs)).jobs == w.jobs[j :=
              if !w.jobs[j].worker.Finishing? then w.jobs[j]
              else if CanFinalize(w, j) then CompleteRow(w.jobs[j], outputs)
              else w.jobs[j].(worker := Idle)]
  {}

  lemma EndSucceeds(w: World, j: nat, status: Status)
    requires Inv(w) && j < |w.jobs|
    ensures DoRefundAndEnd(w, j, status).jobs == w.jobs[j := EndRow(w.jobs[j], status)]
  {
    assert UserOk(w, w.jobs[j].user);
    RefundNotRefused(BookAt(w, w.jobs[j].user), w.jobs[j]);
  }

  lemma RefundNotRefused(b: Book, job: Job)
    requires Sound(b)
    ensures !Exec(b, RefundOp(job)).outcome.Rejected?
    ensures Exec(b, RefundOp(job)).book.acct.balance == b.acct.balance
  {}

  /** A refund is never refused, so a cancel commits whenever it tries. */
  lemma CommitCancelSucceeds(w: World, j: nat, hidden: bool)
    requires Inv(w) && j < |w.jobs| && HasPending(w.jobs[j], hidden)
    ensures DoCommitCancel(w, j, hidden).jobs[j] ==
            DropPending(w.jobs[j], hidden).(status := Cancelled, late := w.jobs[j].late || hidden)
    ensures BookAt(DoCommitCancel(w, j, hidden), w.jobs[j].user).acct.balance == BookAt(w, w.jobs[j].user).acct.balance
  {
    assert UserOk(w, w.jobs[j].user);
    RefundNotRefused(BookAt(w, w.jobs[j].user), w.jobs[j]);
  }

  // ---------------------------------------------------------------------------------------------
  // Cancels that no poll can see
  // ---------------------------------------------------------------------------------------------

  /** The step accepts a cancel that the delivery in flight can no longer see. */
  predicate AcceptsHidden(w: World, s: Step, j: nat) {
    && s.AcceptCancel? && s.j == j && j < |w.jobs|
    && MayCancel(w.jobs[j], s.who, s.admin) && Hidden(w.jobs[j], s.signalled)
  }

  /** The step commits such a cancel. */
  predicate CommitsHidden(w: World, s: Step, j: nat) {
    s.CommitCancel? && s.j == j && s.hidden && j < |w.jobs| && HasPending(w.jobs[j], true)
  }

  /** Some step of the run satisfied `p` in the state it was taken in. */
  ghost predicate Happened(n: nat, steps: seq<Step>, p: (World, Step) -> bool) {
    exists c :: 0 <= c < |steps| && p(Run(n, steps[..c]), steps[c])
  }

  ghost predicate HiddenCommitted(n: nat, steps: seq<Step>, j: nat) {
    Happened(n, steps, (w, s) => CommitsHidden(w, s, j))
  }

  ghost predicate HiddenAccepted(n: nat, steps: seq<Step>, j: nat) {
    Happened(n, steps, (w, s) => AcceptsHidden(w, s, j))
  }

  /** No hidden cancel of any of the user's own jobs committed. */
  ghost predicate NoHiddenCommit(n: nat, steps: seq<Step>, u: UserId) {
    forall j :: 0 <= j < |Run(n, steps).jobs| && Run(n, steps).jobs[j].user == u ==> !HiddenCommitted(n, steps, j)
  }

  lemma HappenedGrows(n: nat, front: seq<Step>, s: Step, p: (World, Step) -> bool)
    ensures Happened(n, front + [s], p) <==> Happened(n, front, p) || p(Run(n, front), s)
  {
    var steps := front + [s];
    assert steps[..|front|] == front && steps[|front|] == s;
    forall c | 0 <= c < |front| ensures Run(n, front[..c]) == Run(n, steps[..c]) && front[c] == steps[c] {
      assert front[..c] == steps[..c];
    }
  }

  /** The observer `late` and the pending hidden cancels, in terms of the run. */
  lemma {:induction false} LateMeans(n: nat, steps: seq<Step>, j: nat)
    requires j < |Run(n, steps).jobs|
    ensures Run(n, steps).jobs[j].late <==> HiddenCommitted(n, steps, j)
    ensures Run(n, steps).jobs[j].unseen > 0 || Run(n, steps).jobs[j].late ==> HiddenAccepted(n, steps, j)
  {
    if steps != [] {
      var front, s := steps[..|steps| - 1], steps[|steps| - 1];
      assert steps == front + [s];
      HappenedGrows(n, front, s, (w, x) => CommitsHidden(w, x, j));
      HappenedGrows(n, front, s, (w, x) => AcceptsHidden(w, x, j));
      RunKeepsInv(n, front);
      if j < |Run(n, front).jobs| {
        LateMeans(n, front, j);
        LateStep(Run(n, front), s, j);
      } else {
        NotYet(n, front, j);
        NewRow(Run(n, front), s, j);
      }
    }
  }

  lemma LateStep(w: World, s: Step, j: nat)
    requires Inv(w) && j < |w.jobs|
    ensures j < |Next(w, s).jobs|
    ensures Next(w, s).jobs[j].late <==> w.jobs[j].late || CommitsHidden(w, s, j)
    ensures Next(w, s).jobs[j].unseen > 0 ==> w.jobs[j].unseen > 0 || AcceptsHidden(w, s, j)
    ensures CommitsHidden(w, s, j) ==> w.jobs[j].unseen > 0
  {
    NextRow(w, s, j);
    if CommitsHidden(w, s, j) { CommitCancelSucceeds(w, j, true); }
  }

  lemma NewRow(w: World, s: Step, j: nat)
    requires |w.jobs| <= j < |Next(w, s).jobs|
    ensures !Next(w, s).jobs[j].late && Next(w, s).jobs[j].unseen == 0
  {}

  lemma {:induction false} NotYet(n: nat, steps: seq<Step>, j: nat)
    requires j >= |Run(n, steps).jobs|
    ensures !HiddenCommitted(n, steps, j)
  {
    if steps != [] {
      var front, s := steps[..|steps| - 1], steps[|steps| - 1];
      assert steps == front + [s];
      HappenedGrows(n, front, s, (w, x) => CommitsHidden(w, x, j));
      NeverFewer(Run(n, front), s);
      NotYet(n, front, j);
    }
  }

  lemma NeverFewer(w: World, s: Step)
    ensures |w.jobs| <= |Next(w, s).jobs|
  {}

  // ---------------------------------------------------------------------------------------------
  // Debit or refund, but never both
  // ---------------------------------------------------------------------------------------------

  /** A job key ends up with both settlements exactly when the job was debited and a hidden cancel
      committed; and every hidden cancel that committed was first accepted unsignalled or inside
      the window between the final poll and the finalizing commit. */
  lemma DoubleSettlementIff(n: nat, steps: seq<Step>, j: nat)
    requires j < |Run(n, steps).jobs|
    ensures var w := Run(n, steps);
            Both(w, w.jobs[j]) <==> Debited(w, w.jobs[j]) && HiddenCommitted(n, steps, j)
    ensures HiddenCommitted(n, steps, j) ==> HiddenAccepted(n, steps, j)
  {
    RunKeepsInv(n, steps);
    LateMeans(n, steps, j);
    assert JobFits(Run(n, steps), Run(n, steps).jobs[j]);
  }

  /** In every run a charged job that is COMPLETED is debited, and one that is FAILED or CANCELLED is
      refunded. While no hidden cancel of this very job committed, that is all: a terminal charged
      job has exactly one settlement, the one its status calls for, and no job has both. In general
      a terminal charged job has exactly one unless it was debited and a hidden cancel committed. */
  lemma SettledExactlyOnce(n: nat, steps: seq<Step>, j: nat)
    requires j < |Run(n, steps).jobs|
    ensures var w := Run(n, steps);
            var job := w.jobs[j];
            && (!job.noCharge && job.status.Completed? ==> Debited(w, job))
            && (!job.noCharge && (job.status.Failed? || job.status.Cancelled?) ==> Refunded(w, job))
            && (!job.noCharge && Terminal(job.status) ==>
                  (Debited(w, job) != Refunded(w, job) <==> !(Debited(w, job) && HiddenCommitted(n, steps, j))))
            && (!HiddenCommitted(n, steps, j) ==>
                  && !Both(w, job)
                  && (Debited(w, job) <==> !job.noCharge && job.status.Completed?))
  {
    RunKeepsInv(n, steps);
    LateMeans(n, steps, j);
    assert JobFits(Run(n, steps), Run(n, steps).jobs[j]);
  }

  /** What is left of an undisturbed delivery that is past its final poll. */
  function FinishSteps(job: Job, j: nat): seq<Step> {
    match job.worker
    case InStage(_, _) => [StageEnds(j, Succeeds), Save(j), Finalize(j, 1)]
    case Saving(_, _) => [Save(j), Finalize(j, 1)]
    case _ => [Finalize(j, 1)]
  }

  /** The window is real: in any state where a charged, still running job is past its final poll and
      can be paid for, a signalled cancel accepted there ends with both settlements if it commits
      and the delivery then runs to its end. */
  lemma WindowIsReal(w: World, j: nat)
    requires Inv(w) && j < |w.jobs| && !w.jobs[j].noCharge && InWindow(w.jobs[j])
    requires !Terminal(w.jobs[j].status) && w.jobs[j].cost <= BookAt(w, w.jobs[j].user).acct.balance
    ensures var rest := [AcceptCancel(j, w.jobs[j].user, false, true), CommitCancel(j, true)]
                        + FinishSteps(w.jobs[j], j);
            var w' := RunFrom(w, rest);
            j < |w'.jobs| && Both(w', w'.jobs[j]) && w'.jobs[j].status.Completed?
  {
    var accept, commit := AcceptCancel(j, w.jobs[j].user, false, true), CommitCancel(j, true);
    HiddenCancelRefunds(w, j);
    FinishBoth(Next(Next(w, accept), commit), j);
    RunTwo(w, accept, commit);
    RunFromJoin(w, [accept, commit], FinishSteps(w.jobs[j], j));
  }

  /** A cancel accepted and committed in the window refunds the job and leaves its delivery alone. */
  lemma HiddenCancelRefunds(w: World, j: nat)
    requires Inv(w) && j < |w.jobs| && !Terminal(w.jobs[j].status) && InWindow(w.jobs[j])
    ensures var job := w.jobs[j];
            var w' := Next(Next(w, AcceptCancel(j, job.user, false, true)), CommitCancel(j, true));
            && Inv(w') && |w'.jobs| == |w.jobs|
            && w'.jobs[j] == job.(flag := true, status := Cancelled, late := true)
            && (!job.noCharge ==> Refunded(w', w'.jobs[j]))
            && BookAt(w', job.user).acct.balance == BookAt(w, job.user).acct.balance
  {
    var accept, commit := AcceptCancel(j, w.jobs[j].user, false, true), CommitCancel(j, true);
    var w1 := Next(w, accept);
    assert w1.jobs[j] == w.jobs[j].(flag := true, unseen := w.jobs[j].unseen + 1);
    NextKeepsInv(w, accept);
    NextKeepsInv(w1, commit);
    CommitCancelSucceeds(w1, j, true);
    assert JobFits(Next(w1, commit), Next(w1, commit).jobs[j]);
  }

  lemma RunFromStep(w: World, steps: seq<Step>, s: Step)
    ensures RunFrom(w, steps + [s]) == Next(RunFrom(w, steps), s)
  {
    assert (steps + [s])[..|steps|] == steps;
  }

  lemma RunTwo(w: World, a: Step, b: Step)
    ensures RunFrom(w, [a, b]) == Next(Next(w, a), b)
  {
    RunFromStep(w, [], a);
    RunFromStep(w, [a], b);
    assert [] + [a] == [a] && [a] + [b] == [a, b];
  }

  lemma {:induction false} RunFromJoin(w: World, a: seq<Step>, b: seq<Step>)
    ensures RunFrom(w, a + b) == RunFrom(RunFrom(w, a), b)
  {
    if b == [] {
      assert a + b == a;
    } else {
      var front, s := b[..|b| - 1], b[|b| - 1];
      calc {
        RunFrom(w, a + b);
      == { assert a + b == (a + front) + [s]; }
        RunFrom(w, (a + front) + [s]);
      == { RunFromStep(w, a + front, s); }
        Next(RunFrom(w, a + front), s);
      == { RunFromJoin(w, a, front); }
        Next(RunFrom(RunFrom(w, a), front), s);
      == { RunFromStep(RunFrom(w, a), front, s); assert front + [s] == b; }
        RunFrom(RunFrom(w, a), b);
      }
    }
  }

  lemma FinishBoth(w: World, j: nat)
    requires Inv(w) && j < |w.jobs| && !w.jobs[j].noCharge && InWindow(w.jobs[j])
    requires Refunded(w, w.jobs[j]) && w.jobs[j].cost <= BookAt(w, w.jobs[j].user).acct.balance
    ensures var w' := RunFrom(w, FinishSteps(w.jobs[j], j));
            j < |w'.jobs| && Both(w', w'.jobs[j]) && w'.jobs[j].status.Completed?
    decreases |FinishSteps(w.jobs[j], j)|
  {
    var rest := FinishSteps(w.jobs[j], j);
    assert rest == [rest[0]] + rest[1..] && [] + [rest[0]] == [rest[0]];
    RunFromStep(w, [], rest[0]);
    RunFromJoin(w, [rest[0]], rest[1..]);
    if w.jobs[j].worker.Finishing? {
      FinalizeBoth(w, j);
      assert rest[1..] == [];
    } else {
      FinishNext(w, j);
      FinishBoth(Next(w, rest[0]), j);
    }
  }

  lemma FinishNext(w: World, j: nat)
    requires Inv(w) && j < |w.jobs| && InWindow(w.jobs[j]) && !w.jobs[j].worker.Finishing?
    ensures var rest := FinishSteps(w.jobs[j], j);
            var w' := Next(w, rest[0]);
            && Inv(w') && |w'.jobs| == |w.jobs| && w'.books == w.books
            && SameIdentity(w'.jobs[j], w.jobs[j]) && InWindow(w'.jobs[j])
            && FinishSteps(w'.jobs[j], j) == rest[1..]
  {
    NextKeepsInv(w, FinishSteps(w.jobs[j], j)[0]);
  }

  lemma FinalizeBoth(w: World, j: nat)
    requires Inv(w) && j < |w.jobs| && !w.jobs[j].noCharge && w.jobs[j].worker.Finishing?
    requires Refunded(w, w.jobs[j]) && w.jobs[j].cost <= BookAt(w, w.jobs[j].user).acct.balance
    ensures var w' := Next(w, Finalize(j, 1)); Both(w', w'.jobs[j]) && w'.jobs[j].status.Completed?
  {
    var job := w.jobs[j];
    assert UserOk(w, job.user);
    SettledBook(job, BookAt(w, job.user), DebitOp(job));
  }

  // ---------------------------------------------------------------------------------------------
  // Reservations and solvency
  // ---------------------------------------------------------------------------------------------

  /** The user has no doubly settled job exactly when none of the user's jobs was both debited and
      cancelled by a hidden cancel; in particular when no hidden cancel of them committed. */
  lemma NoDoubleIff(n: nat, steps: seq<Step>, u: UserId)
    ensures var w := Run(n, steps);
            NoDouble(w.jobs, u, BookAt(w, u).ledger) <==>
              forall j :: 0 <= j < |w.jobs| && w.jobs[j].user == u ==>
                !(Debited(w, w.jobs[j]) && HiddenCommitted(n, steps, j))
    ensures NoHiddenCommit(n, steps, u) ==> NoDouble(Run(n, steps).jobs, u, BookAt(Run(n, steps), u).ledger)
  {
    var w := Run(n, steps);
    forall j | 0 <= j < |w.jobs| && w.jobs[j].user == u
      ensures Doubled(w.jobs[j], BookAt(w, u).ledger) <==> Debited(w, w.jobs[j]) && HiddenCommitted(n, steps, j)
    {
      DoubleSettlementIff(n, steps, j);
    }
  }

  lemma {:induction false} OutstandingFits(jobs: seq<Job>, j: nat, u: UserId, ledger: seq<Txn>)
    requires j < |jobs|
    ensures Outstanding(jobs[j], u, ledger) <= Reserved(jobs, u, ledger)
  {
    if j < |jobs| - 1 {
      OutstandingFits(jobs[..|jobs| - 1], j, u, ledger);
    }
  }

  lemma {:induction false} NoDoubleNoCost(jobs: seq<Job>, u: UserId, ledger: seq<Txn>)
    requires NoDouble(jobs, u, ledger)
    ensures DoubledCost(jobs, u, ledger) == 0
  {
    if jobs != [] {
      assert jobs[|jobs| - 1].user == u ==> !Doubled(jobs[|jobs| - 1], ledger);
      NoDoubleNoCost(jobs[..|jobs| - 1], u, ledger);
    }
  }

  /** Conservation in every run: `held` is at most the summed cost of the user's jobs with a hold and
      neither settlement, and falls short of it by at most the cost of the user's doubly settled jobs. */
  lemma HeldWithinReserved(n: nat, steps: seq<Step>, u: UserId)
    ensures var w := Run(n, steps);
            var b := BookAt(w, u);
            0 <= b.acct.held <= Reserved(w.jobs, u, b.ledger) <= b.acct.held + DoubledCost(w.jobs, u, b.ledger)
  {
    RunKeepsInv(n, steps);
    assert UserOk(Run(n, steps), u);
  }

  /** So while nothing of the user's is doubly settled, `held` is exactly that sum, settling any of the
      jobs never meets the clamp at zero, and the requeued clones, which have no hold, count for
      nothing. Users whose own jobs saw no hidden cancel commit are always in this state. */
  lemma HeldIsReserved(n: nat, steps: seq<Step>, u: UserId)
    ensures var w := Run(n, steps);
            var b := BookAt(w, u);
            && (DoubledCost(w.jobs, u, b.ledger) == 0 ==>
                  && b.acct.held == Reserved(w.jobs, u, b.ledger)
                  && (forall j :: 0 <= j < |w.jobs| ==> Outstanding(w.jobs[j], u, b.ledger) <= b.acct.held))
            && (forall j :: 0 <= j < |w.jobs| && w.jobs[j].noCharge ==> Outstanding(w.jobs[j], u, b.ledger) == 0)
            && (NoDouble(w.jobs, u, b.ledger) ==> DoubledCost(w.jobs, u, b.ledger) == 0)
            && (NoHiddenCommit(n, steps, u) ==> NoDouble(w.jobs, u, b.ledger))
  {
    var w, l := Run(n, steps), BookAt(Run(n, steps), u).ledger;
    RunKeepsInv(n, steps);
    HeldWithinReserved(n, steps, u);
    forall j | 0 <= j < |w.jobs|
      ensures Outstanding(w.jobs[j], u, l) <= Reserved(w.jobs, u, l)
      ensures w.jobs[j].noCharge ==> Outstanding(w.jobs[j], u, l) == 0
    {
      OutstandingFits(w.jobs, j, u, l);
      assert JobFits(w, w.jobs[j]);
    }
    if NoDouble(w.jobs, u, l) { NoDoubleNoCost(w.jobs, u, l); }
    NoDoubleIff(n, steps, u);
  }

  /** In every run the balance is never negative, and without reversals for the user it covers what is
      held, whatever was cancelled. While nothing of the user's is doubly settled either, the debit that
      finalizes any of the user's jobs with an open hold is not refused. */
  lemma Solvent(n: nat, steps: seq<Step>, u: UserId)
    ensures var w := Run(n, steps);
            var b := BookAt(w, u);
            && 0 <= b.acct.balance && 0 <= b.acct.held
            && (NoReversal(b.ledger) ==> b.acct.held <= b.acct.balance)
            && (DoubledCost(w.jobs, u, b.ledger) == 0 && NoReversal(b.ledger) ==>
                  forall j :: 0 <= j < |w.jobs| && w.jobs[j].user == u
                    && HeldFor(w, w.jobs[j]) && !Refunded(w, w.jobs[j])
                    ==> !Exec(b, DebitOp(w.jobs[j])).outcome.Rejected?)
  {
    var w, b := Run(n, steps), BookAt(Run(n, steps), u);
    RunKeepsInv(n, steps);
    assert UserOk(w, u);
    if DoubledCost(w.jobs, u, b.ledger) == 0 && NoReversal(b.ledger) {
      HeldIsReserved(n, steps, u);
      forall j | 0 <= j < |w.jobs| && w.jobs[j].user == u && HeldFor(w, w.jobs[j]) && !Refunded(w, w.jobs[j])
        ensures !Exec(b, DebitOp(w.jobs[j])).outcome.Rejected?
      {
        HoldPays(w, w.jobs[j]);
      }
    }
  }

  lemma HoldPays(w: World, job: Job)
    requires Outstanding(job, job.user, BookAt(w, job.user).ledger) <= BookAt(w, job.user).acct.balance
    requires HeldFor(w, job) && !Refunded(w, job)
    ensures !Exec(BookAt(w, job.user), DebitOp(job)).outcome.Rejected?
  {}

  /** What a second settlement costs: finalizing a job whose refund has already committed leaves the
      reservations as they were but takes the job's cost out of `held` again, so `held` falls short
      exactly when the user has other reservations. */
  lemma SecondSettlementDrainsHeld(w: World, j: nat, outputs: Pos)
    requires Inv(w) && j < |w.jobs| && w.jobs[j].worker.Finishing? && w.jobs[j].cost > 0
    requires Refunded(w, w.jobs[j]) && w.jobs[j].cost <= BookAt(w, w.jobs[j].user).acct.balance
    requires NoDouble(w.jobs, w.jobs[j].user, BookAt(w, w.jobs[j].user).ledger)
    ensures var u := w.jobs[j].user;
            var w' := Next(w, Finalize(j, outputs));
            var b, b' := BookAt(w, u), BookAt(w', u);
            && Reserved(w'.jobs, u, b'.ledger) == Reserved(w.jobs, u, b.ledger)
            && b'.acct.held == Max(0, Reserved(w'.jobs, u, b'.ledger) - w.jobs[j].cost)
            && (b'.acct.held < Reserved(w'.jobs, u, b'.ledger) <==> 0 < Reserved(w.jobs, u, b.ledger))
  {
    var job, u := w.jobs[j], w.jobs[j].user;
    var b, w' := BookAt(w, u), Next(w, Finalize(j, outputs));
    assert UserOk(w, u);
    NoDoubleNoCost(w.jobs, u, b.ledger);
    SecondDebit(w, j);
    DrainedHeld(w, j, outputs);
  }

  lemma DrainedHeld(w: World, j: nat, outputs: Pos)
    requires j < |w.jobs| && DistinctKeys(w.jobs) && w.jobs[j].worker.Finishing?
             && !w.jobs[j].noCharge && w.jobs[j].cost > 0
    requires var job, b := w.jobs[j], BookAt(w, w.jobs[j].user);
             var r := Exec(b, DebitOp(job));
             && HasKey(b.ledger, RefundKey(job.key)) && b.acct.held == Reserved(w.jobs, job.user, b.ledger)
             && !r.outcome.Rejected? && Settled(job, b, r.book, DebitKey(job.key))
             && r.book.acct.held == Max(0, b.acct.held - job.cost)
    ensures var u := w.jobs[j].user;
            var w' := Next(w, Finalize(j, outputs));
            var b, b' := BookAt(w, u), BookAt(w', u);
            && Reserved(w'.jobs, u, b'.ledger) == Reserved(w.jobs, u, b.ledger)
            && b'.acct.held == Max(0, Reserved(w'.jobs, u, b'.ledger) - w.jobs[j].cost)
            && (b'.acct.held < Reserved(w'.jobs, u, b'.ledger) <==> 0 < Reserved(w.jobs, u, b.ledger))
  {
    var w', u := Next(w, Finalize(j, outputs)), w.jobs[j].user;
    FinalizedWorld(w, j, outputs);
    DrainedBooks(w.jobs, w'.jobs, j, BookAt(w, u), BookAt(w', u));
  }

  lemma SecondDebit(w: World, j: nat)
    requires Inv(w) && j < |w.jobs| && w.jobs[j].worker.Finishing? && w.jobs[j].cost > 0
    requires Refunded(w, w.jobs[j]) && w.jobs[j].cost <= BookAt(w, w.jobs[j].user).acct.balance
    requires NoDouble(w.jobs, w.jobs[j].user, BookAt(w, w.jobs[j].user).ledger)
    ensures var job, b := w.jobs[j], BookAt(w, w.jobs[j].user);
            var r := Exec(b, DebitOp(job));
            && !job.noCharge && !r.outcome.Rejected?
            && Settled(job, b, r.book, DebitKey(job.key))
            && r.book.acct.held == Max(0, b.acct.held - job.cost)
  {
    var job, b := w.jobs[j], BookAt(w, w.jobs[j].user);
    assert UserOk(w, job.user) && JobFits(w, job) && !Doubled(job, b.ledger);
    SettledBook(job, b, DebitOp(job));
  }

  lemma FinalizedWorld(w: World, j: nat, outputs: Pos)
    requires j < |w.jobs| && w.jobs[j].worker.Finishing? && !w.jobs[j].noCharge
    requires !Exec(BookAt(w, w.jobs[j].user), DebitOp(w.jobs[j])).outcome.Rejected?
    ensures var w', u := Next(w, Finalize(j, outputs)), w.jobs[j].user;
            && BookAt(w', u) == Exec(BookAt(w, u), DebitOp(w.jobs[j])).book
            && SameIdentities(w.jobs, w'.jobs)
  {}

  lemma DrainedBooks(js1: seq<Job>, js2: seq<Job>, j: nat, b: Book, b': Book)
    requires j < |js1| && DistinctKeys(js1) && SameIdentities(js1, js2)
    requires Settled(js1[j], b, b', DebitKey(js1[j].key)) && HasKey(b.ledger, RefundKey(js1[j].key))
    ensures Reserved(js2, js1[j].user, b'.ledger) == Reserved(js1, js1[j].user, b.ledger)
  {
    var u := js1[j].user;
    assert SameIdentity(js1[j], js2[j]);
    forall i | 0 <= i < |js1| && i != j ensures SameShares(js1[i], b.ledger, js2[i], b'.ledger, u) {
      assert SameIdentity(js1[i], js2[i]) && js1[i].key != js1[j].key;
    }
    ReservedUpdate(js1, js2, j, u, b.ledger, b'.ledger);
  }

  /** How many ledger rows carry a key. */
  function RowsWith(ledger: seq<Txn>, key: Key): nat {
    if ledger == [] then 0
    else RowsWith(ledger[..|ledger| - 1], key) + if ledger[|ledger| - 1].key == Some(key) then 1 else 0
  }

  lemma {:induction false} RowsWithUnique(ledger: seq<Txn>, key: Key)
    requires UniqueKeys(ledger)
    ensures RowsWith(ledger, key) == if HasKey(ledger, key) then 1 else 0
  {
    if ledger != [] {
      var front, t := ledger[..|ledger| - 1], ledger[|ledger| - 1];
      RowsWithUnique(front, key);
      FindSound(front, Some(key));
      assert forall i :: 0 <= i < |front| ==> front[i] == ledger[i] && (t.key.Some? ==> ledger[i].key != t.key);
    }
  }

  /** However many cancels, worker cancels, failures and retries a job goes through, and in whatever
      order: a charged job that is FAILED or CANCELLED has released its hold exactly once, nothing of
      it is reserved any more, and unless a hidden cancel of it committed it was not debited. No job
      ever has more than one row of a kind, and no released job has anything reserved. */
  lemma ReleasedExactlyOnce(n: nat, steps: seq<Step>, j: nat)
    requires j < |Run(n, steps).jobs|
    ensures var w := Run(n, steps);
            var job := w.jobs[j];
            var l := BookAt(w, job.user).ledger;
            var refunds, debits := RowsWith(l, RefundKey(job.key)), RowsWith(l, DebitKey(job.key));
            && refunds <= 1 && debits <= 1
            && (refunds == 1 ==> Outstanding(job, job.user, l) == 0)
            && (!job.noCharge && (job.status.Failed? || job.status.Cancelled?) ==>
                  && refunds == 1
                  && (!HiddenCommitted(n, steps, j) ==> debits == 0))
            && (!job.noCharge && job.status.Completed? ==>
                  debits == 1 && (!HiddenCommitted(n, steps, j) ==> refunds == 0))
  {
    RunKeepsInv(n, steps);
    SettledExactlyOnce(n, steps, j);
    var w := Run(n, steps);
    var job := w.jobs[j];
    assert UserOk(w, job.user);
    RowsWithUnique(BookAt(w, job.user).ledger, RefundKey(job.key));
    RowsWithUnique(BookAt(w, job.user).ledger, DebitKey(job.key));
  }

  // ---------------------------------------------------------------------------------------------
  // Completion and progress
  // ---------------------------------------------------------------------------------------------

  /** Results, progress 100 and the debit appear together; before that progress is at most 95. Unless
      a hidden cancel of the job committed, they are there exactly when it is COMPLETED. */
  lemma CompletionIsAtomic(n: nat, steps: seq<Step>, j: nat)
    requires j < |Run(n, steps).jobs|
    ensures var w := Run(n, steps);
            var job := w.jobs[j];
            && (job.results > 0 <==> job.progress == 100)
            && (job.results == 0 ==> job.progress <= 95)
            && (!job.noCharge ==> (job.results > 0 <==> Debited(w, job)))
            && (job.status.Completed? ==> job.results > 0)
            && (!HiddenCommitted(n, steps, j) ==> (job.results > 0 <==> job.status.Completed?))
  {
    RunKeepsInv(n, steps);
    LateMeans(n, steps, j);
    assert JobFits(Run(n, steps), Run(n, steps).jobs[j]);
  }

  /** Nothing that happens to a job afterwards, retries and redeliveries included, lowers its
      progress or adds to its results once it has some. */
  lemma {:induction false} ProgressOnlyGrows(n: nat, steps: seq<Step>, more: seq<Step>, j: nat)
    requires j < |Run(n, steps).jobs|
    ensures var w, w' := Run(n, steps), Run(n, steps + more);
            && j < |w'.jobs|
            && w.jobs[j].progress <= w'.jobs[j].progress
            && (w.jobs[j].results > 0 ==> w'.jobs[j].results == w.jobs[j].results)
  {
    if more == [] {
      assert steps + more == steps;
    } else {
      var front, s := more[..|more| - 1], more[|more| - 1];
      ProgressOnlyGrows(n, steps, front, j);
      RunMore(n, steps, more);
      RunKeepsInv(n, steps + front);
      StepGrows(Run(n, steps + front), s, j);
    }
  }

  lemma RunMore(n: nat, steps: seq<Step>, more: seq<Step>)
    requires more != []
    ensures Run(n, steps + more) == Next(Run(n, steps + more[..|more| - 1]), more[|more| - 1])
  {
    assert steps + more == (steps + more[..|more| - 1]) + [more[|more| - 1]];
    RunFromStep(World(n, map[], []), steps + more[..|more| - 1], more[|more| - 1]);
  }

  lemma StepGrows(w: World, s: Step, j: nat)
    requires Inv(w) && j < |w.jobs|
    ensures j < |Next(w, s).jobs|
    ensures w.jobs[j].progress <= Next(w, s).jobs[j].progress
    ensures w.jobs[j].results > 0 ==> Next(w, s).jobs[j].results == w.jobs[j].results
  {
    NextRow(w, s, j);
    assert JobFits(w, w.jobs[j]);
  }

  // ---------------------------------------------------------------------------------------------
  // A cancel that was seen in time is final
  // ---------------------------------------------------------------------------------------------

  /** Once the flag is up and no delivery is past its final poll, the job never completes, whatever
      happens next. */
  lemma {:induction false} CancelIsFinal(n: nat, steps: seq<Step>, more: seq<Step>, j: nat)
    requires var w := Run(n, steps); j < |w.jobs| && w.jobs[j].flag && !InWindow(w.jobs[j]) && w.jobs[j].results == 0
    ensures var w' := Run(n, steps + more);
            j < |w'.jobs| && w'.jobs[j].flag && !InWindow(w'.jobs[j])
            && w'.jobs[j].results == 0 && !Debited(w', w'.jobs[j])
  {
    if more == [] {
      assert steps + more == steps;
      RunKeepsInv(n, steps);
      assert JobFits(Run(n, steps), Run(n, steps).jobs[j]);
    } else {
      var front, s := more[..|more| - 1], more[|more| - 1];
      CancelIsFinal(n, steps, front, j);
      RunMore(n, steps, more);
      RunKeepsInv(n, steps + front);
      NextKeepsInv(Run(n, steps + front), s);
      FlaggedStep(Run(n, steps + front), s, j);
    }
  }

  lemma FlaggedStep(w: World, s: Step, j: nat)
    requires Inv(w) && Inv(Next(w, s))
    requires j < |w.jobs| && w.jobs[j].flag && !InWindow(w.jobs[j]) && w.jobs[j].results == 0
    ensures var w' := Next(w, s);
            j < |w'.jobs| && w'.jobs[j].flag && !InWindow(w'.jobs[j])
            && w'.jobs[j].results == 0 && !Debited(w', w'.jobs[j])
  {
    NextRow(w, s, j);
    assert JobFits(Next(w, s), Next(w, s).jobs[j]);
  }

  // ---------------------------------------------------------------------------------------------
  // When CANCELLED is kept
  // ---------------------------------------------------------------------------------------------

  /** The two places that write a status without reading the one that is there. */
  predicate Overwrites(w: World, s: Step, j: nat) {
    && j < |w.jobs|
    && ((s.Fail? && s.j == j && w.jobs[j].worker.Failing?)
        || (s.Finalize? && s.j == j && w.jobs[j].worker.Finishing? && CanFinalize(w, j)))
  }

  /** A step takes a job out of CANCELLED exactly when it is the failure handling of its delivery, or
      the finalizing commit; and it is then QUEUED again, FAILED or COMPLETED. */
  lemma CancelledOverwrittenIff(w: World, s: Step, j: nat)
    requires Inv(w) && j < |w.jobs| && w.jobs[j].status.Cancelled?
    ensures j < |Next(w, s).jobs|
    ensures !Next(w, s).jobs[j].status.Cancelled? <==> Overwrites(w, s, j)
    ensures Overwrites(w, s, j) ==>
              Next(w, s).jobs[j].status == if s.Finalize? then Completed
                                           else if Retries(w.jobs[j], w.maxRetries) then Queued else Failed
  {
    NextRow(w, s, j);
    if s.Fail? && s.j == j { FailRow(w, j); }
    if s.Finalize? && s.j == j { FinalizeRow(w, j, s.outputs); }
  }

  /** There is no delivery of the job, or the one in flight will stop at its next poll. */
  predicate CancelHolds(job: Job) {
    match job.worker
    case Idle => true
    case Stopping(_) => true
    case Looping(_, _) => job.flag
    case Saving(i, _) => job.flag && i + 1 < job.stages
    case _ => false
  }

  lemma {:induction false} CancelKept(w: World, j: nat, more: seq<Step>)
    requires Inv(w) && j < |w.jobs| && w.jobs[j].status.Cancelled? && CancelHolds(w.jobs[j])
    ensures var w' := RunFrom(w, more);
            Inv(w') && j < |w'.jobs| && w'.jobs[j].status.Cancelled? && CancelHolds(w'.jobs[j])
  {
    if more != [] {
      var front, s := more[..|more| - 1], more[|more| - 1];
      CancelKept(w, j, front);
      CancelKeptStep(RunFrom(w, front), s, j);
    }
  }

  lemma CancelKeptStep(w: World, s: Step, j: nat)
    requires Inv(w) && j < |w.jobs| && w.jobs[j].status.Cancelled? && CancelHolds(w.jobs[j])
    ensures var w' := Next(w, s);
            Inv(w') && j < |w'.jobs| && w'.jobs[j].status.Cancelled? && CancelHolds(w'.jobs[j])
  {
    NextKeepsInv(w, s);
    NextRow(w, s, j);
  }

  /** A continuation that overwrites the status: the delivery fails, or finishes once there are
      credits for it. */
  function OverwriteSteps(job: Job, j: nat): seq<Step> {
    match job.worker
    case Failing(_, _) => [Fail(j)]
    case InStage(_, _) => [StageEnds(j, FailsHard), Fail(j)]
    case Looping(_, _) => [Poll(j), StageEnds(j, FailsHard), Fail(j)]
    case Saving(i, _) =>
      if i + 1 < job.stages then [Save(j), Poll(j), StageEnds(j, FailsHard), Fail(j)]
      else [Save(j)] + PayAndFinish(job, j)
    case _ => PayAndFinish(job, j)
  }

  function PayAndFinish(job: Job, j: nat): seq<Step> {
    [PayFor(job), Finalize(j, 1)]
  }

  function PayFor(job: Job): Step { Credit(job.user, OpGrant(job.cost + 1, None, None)) }

  lemma PaidFinishOverwrites(w: World, j: nat)
    requires j < |w.jobs| && w.jobs[j].worker.Finishing? && 0 <= BookAt(w, w.jobs[j].user).acct.balance
    ensures var w' := RunFrom(w, PayAndFinish(w.jobs[j], j)); j < |w'.jobs| && w'.jobs[j].status.Completed?
  {
    RunPayAndFinish(w, w.jobs[j], j);
    PayCovers(w, j);
    FinalizeCompletes(Next(w, PayFor(w.jobs[j])), j);
  }

  lemma RunPayAndFinish(w: World, job: Job, j: nat)
    ensures RunFrom(w, PayAndFinish(job, j)) == Next(Next(w, PayFor(job)), Finalize(j, 1))
  {
    RunTwo(w, PayFor(job), Finalize(j, 1));
  }

  lemma FinalizeCompletes(w: World, j: nat)
    requires j < |w.jobs| && w.jobs[j].worker.Finishing? && CanFinalize(w, j)
    ensures var w' := Next(w, Finalize(j, 1)); |w'.jobs| == |w.jobs| && w'.jobs[j].status.Completed?
  {
    FinalizeRow(w, j, 1);
  }

  /** A grant of more than the price makes the finalizing commit possible. */
  lemma PayCovers(w: World, j: nat)
    requires j < |w.jobs| && 0 <= BookAt(w, w.jobs[j].user).acct.balance
    ensures var w' := Next(w, PayFor(w.jobs[j]));
            w'.jobs == w.jobs && CanFinalize(w', j)
  {
    GrantCovers(BookAt(w, w.jobs[j].user), w.jobs[j]);
  }

  lemma GrantCovers(b: Book, job: Job)
    requires 0 <= b.acct.balance
    ensures !Exec(Exec(b, OpGrant(job.cost + 1, None, None)).book, DebitOp(job)).outcome.Rejected?
  {
    assert Exec(b, OpGrant(job.cost + 1, None, None)).book.acct.balance == b.acct.balance + job.cost + 1;
  }

  lemma OverwriteRun(w: World, j: nat)
    requires Inv(w) && j < |w.jobs| && !CancelHolds(w.jobs[j])
    ensures var w' := RunFrom(w, OverwriteSteps(w.jobs[j], j)); j < |w'.jobs| && !w'.jobs[j].status.Cancelled?
    decreases |OverwriteSteps(w.jobs[j], j)|
  {
    if w.jobs[j].worker.Finishing? {
      assert UserOk(w, w.jobs[j].user);
      PaidFinishOverwrites(w, j);
    } else if w.jobs[j].worker.Failing? {
      FailOverwrites(w, j);
    } else {
      var steps := OverwriteSteps(w.jobs[j], j);
      assert steps == [steps[0]] + steps[1..];
      RunCons(w, steps[0], steps[1..]);
      OverwriteNext(w, j);
      OverwriteRun(Next(w, steps[0]), j);
    }
  }

  lemma RunCons(w: World, s: Step, rest: seq<Step>)
    ensures RunFrom(w, [s] + rest) == RunFrom(Next(w, s), rest)
  {
    assert [] + [s] == [s];
    RunFromStep(w, [], s);
    RunFromJoin(w, [s], rest);
  }

  lemma FailOverwrites(w: World, j: nat)
    requires Inv(w) && j < |w.jobs| && w.jobs[j].worker.Failing?
    ensures var w' := RunFrom(w, [Fail(j)]); j < |w'.jobs| && !w'.jobs[j].status.Cancelled?
  {
    RunCons(w, Fail(j), []);
    assert [Fail(j)] + [] == [Fail(j)];
    FailRow(w, j);
  }

  lemma OverwriteNext(w: World, j: nat)
    requires Inv(w) && j < |w.jobs| && !CancelHolds(w.jobs[j])
    requires !w.jobs[j].worker.Finishing? && !w.jobs[j].worker.Failing?
    ensures var steps := OverwriteSteps(w.jobs[j], j);
            var w' := Next(w, steps[0]);
            && Inv(w') && |w'.jobs| == |w.jobs|
            && !CancelHolds(w'.jobs[j]) && OverwriteSteps(w'.jobs[j], j) == steps[1..]
  {
    NextKeepsInv(w, OverwriteSteps(w.jobs[j], j)[0]);
  }

  /** A job that has nothing left to go through: whatever happens, it is CANCELLED. */
  ghost predicate StaysCancelled(w: World, j: nat) {
    forall more :: CancelledAfter(w, j, more)
  }

  ghost predicate CancelledAfter(w: World, j: nat, more: seq<Step>) {
    j < |RunFrom(w, more).jobs| && RunFrom(w, more).jobs[j].status.Cancelled?
  }

  /** CANCELLED is terminal exactly when no delivery is in flight, or the one in flight has seen the
      flag or is about to poll it. Otherwise some continuation overwrites it. */
  lemma CancelledIsTerminalIff(w: World, j: nat)
    requires Inv(w) && j < |w.jobs| && w.jobs[j].status.Cancelled?
    ensures StaysCancelled(w, j) <==> CancelHolds(w.jobs[j])
  {
    if CancelHolds(w.jobs[j]) {
      forall more ensures CancelledAfter(w, j, more) { CancelKept(w, j, more); }
    } else {
      OverwriteRun(w, j);
      assert !CancelledAfter(w, j, OverwriteSteps(w.jobs[j], j));
    }
  }

  /** The retry path writes QUEUED over CANCELLED. The job is refunded, and a later claim takes it
      again exactly when the cancel flag was not raised. */
  lemma CancelledJobLeftQueued(w: World, j: nat)
    requires Inv(w) && j < |w.jobs| && Retries(w.jobs[j], w.maxRetries) && w.jobs[j].status.Cancelled?
    ensures var w' := Next(w, Fail(j));
            && w'.jobs[j].status.Queued?
            && (!w.jobs[j].noCharge ==> Refunded(w', w'.jobs[j]))
            && (Next(w', Claim(j)).jobs[j].status.Running? <==> !w.jobs[j].flag)
            && (w.jobs[j].flag ==> Next(w', Claim(j)) == w')
  {
    assert JobFits(w, w.jobs[j]);
  }
}
