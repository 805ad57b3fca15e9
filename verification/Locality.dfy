/**
 A step of one job looks at that job's row, its user's book and the retry limit, and at nothing else;
 so what a job's steps do in a world of their own they do in every world.
 */
module Locality {
  import opened Ledger
  import opened Protocol

  predicate OfOneJob(s: Step) { !s.Credit? && !s.Submit? && !s.Requeue? }

  /** The same step for job `j`. */
  function Aim(s: Step, j: nat): Step
    requires OfOneJob(s)
  {
    s.(j := j)
  }

  predicate AllOfJob0(steps: seq<Step>) { forall k :: 0 <= k < |steps| ==> OfOneJob(steps[k]) && steps[k].j == 0 }

  function AimAll(steps: seq<Step>, j: nat): seq<Step>
    requires AllOfJob0(steps)
  {
    if steps == [] then [] else AimAll(steps[..|steps| - 1], j) + [Aim(steps[|steps| - 1], j)]
  }

  /** World `w` is `w0` but for job `j` and its user's book, which are as in the one-job world `l`. */
  ghost predicate Mirrors(w0: World, w: World, l: World, j: nat)
    requires j < |w0.jobs|
  {
    var u := w0.jobs[j].user;
    && |l.jobs| == 1 && l.jobs[0].user == u && l.maxRetries == w.maxRetries == w0.maxRetries
    && w.jobs == w0.jobs[j := l.jobs[0]]
    && BookAt(w, u) == BookAt(l, u)
    && (forall v :: v != u ==> BookAt(w, v) == BookAt(w0, v))
  }

  lemma SetMirrors(w0: World, w: World, l: World, j: nat, job: Job)
    requires j < |w0.jobs| && Mirrors(w0, w, l, j) && job.user == w0.jobs[j].user
    ensures Mirrors(w0, SetJob(w, j, job), SetJob(l, 0, job), j)
  {}

  lemma SettleMirrors(w0: World, w: World, l: World, j: nat, op: Op, job: Job, lost: Job)
    requires j < |w0.jobs| && Mirrors(w0, w, l, j) && job.user == lost.user == w0.jobs[j].user
    ensures Mirrors(w0, Settle(w, j, op, job, lost), Settle(l, 0, op, job, lost), j)
  {}

  lemma StepMirrors(w0: World, w: World, l: World, j: nat, s: Step)
    requires j < |w0.jobs| && Mirrors(w0, w, l, j) && OfOneJob(s) && s.j == 0
    ensures Mirrors(w0, Next(w, Aim(s, j)), Next(l, s), j)
  {
    var job := l.jobs[0];
    match s
    case AcceptCancel(_, who, admin, signalled) =>
      if MayCancel(job, who, admin) { SetMirrors(w0, w, l, j, DoAccept(l, 0, who, admin, signalled).jobs[0]); }
    case CommitCancel(_, hidden) =>
      if HasPending(job, hidden) {
        var dropped := DropPending(job, hidden);
        SettleMirrors(w0, w, l, j, RefundOp(job), dropped.(status := Cancelled, late := job.late || hidden), dropped);
      }
    case AbortCancel(_, hidden) => if HasPending(job, hidden) { SetMirrors(w0, w, l, j, DropPending(job, hidden)); }
    case MarkCancelled(_) => if job.worker.Stopping? { EndMirrors(w0, w, l, j, Cancelled); }
    case Fail(_) =>
      if job.worker.Failing? {
        if Retries(job, l.maxRetries) {
          SetMirrors(w0, w, l, j, EndRow(job, Queued));
        } else {
          EndMirrors(w0, w, l, j, Failed);
        }
      }
    case Finalize(_, outputs) => if job.worker.Finishing? { FinalizeMirrors(w0, w, l, j, outputs); }
    case _ => DeliveryMirrors(w0, w, l, j, s);
  }

  lemma EndMirrors(w0: World, w: World, l: World, j: nat, status: Status)
    requires j < |w0.jobs| && Mirrors(w0, w, l, j)
    ensures Mirrors(w0, DoRefundAndEnd(w, j, status), DoRefundAndEnd(l, 0, status), j)
  {
    var job := l.jobs[0];
    if job.noCharge { SetMirrors(w0, w, l, j, EndRow(job, status)); }
    else { SettleMirrors(w0, w, l, j, RefundOp(job), EndRow(job, status), job.(worker := Idle)); }
  }

  lemma FinalizeMirrors(w0: World, w: World, l: World, j: nat, outputs: Pos)
    requires j < |w0.jobs| && Mirrors(w0, w, l, j)
    ensures Mirrors(w0, DoFinalize(w, j, outputs), DoFinalize(l, 0, outputs), j)
  {
    var job := l.jobs[0];
    if job.noCharge { SetMirrors(w0, w, l, j, CompleteRow(job, outputs)); }
    else { SettleMirrors(w0, w, l, j, DebitOp(job), CompleteRow(job, outputs), job.(worker := Idle)); }
  }

  lemma DeliveryMirrors(w0: World, w: World, l: World, j: nat, s: Step)
    requires s.Claim? || s.Poll? || s.StageEnds? || s.Save? || s.Crash?
    requires j < |w0.jobs| && Mirrors(w0, w, l, j) && s.j == 0
    ensures Mirrors(w0, Next(w, Aim(s, j)), Next(l, s), j)
  {
    if Next(l, s) != l { SetMirrors(w0, w, l, j, Next(l, s).jobs[0]); }
  }

  /** What a job's steps do in its own world, they do in any world. */
  lemma {:induction false} RunMirrors(w: World, l: World, j: nat, steps: seq<Step>)
    requires j < |w.jobs| && Mirrors(w, w, l, j) && AllOfJob0(steps)
    ensures Mirrors(w, RunFrom(w, AimAll(steps, j)), RunFrom(l, steps), j)
  {
    if steps != [] {
      var front, s := steps[..|steps| - 1], steps[|steps| - 1];
      RunMirrors(w, l, j, front);
      StepMirrors(w, RunFrom(w, AimAll(front, j)), RunFrom(l, front), j, s);
      assert AimAll(steps, j)[..|AimAll(front, j)|] == AimAll(front, j);
    }
  }
}
