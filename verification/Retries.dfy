/**
 Whole-job retry over every run of the settlement protocol: how often a job is claimed, and how it
 ends, with any number of other jobs, cancels, crashes and webhook deliveries in between.
 */
module Retries {
  import opened Wrappers
  import opened Protocol
  import opened ProtocolInvariant
  import opened Settlement
  import Worker

  /** The step ends the delivery in flight without handling: a crash, or a finalizing commit whose
      debit is refused. */
  predicate LosesDelivery(w: World, s: Step, j: nat) {
    && j < |w.jobs| && !w.jobs[j].worker.Idle?
    && ((s.Crash? && s.j == j) || (s.Finalize? && s.j == j && w.jobs[j].worker.Finishing? && !CanFinalize(w, j)))
  }

  /** The step puts the job back into the queue. */
  predicate RetriesJob(w: World, s: Step, j: nat) {
    s.Fail? && s.j == j && j < |w.jobs| && Retries(w.jobs[j], w.maxRetries)
  }

  predicate AcceptsCancel(w: World, s: Step, j: nat) {
    s.AcceptCancel? && s.j == j && j < |w.jobs| && MayCancel(w.jobs[j], s.who, s.admin)
  }

  /** Deliveries of the job that were lost in a run. */
  function Lost(n: nat, steps: seq<Step>, j: nat): nat {
    if steps == [] then 0
    else
      var front := steps[..|steps| - 1];
      Lost(n, front, j) + if LosesDelivery(Run(n, front), steps[|steps| - 1], j) then 1 else 0
  }

  /** Those of them that were lost on the last attempt allowed, or later. */
  function LostLate(n: nat, steps: seq<Step>, j: nat): nat {
    if steps == [] then 0
    else
      var front := steps[..|steps| - 1];
      LostLate(n, front, j) + if LosesLate(Run(n, front), steps[|steps| - 1], j) then 1 else 0
  }

  predicate LosesLate(w: World, s: Step, j: nat) {
    LosesDelivery(w, s, j) && Max(1, w.maxRetries) <= w.jobs[j].attempts
  }

  lemma {:induction false} LateAreLost(n: nat, steps: seq<Step>, j: nat)
    ensures LostLate(n, steps, j) <= Lost(n, steps, j)
  {
    if steps != [] { LateAreLost(n, steps[..|steps| - 1], j); }
  }

  /** Times the job was put back. */
  function Retried(n: nat, steps: seq<Step>, j: nat): nat {
    if steps == [] then 0
    else
      var front := steps[..|steps| - 1];
      Retried(n, front, j) + if RetriesJob(Run(n, front), steps[|steps| - 1], j) then 1 else 0
  }

  ghost predicate CancelAccepted(n: nat, steps: seq<Step>, j: nat) {
    Happened(n, steps, (w, s) => AcceptsCancel(w, s, j))
  }

  // ---------------------------------------------------------------------------------------------
  // The claim bound
  // ---------------------------------------------------------------------------------------------

  /** Beyond the limit, each attempt comes after a late loss, and each late loss makes room for one. */
  predicate Bounded(maxRetries: nat, job: Job, late: nat) {
    var most := Max(1, maxRetries);
    && job.attempts <= most + late
    && (!job.worker.Idle? ==> job.worker.tries == job.attempts && late == Max(0, job.attempts - most))
    && (job.worker.Idle? && !Terminal(job.status) ==> late == Max(0, job.attempts + 1 - most))
  }

  lemma {:induction false} SameLimit(n: nat, steps: seq<Step>)
    ensures Run(n, steps).maxRetries == n
  {
    if steps != [] {
      SameLimit(n, steps[..|steps| - 1]);
      LimitStays(Run(n, steps[..|steps| - 1]), steps[|steps| - 1]);
    }
  }

  lemma LimitStays(w: World, s: Step)
    ensures Next(w, s).maxRetries == w.maxRetries
  {}

  lemma BoundStep(w: World, s: Step, j: nat, late: nat)
    requires Inv(w) && j < |w.jobs| && Bounded(w.maxRetries, w.jobs[j], late)
    ensures j < |Next(w, s).jobs|
    ensures Bounded(w.maxRetries, Next(w, s).jobs[j], late + if LosesLate(w, s, j) then 1 else 0)
  {
    NextRow(w, s, j);
    if s.Finalize? && s.j == j { FinalizeRow(w, j, s.outputs); }
    if Next(w, s).jobs[j] != w.jobs[j] {
      BoundRow(w.maxRetries, w.jobs[j], s, Next(w, s).jobs[j], late, LosesDelivery(w, s, j));
    }
  }

  lemma BoundRow(maxRetries: nat, job: Job, s: Step, job': Job, late: nat, gone: bool)
    requires Bounded(maxRetries, job, late) && RowChange(maxRetries, job, s, job')
    requires gone <==>
               && !job.worker.Idle?
               && (s.Crash? || (s.Finalize? && job'.status == job.status && job'.progress == job.progress))
    requires s.Finalize? && !gone ==> Terminal(job'.status)
    ensures Bounded(maxRetries, job', late + if gone && Max(1, maxRetries) <= job.attempts then 1 else 0)
  {}

  lemma NewRowBounded(w: World, s: Step, j: nat, n: nat)
    requires |w.jobs| <= j < |Next(w, s).jobs|
    ensures Bounded(n, Next(w, s).jobs[j], 0) && !LosesDelivery(w, s, j) && !RetriesJob(w, s, j)
    ensures Next(w, s).jobs[j].attempts == 0 && Next(w, s).jobs[j].worker.Idle?
  {}

  lemma {:induction false} NotLostYet(n: nat, steps: seq<Step>, j: nat)
    requires j >= |Run(n, steps).jobs|
    ensures Lost(n, steps, j) == 0
  {
    if steps != [] {
      NeverFewer(Run(n, steps[..|steps| - 1]), steps[|steps| - 1]);
      NotLostYet(n, steps[..|steps| - 1], j);
    }
  }

  lemma {:induction false} BoundedOverRuns(n: nat, steps: seq<Step>, j: nat)
    requires j < |Run(n, steps).jobs|
    ensures Bounded(n, Run(n, steps).jobs[j], LostLate(n, steps, j))
  {
    if steps != [] {
      var front, s := steps[..|steps| - 1], steps[|steps| - 1];
      if j < |Run(n, front).jobs| {
        RunKeepsInv(n, front);
        SameLimit(n, front);
        BoundedOverRuns(n, front, j);
        BoundStep(Run(n, front), s, j, LostLate(n, front, j));
      } else {
        NotLostYet(n, front, j);
        LateAreLost(n, front, j);
        NewRowBounded(Run(n, front), s, j, n);
      }
    }
  }

  /** In every run, whatever happens to the job and beside it, it is claimed at most
      max(1, JOB_MAX_RETRIES) times and once more for each delivery that was lost on the last allowed
      attempt or later. While a delivery is in flight this is exact: beyond the limit the number of
      claims is the limit plus those losses, so it is beyond the limit if and only if there was one. A
      job that can still be claimed has a claim left under the same count. */
  lemma ClaimBound(n: nat, steps: seq<Step>, j: nat)
    requires j < |Run(n, steps).jobs|
    ensures var job, most, late := Run(n, steps).jobs[j], Max(1, n), LostLate(n, steps, j);
            && job.attempts <= most + late
            && (!job.worker.Idle? && most <= job.attempts ==> job.attempts == most + late)
            && (!job.worker.Idle? ==> (most < job.attempts <==> 0 < late))
            && (job.worker.Idle? && !Terminal(job.status) ==> job.attempts < most + late)
  {
    BoundedOverRuns(n, steps, j);
  }

  // ---------------------------------------------------------------------------------------------
  // The delays
  // ---------------------------------------------------------------------------------------------

  /** The seconds for which the job was put back, over a whole run. */
  function TotalDelay(n: nat, base: nat, steps: seq<Step>, j: nat): nat {
    if steps == [] then 0
    else TotalDelay(n, base, steps[..|steps| - 1], j)
         + DelayOf(base, Run(n, steps[..|steps| - 1]), steps[|steps| - 1], j)
  }

  /** A step that puts the job back does so with the delay of the attempt that failed. */
  function DelayOf(base: nat, w: World, s: Step, j: nat): nat {
    if RetriesJob(w, s, j) then Worker.RetryDelay(base, w.jobs[j].worker.tries) else 0
  }

  /** The attempt that a next retry would be after, up to the limit. */
  function Ahead(maxRetries: nat, job: Job): nat {
    Min(Max(1, maxRetries), if job.worker.Idle? then job.attempts + 1 else Max(1, job.attempts))
  }

  predicate DelayFits(maxRetries: nat, base: nat, job: Job, delay: nat) {
    && delay + Worker.RetryDelay(base, 1) <= Worker.RetryDelay(base, Ahead(maxRetries, job))
    && (!job.worker.Idle? ==> job.worker.tries == job.attempts && 1 <= job.attempts)
  }

  lemma DelayStep(w: World, base: nat, s: Step, j: nat, delay: nat)
    requires Inv(w) && j < |w.jobs| && DelayFits(w.maxRetries, base, w.jobs[j], delay)
    ensures j < |Next(w, s).jobs|
    ensures DelayFits(w.maxRetries, base, Next(w, s).jobs[j], delay + DelayOf(base, w, s, j))
  {
    NextRow(w, s, j);
    var job, job' := w.jobs[j], Next(w, s).jobs[j];
    if RetriesJob(w, s, j) {
      FailRow(w, j);
      Doubles(base, job.attempts);
    } else if job' != job {
      AheadGrows(w.maxRetries, job, s, job');
      Worker.RetryDelayGrows(base, Ahead(w.maxRetries, job), Ahead(w.maxRetries, job'));
    }
  }

  lemma AheadGrows(maxRetries: nat, job: Job, s: Step, job': Job)
    requires RowChange(maxRetries, job, s, job')
             && (!job.worker.Idle? ==> job.worker.tries == job.attempts && 1 <= job.attempts)
    ensures Ahead(maxRetries, job) <= Ahead(maxRetries, job')
    ensures !job'.worker.Idle? ==> job'.worker.tries == job'.attempts && 1 <= job'.attempts
  {}

  lemma Doubles(base: nat, n: nat)
    ensures Worker.RetryDelay(base, n + 1) == 2 * Worker.RetryDelay(base, n)
  {}

  lemma {:induction false} NoDelayYet(n: nat, base: nat, steps: seq<Step>, j: nat)
    requires j >= |Run(n, steps).jobs|
    ensures TotalDelay(n, base, steps, j) == 0
  {
    if steps != [] {
      NeverFewer(Run(n, steps[..|steps| - 1]), steps[|steps| - 1]);
      NoDelayYet(n, base, steps[..|steps| - 1], j);
    }
  }

  lemma {:induction false} DelayOverRuns(n: nat, base: nat, steps: seq<Step>, j: nat)
    requires j < |Run(n, steps).jobs|
    ensures DelayFits(n, base, Run(n, steps).jobs[j], TotalDelay(n, base, steps, j))
  {
    if steps != [] {
      var front, s := steps[..|steps| - 1], steps[|steps| - 1];
      if j < |Run(n, front).jobs| {
        RunKeepsInv(n, front);
        SameLimit(n, front);
        DelayOverRuns(n, base, front, j);
        DelayStep(Run(n, front), base, s, j, TotalDelay(n, base, front, j));
      } else {
        NoDelayYet(n, base, front, j);
        NewRowBounded(Run(n, front), s, j, n);
      }
    }
  }

  /** In every run, with cancels, crashes, refused debits and other jobs, the delays of one job add up
      to at most base * (2^max(1, JOB_MAX_RETRIES) - 2). */
  lemma DelayBound(n: nat, base: nat, steps: seq<Step>, j: nat)
    requires j < |Run(n, steps).jobs|
    ensures TotalDelay(n, base, steps, j) <= base * (Worker.Pow2(Max(1, n)) - 2)
  {
    DelayOverRuns(n, base, steps, j);
    Worker.RetryDelayGrows(base, Ahead(n, Run(n, steps).jobs[j]), Max(1, n));
    Worker.BackoffBound(base, Max(1, n), Max(1, n));
  }

  // ---------------------------------------------------------------------------------------------
  // How a job ends
  // ---------------------------------------------------------------------------------------------

  /** A job of which no delivery was lost and no cancel accepted, after it was put back so often. */
  predicate Tracked(job: Job, retried: nat) {
    && !job.flag && job.seen == 0 && job.unseen == 0
    && match job.worker
       case Idle =>
         || (job.status.Queued? && job.attempts == retried)
         || ((job.status.Completed? || job.status.Failed?) && job.attempts == retried + 1)
       case Stopping(_) => false
       case _ => job.status.Running? && job.attempts == retried + 1
  }

  lemma TrackStep(w: World, s: Step, j: nat, retried: nat)
    requires Inv(w) && j < |w.jobs| && Tracked(w.jobs[j], retried)
    requires !LosesDelivery(w, s, j) && !AcceptsCancel(w, s, j)
    ensures j < |Next(w, s).jobs|
    ensures Tracked(Next(w, s).jobs[j], retried + if RetriesJob(w, s, j) then 1 else 0)
  {
    NextRow(w, s, j);
    if s.Fail? && s.j == j { FailRow(w, j); }
    if s.Finalize? && s.j == j { FinalizeRow(w, j, s.outputs); }
  }

  lemma {:induction false} TrackedOverRuns(n: nat, steps: seq<Step>, j: nat)
    requires j < |Run(n, steps).jobs| && Lost(n, steps, j) == 0 && !CancelAccepted(n, steps, j)
    ensures Tracked(Run(n, steps).jobs[j], Retried(n, steps, j))
  {
    if steps != [] {
      var front, s := steps[..|steps| - 1], steps[|steps| - 1];
      assert steps == front + [s];
      HappenedGrows(n, front, s, (w, x) => AcceptsCancel(w, x, j));
      RunKeepsInv(n, front);
      if j < |Run(n, front).jobs| {
        TrackedOverRuns(n, front, j);
        TrackStep(Run(n, front), s, j, Retried(n, front, j));
      } else {
        NotRetriedYet(n, front, j);
        NewRowIsFresh(Run(n, front), s, j);
      }
    }
  }

  lemma {:induction false} NotRetriedYet(n: nat, steps: seq<Step>, j: nat)
    requires j >= |Run(n, steps).jobs|
    ensures Retried(n, steps, j) == 0
  {
    if steps != [] {
      NeverFewer(Run(n, steps[..|steps| - 1]), steps[|steps| - 1]);
      NotRetriedYet(n, steps[..|steps| - 1], j);
    }
  }

  lemma NewRowIsFresh(w: World, s: Step, j: nat)
    requires |w.jobs| <= j < |Next(w, s).jobs|
    ensures Tracked(Next(w, s).jobs[j], 0) && !RetriesJob(w, s, j)
  {}

  /** A job of which no delivery was lost and no cancel accepted: whenever no delivery is in flight,
      it is COMPLETED or FAILED, claimed once more than it was put back, unless its last delivery was
      put back, or it has had none; then it is QUEUED and has a claim left. So after
      max(1, JOB_MAX_RETRIES) claims it has ended. */
  lemma JobEnds(n: nat, steps: seq<Step>, j: nat)
    requires j < |Run(n, steps).jobs| && Run(n, steps).jobs[j].worker.Idle?
    requires Lost(n, steps, j) == 0 && !CancelAccepted(n, steps, j)
    ensures var job, retried := Run(n, steps).jobs[j], Retried(n, steps, j);
            && (job.status.Completed? || job.status.Failed? || job.status.Queued?)
            && (job.status.Queued? <==> job.attempts == retried)
            && (!job.status.Queued? <==> job.attempts == retried + 1)
            && (job.status.Queued? ==> job.attempts < Max(1, n))
            && (job.attempts == Max(1, n) ==> job.status.Completed? || job.status.Failed?)
  {
    TrackedOverRuns(n, steps, j);
    LateAreLost(n, steps, j);
    ClaimBound(n, steps, j);
  }
}
