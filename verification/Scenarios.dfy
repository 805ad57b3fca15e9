/**
 Runs from the empty system that reach the states which the settlement results warn about: for every
 retry limit, user, price, grant and number of stages.
 */
module Scenarios {
  import opened Wrappers
  import opened Keys
  import opened Ledger
  import opened Protocol
  import opened ProtocolInvariant
  import opened Settlement
  import opened Locality
  import opened Worker

  // ---------------------------------------------------------------------------------------------
  // Opening moves
  // ---------------------------------------------------------------------------------------------

  function Empty(n: nat): World { World(n, map[], []) }

  /** A user is granted `g` credits. */
  function Granted(g: nat): Book { Book(Account(g, 0, 1), [Txn(Kind.Grant, g, 0, None, None)]) }

  function WithHold(b: Book, key: string, c: nat): Book {
    Book(Account(b.acct.balance, b.acct.held + c, b.acct.version + 1),
         b.ledger + [Txn(Kind.Hold, 0, c, Some(HoldKey(key)), None)])
  }

  lemma SubmitRuns(w: World, u: UserId, b: Book, key: string, c: Pos, stages: Pos)
    requires BookAt(w, u) == b && !KeyTaken(w.jobs, key) && !HasKey(b.ledger, HoldKey(key))
    requires b.acct.held + c <= b.acct.balance && 0 <= b.acct.balance
    ensures Next(w, Submit(u, key, c, stages))
         == w.(books := w.books[u := WithHold(b, key, c)], jobs := w.jobs + [NewJob(u, key, c, stages, false)])
  {}

  function Opening(u: UserId, g: nat, key: string, c: Pos, stages: Pos): seq<Step> {
    [Credit(u, OpGrant(g, None, None)), Submit(u, key, c, stages)]
  }

  lemma GrantRuns(n: nat, u: UserId, g: nat)
    requires 1 <= g
    ensures Next(Empty(n), Credit(u, OpGrant(g, None, None))) == World(n, map[u := Granted(g)], [])
  {
    assert EMPTY.ledger + [Txn(Kind.Grant, g, 0, None, None)] == [Txn(Kind.Grant, g, 0, None, None)];
  }

  lemma GrantHasNoKeys(g: nat, k: Key)
    ensures !HasKey(Granted(g).ledger, k)
  {
    var t := Txn(Kind.Grant, g, 0, None, None);
    AppendFacts([], t);
    assert [] + [t] == [t];
  }

  lemma OpeningRun(n: nat, u: UserId, g: nat, key: string, c: Pos, stages: Pos)
    requires c <= g
    ensures Reached(Empty(n), Opening(u, g, key, c, stages), n, WithHold(Granted(g), key, c),
                    NewJob(u, key, c, stages, false))
  {
    var w1 := World(n, map[u := Granted(g)], []);
    GrantRuns(n, u, g);
    GrantHasNoKeys(g, HoldKey(key));
    SubmitRuns(w1, u, Granted(g), key, c, stages);
    RunTwo(Empty(n), Credit(u, OpGrant(g, None, None)), Submit(u, key, c, stages));
    assert map[u := Granted(g)][u := WithHold(Granted(g), key, c)] == map[u := WithHold(Granted(g), key, c)];
  }

  /** An accepted cancel request, at any point of a delivery. */
  function Accepted(row: Job, signalled: bool): Job {
    if Hidden(row, signalled) then row.(flag := row.flag || signalled, unseen := row.unseen + 1)
    else row.(flag := true, seen := row.seen + 1)
  }

  function Committed(row: Job, hidden: bool): Job
    requires HasPending(row, hidden)
  {
    DropPending(row, hidden).(status := Cancelled, late := row.late || hidden)
  }

  lemma ExtendAccepted(w0: World, trace: seq<Step>, n: nat, b: Book, row: Job, signalled: bool)
    requires Reached(w0, trace, n, b, row) && !Terminal(row.status)
    ensures Reached(w0, trace + [AcceptCancel(0, row.user, false, signalled)], n, b, Accepted(row, signalled))
    ensures HasPending(Accepted(row, signalled), Hidden(row, signalled))
  {
    Extend(w0, trace, n, b, row, AcceptCancel(0, row.user, false, signalled), b, Accepted(row, signalled));
  }

  lemma ExtendCommitted(w0: World, trace: seq<Step>, n: nat, b: Book, row: Job, hidden: bool)
    requires Reached(w0, trace, n, b, row) && HasPending(row, hidden) && 0 <= b.acct.balance
    ensures Reached(w0, trace + [CommitCancel(0, hidden)], n, Exec(b, RefundOp(row)).book, Committed(row, hidden))
  {
    AloneSettles(n, b, row, RefundOp(row), Committed(row, hidden), DropPending(row, hidden));
    Extend(w0, trace, n, b, row, CommitCancel(0, hidden), Exec(b, RefundOp(row)).book, Committed(row, hidden));
  }

  // ---------------------------------------------------------------------------------------------
  // Into the window, and out of it with both settlements
  // ---------------------------------------------------------------------------------------------

  /** The job's own steps up to the poll before its final stage. */
  function ToWindow(stages: Pos): seq<Step> { SweepSteps(stages - 1) + [Poll(0)] }

  lemma ToWindowRun(n: nat, b: Book, row: Job)
    requires row.worker.Idle? && Claimable(row)
    ensures Reached(Alone(n, b, row), ToWindow(row.stages), n, b, AtWindow(row))
    ensures InWindow(AtWindow(row)) && AtWindow(row).worker.InStage?
  {
    SweepIsRun(n, b, row, row.stages - 1);
    SweptAt(ClaimRow(row), row.stages - 1);
    ExtendPoll(Alone(n, b, row), SweepSteps(row.stages - 1), n, b, Swept(ClaimRow(row), row.stages - 1));
  }

  /** The row in its final stage. */
  ghost function AtWindow(row: Job): Job {
    var claimed := ClaimRow(row);
    claimed.(progress := Swept(claimed, row.stages - 1).progress, worker := InStage(row.stages - 1, claimed.attempts))
  }

  /** For every setting there is a run into the window. */
  lemma WindowReached(n: nat, u: UserId, g: nat, key: string, c: Pos, stages: Pos)
    requires c <= g
    ensures var w := Run(n, Opening(u, g, key, c, stages) + ToWindow(stages));
            && |w.jobs| == 1 && w.jobs[0].user == u && w.jobs[0].key == key && w.jobs[0].cost == c
            && InWindow(w.jobs[0]) && w.jobs[0].worker.InStage? && !w.jobs[0].noCharge && w.jobs[0].status.Running?
            && c <= BookAt(w, u).acct.balance
  {
    var b, row := WithHold(Granted(g), key, c), NewJob(u, key, c, stages, false);
    OpeningRun(n, u, g, key, c, stages);
    ToWindowRun(n, b, row);
    RunFromJoin(Empty(n), Opening(u, g, key, c, stages), ToWindow(stages));
  }

  /** And from there to both settlements: a run of one job, in which the only cancel was accepted in
      the window, ends COMPLETED, debited and refunded. */
  lemma DoubleSettlementHappens(n: nat, u: UserId, g: nat, key: string, c: Pos, stages: Pos)
    requires c <= g
    ensures var steps := Opening(u, g, key, c, stages) + ToWindow(stages)
                       + ([AcceptCancel(0, u, false, true), CommitCancel(0, true)]
                          + [StageEnds(0, Succeeds), Save(0), Finalize(0, 1)]);
            var w := Run(n, steps);
            |w.jobs| > 0 && w.jobs[0].key == key && Both(w, w.jobs[0]) && w.jobs[0].status.Completed?
  {
    var before := Opening(u, g, key, c, stages) + ToWindow(stages);
    var rest := [AcceptCancel(0, u, false, true), CommitCancel(0, true)]
                + [StageEnds(0, Succeeds), Save(0), Finalize(0, 1)];
    WindowReached(n, u, g, key, c, stages);
    RunKeepsInv(n, before);
    WindowIsReal(Run(n, before), 0);
    RunFromJoin(Empty(n), before, rest);
    JobsStayOverRuns(Run(n, before), rest);
  }

  // ---------------------------------------------------------------------------------------------
  // Reservations lost to a second settlement
  // ---------------------------------------------------------------------------------------------

  /** A user with two jobs; the first is cancelled in its window and then finishes. */
  function DrainSteps(u: UserId, g: nat, k1: string, c1: Pos, stages: Pos, k2: string, c2: Pos): seq<Step> {
    (Opening(u, g, k1, c1, stages) + [Submit(u, k2, c2, 1)]) + LateCancel(u, stages)
  }

  function LateCancel(u: UserId, stages: Pos): seq<Step> {
    ToWindow(stages) + [AcceptCancel(0, u, false, true)] + [CommitCancel(0, true)]
      + [StageEnds(0, Succeeds)] + [Save(0)]
  }

  lemma OtherHold(g: nat, k1: string, c1: Pos, k2: string)
    requires k1 != k2
    ensures !HasKey(WithHold(Granted(g), k1, c1).ledger, HoldKey(k2))
  {
    GrantHasNoKeys(g, HoldKey(k2));
    AppendFacts(Granted(g).ledger, Txn(Kind.Hold, 0, c1, Some(HoldKey(k1)), None));
  }

  lemma TwoJobsRun(n: nat, u: UserId, g: nat, k1: string, c1: Pos, stages: Pos, k2: string, c2: Pos)
    requires c1 + c2 <= g && k1 != k2
    ensures Run(n, Opening(u, g, k1, c1, stages) + [Submit(u, k2, c2, 1)])
         == World(n, map[u := WithHold(WithHold(Granted(g), k1, c1), k2, c2)],
                  [NewJob(u, k1, c1, stages, false), NewJob(u, k2, c2, 1, false)])
  {
    OpeningRun(n, u, g, k1, c1, stages);
    RunFromStep(Empty(n), Opening(u, g, k1, c1, stages), Submit(u, k2, c2, 1));
    SecondSubmit(n, u, g, k1, c1, stages, k2, c2);
  }

  lemma SecondSubmit(n: nat, u: UserId, g: nat, k1: string, c1: Pos, stages: Pos, k2: string, c2: Pos)
    requires c1 + c2 <= g && k1 != k2
    ensures Next(Alone(n, WithHold(Granted(g), k1, c1), NewJob(u, k1, c1, stages, false)), Submit(u, k2, c2, 1))
         == World(n, map[u := WithHold(WithHold(Granted(g), k1, c1), k2, c2)],
                  [NewJob(u, k1, c1, stages, false), NewJob(u, k2, c2, 1, false)])
  {
    var b, j1, j2 := WithHold(Granted(g), k1, c1), NewJob(u, k1, c1, stages, false), NewJob(u, k2, c2, 1, false);
    var w := Alone(n, b, j1);
    OtherHold(g, k1, c1, k2);
    assert !KeyTaken(w.jobs, k2);
    SubmitRuns(w, u, b, k2, c2, 1);
    assert map[u := b][u := WithHold(b, k2, c2)] == map[u := WithHold(b, k2, c2)];
    assert [j1] + [j2] == [j1, j2];
  }

  /** What the late cancel and the rest of the final stage leave of the job, before the finalizing
      commit. */
  lemma LateCancelRun(n: nat, b: Book, row: Job) returns (row': Job)
    requires row.worker.Idle? && Claimable(row) && row.seen == 0 == row.unseen && 0 <= b.acct.balance
    ensures Reached(Alone(n, b, row), LateCancel(row.user, row.stages), n, Exec(b, RefundOp(row)).book, row')
    ensures row'.worker.Finishing? && SameIdentity(row', row)
  {
    var w0, at := Alone(n, b, row), AtWindow(row);
    var b' := Exec(b, RefundOp(row)).book;
    var t0 := ToWindow(row.stages);
    ToWindowRun(n, b, row);
    ExtendAccepted(w0, t0, n, b, at, true);
    var t1 := t0 + [AcceptCancel(0, row.user, false, true)];
    ExtendCommitted(w0, t1, n, b, Accepted(at, true), true);
    var t2, cancelled := t1 + [CommitCancel(0, true)], Committed(Accepted(at, true), true);
    ExtendEnd(w0, t2, n, b', cancelled, Succeeds);
    var saving := cancelled.(worker := Saving(row.stages - 1, cancelled.worker.tries));
    ExtendSave(w0, t2 + [StageEnds(0, Succeeds)], n, b', saving);
    row' := SaveRow(saving, row.stages - 1, saving.worker.tries);
  }

  lemma {:induction false} AimAtZero(steps: seq<Step>)
    requires AllOfJob0(steps)
    ensures AimAll(steps, 0) == steps
  {
    if steps != [] {
      AimAtZero(steps[..|steps| - 1]);
      AimsAtZero(steps[|steps| - 1]);
      assert steps == steps[..|steps| - 1] + [steps[|steps| - 1]];
    }
  }

  lemma AimsAtZero(s: Step)
    requires OfOneJob(s) && s.j == 0
    ensures Aim(s, 0) == s
  {}

  lemma LateCancelIsOfJob0(u: UserId, stages: Pos)
    ensures AllOfJob0(LateCancel(u, stages))
  {
    SweepIsOfJob0(stages - 1);
  }

  /** The books of two held jobs after the first was refunded. */
  lemma RefundedFirst(u: UserId, g: nat, k1: string, c1: Pos, stages: Pos, k2: string, c2: Pos)
    requires k1 != k2
    ensures var b := WithHold(WithHold(Granted(g), k1, c1), k2, c2);
            var b' := Exec(b, RefundOp(NewJob(u, k1, c1, stages, false))).book;
            && b'.acct == Account(g, c2, 4)
            && HasKey(b'.ledger, RefundKey(k1)) && !HasKey(b'.ledger, DebitKey(k1)) && !HasKey(b'.ledger, DebitKey(k2))
  {
    var l0 := Granted(g).ledger;
    var h1, h2 := Txn(Kind.Hold, 0, c1, Some(HoldKey(k1)), None), Txn(Kind.Hold, 0, c2, Some(HoldKey(k2)), None);
    GrantHasNoKeys(g, RefundKey(k1));
    GrantHasNoKeys(g, DebitKey(k1));
    GrantHasNoKeys(g, DebitKey(k2));
    AppendFacts(l0, h1);
    AppendFacts(l0 + [h1], h2);
    AppendFacts(l0 + [h1] + [h2], Txn(Kind.Refund, 0, c1, Some(RefundKey(k1)), None));
  }

  lemma DrainReached(n: nat, u: UserId, g: nat, k1: string, c1: Pos, stages: Pos, k2: string, c2: Pos)
    requires c1 + c2 <= g && k1 != k2
    ensures var w := Run(n, DrainSteps(u, g, k1, c1, stages, k2, c2));
            && |w.jobs| == 2 && w.jobs[0].worker.Finishing?
            && w.jobs[0].user == u && w.jobs[0].key == k1 && w.jobs[0].cost == c1
            && w.jobs[1] == NewJob(u, k2, c2, 1, false)
            && BookAt(w, u) == Exec(WithHold(WithHold(Granted(g), k1, c1), k2, c2),
                                    RefundOp(NewJob(u, k1, c1, stages, false))).book
  {
    var b, row := WithHold(WithHold(Granted(g), k1, c1), k2, c2), NewJob(u, k1, c1, stages, false);
    var first := Opening(u, g, k1, c1, stages) + [Submit(u, k2, c2, 1)];
    var w := Run(n, first);
    TwoJobsRun(n, u, g, k1, c1, stages, k2, c2);
    var row' := LateCancelRun(n, b, row);
    LateCancelIsOfJob0(u, stages);
    AimAtZero(LateCancel(u, stages));
    RunMirrors(w, Alone(n, b, row), 0, LateCancel(u, stages));
    RunFromJoin(Empty(n), first, LateCancel(u, stages));
  }

  /** A run after which a user's `held` is smaller than what is reserved for the user's jobs: the
      second settlement of one job eats into the reservation of another. */
  lemma ReservationLost(n: nat, u: UserId, g: nat, k1: string, c1: Pos, stages: Pos, k2: string, c2: Pos)
    requires c1 + c2 <= g && k1 != k2
    ensures var w := Run(n, DrainSteps(u, g, k1, c1, stages, k2, c2) + [Finalize(0, 1)]);
            var b := BookAt(w, u);
            && Reserved(w.jobs, u, b.ledger) == c2
            && b.acct.held == Max(0, c2 - c1) < c2
  {
    var steps := DrainSteps(u, g, k1, c1, stages, k2, c2);
    var w := Run(n, steps);
    RunKeepsInv(n, steps);
    DrainReached(n, u, g, k1, c1, stages, k2, c2);
    RefundedFirst(u, g, k1, c1, stages, k2, c2);
    ReservedIsHeld(w, u);
    SecondSettlementDrainsHeld(w, 0, 1);
    RunFromStep(Empty(n), steps, Finalize(0, 1));
  }

  lemma ReservedIsHeld(w: World, u: UserId)
    requires Inv(w) && |w.jobs| == 2
    requires !HasKey(BookAt(w, u).ledger, DebitKey(w.jobs[0].key))
             && !HasKey(BookAt(w, u).ledger, DebitKey(w.jobs[1].key))
    ensures NoDouble(w.jobs, u, BookAt(w, u).ledger)
            && BookAt(w, u).acct.held == Reserved(w.jobs, u, BookAt(w, u).ledger)
  {
    assert UserOk(w, u);
    NoDoubleNoCost(w.jobs, u, BookAt(w, u).ledger);
  }

  // ---------------------------------------------------------------------------------------------
  // CANCELLED overwritten
  // ---------------------------------------------------------------------------------------------

  /** A job is cancelled during its first stage, and the stage then fails. */
  function CancelThenFail(u: UserId, g: nat, key: string, c: Pos, stages: Pos, signalled: bool, e: Ending): seq<Step> {
    CancelDuringStage(u, g, key, c, stages, signalled) + [StageEnds(0, e)] + [Fail(0)]
  }

  function CancelDuringStage(u: UserId, g: nat, key: string, c: Pos, stages: Pos, signalled: bool): seq<Step> {
    Opening(u, g, key, c, stages) + [Claim(0)] + [Poll(0)]
    + [AcceptCancel(0, u, false, signalled)] + [CommitCancel(0, !signalled || stages == 1)]
  }

  /** The job right after the cancel committed. */
  ghost function CancelledRow(u: UserId, key: string, c: Pos, stages: Pos, signalled: bool): Job {
    NewJob(u, key, c, stages, false).(status := Cancelled, attempts := 1, worker := InStage(0, 1),
                                      flag := signalled, late := !signalled || stages == 1)
  }

  lemma CancelDuringStageRun(n: nat, u: UserId, g: nat, key: string, c: Pos, stages: Pos, signalled: bool)
    returns (b: Book)
    requires c <= g
    ensures Reached(Empty(n), CancelDuringStage(u, g, key, c, stages, signalled), n, b,
                    CancelledRow(u, key, c, stages, signalled))
    ensures 0 <= b.acct.balance
  {
    var w0, row, b0 := Empty(n), NewJob(u, key, c, stages, false), WithHold(Granted(g), key, c);
    var t0 := Opening(u, g, key, c, stages);
    OpeningRun(n, u, g, key, c, stages);
    ExtendClaim(w0, t0, n, b0, row);
    ExtendPoll(w0, t0 + [Claim(0)], n, b0, ClaimRow(row));
    var at, t1 := Polled(ClaimRow(row)), t0 + [Claim(0)] + [Poll(0)];
    ExtendAccepted(w0, t1, n, b0, at, signalled);
    ExtendCommitted(w0, t1 + [AcceptCancel(0, u, false, signalled)], n, b0,
                    Accepted(at, signalled), Hidden(at, signalled));
    b := Exec(b0, RefundOp(Accepted(at, signalled))).book;
  }

  /** A run in which CANCELLED is overwritten, for each way a stage can fail: by QUEUED when it fails
      transiently and attempts remain, else by FAILED. The job is refunded; put back with the flag
      down it is claimed again, with the flag up it never is. */
  lemma CancelledOverwritten(n: nat, u: UserId, g: nat, key: string, c: Pos, stages: Pos, signalled: bool, e: Ending)
    requires c <= g && !e.Succeeds?
    ensures var before := Run(n, CancelDuringStage(u, g, key, c, stages, signalled));
            var w := Run(n, CancelThenFail(u, g, key, c, stages, signalled, e));
            && |before.jobs| == |w.jobs| == 1
            && before.jobs[0].status.Cancelled?
            && w.jobs[0].status == (if e.FailsTransiently? && 1 < n then Queued else Failed)
            && Refunded(w, w.jobs[0])
            && (w.jobs[0].status.Queued? ==> (Next(w, Claim(0)).jobs[0].status.Running? <==> !signalled))
  {
    var w0, row := Empty(n), CancelledRow(u, key, c, stages, signalled);
    var t := CancelDuringStage(u, g, key, c, stages, signalled);
    var b := CancelDuringStageRun(n, u, g, key, c, stages, signalled);
    ExtendEnd(w0, t, n, b, row, e);
    ExtendFail(w0, t + [StageEnds(0, e)], n, b, row.(worker := Failing(e.FailsTransiently?, 1)));
    var failing := t + [StageEnds(0, e)];
    RunKeepsInv(n, failing);
    RunKeepsInv(n, CancelThenFail(u, g, key, c, stages, signalled, e));
    if e.FailsTransiently? && 1 < n {
      RunFromStep(w0, failing, Fail(0));
      CancelledJobLeftQueued(Run(n, failing), 0);
    } else {
      var w := Run(n, CancelThenFail(u, g, key, c, stages, signalled, e));
      assert JobFits(w, w.jobs[0]);
    }
  }

  // ---------------------------------------------------------------------------------------------
  // More claims than the limit
  // ---------------------------------------------------------------------------------------------

  /** A worker that claims the job and crashes, `k` times. */
  function ClaimAndCrash(k: nat): seq<Step> {
    if k == 0 then [] else ClaimAndCrash(k - 1) + [Claim(0)] + [Crash(0)]
  }

  /** So any number of claims is reached, whatever the limit. */
  lemma {:induction false} ClaimedAnyNumberOfTimes(n: nat, u: UserId, g: nat, key: string, c: Pos, stages: Pos, k: nat)
    requires c <= g
    ensures var w := Run(n, Opening(u, g, key, c, stages) + ClaimAndCrash(k)); |w.jobs| == 1 && w.jobs[0].attempts == k
    ensures Reached(Empty(n), Opening(u, g, key, c, stages) + ClaimAndCrash(k), n, WithHold(Granted(g), key, c),
                    NewJob(u, key, c, stages, false).(attempts := k, status := if k == 0 then Queued else Running))
  {
    var w0, opening, b := Empty(n), Opening(u, g, key, c, stages), WithHold(Granted(g), key, c);
    if k == 0 {
      OpeningRun(n, u, g, key, c, stages);
      assert opening + [] == opening;
    } else {
      ClaimedAnyNumberOfTimes(n, u, g, key, c, stages, k - 1);
      var t := opening + ClaimAndCrash(k - 1);
      var row := NewJob(u, key, c, stages, false).(attempts := k - 1, status := if k == 1 then Queued else Running);
      ExtendClaim(w0, t, n, b, row);
      Extend(w0, t + [Claim(0)], n, b, ClaimRow(row), Crash(0), b, ClaimRow(row).(worker := Idle));
      assert opening + ClaimAndCrash(k) == t + [Claim(0)] + [Crash(0)];
    }
  }
}
