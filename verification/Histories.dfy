/**
 What a run of the settlement protocol amounts to: each user's book is the history of the ledger
 operations that its steps perform, and each job's pending cancel requests are those accepted and not
 yet ended.
 */
module Histories {
  import opened Wrappers
  import opened Keys
  import opened Ledger
  import opened Protocol
  import Settlement

  // ---------------------------------------------------------------------------------------------
  // Books
  // ---------------------------------------------------------------------------------------------

  /** The ledger operation that a step performs for a user, if any. */
  function OpOf(w: World, s: Step, u: UserId): Option<Op> {
    match s
    case Credit(who, op) => if who == u && CreditOp(op) then Some(op) else None
    case Submit(who, key, cost, _) =>
      if who == u && !KeyTaken(w.jobs, key) then Some(OpHold(cost, Some(HoldKey(key)))) else None
    case CommitCancel(j, hidden) =>
      if OfUser(w, j, u) && HasPending(w.jobs[j], hidden) then Some(Release(w.jobs[j])) else None
    case MarkCancelled(j) =>
      if OfUser(w, j, u) && w.jobs[j].worker.Stopping? && !w.jobs[j].noCharge then Some(Release(w.jobs[j])) else None
    case Fail(j) =>
      if OfUser(w, j, u) && w.jobs[j].worker.Failing? && !w.jobs[j].noCharge && !Retries(w.jobs[j], w.maxRetries)
      then Some(Release(w.jobs[j])) else None
    case Finalize(j, _) =>
      if OfUser(w, j, u) && w.jobs[j].worker.Finishing? && !w.jobs[j].noCharge
      then Some(OpDebit(w.jobs[j].cost, Some(DebitKey(w.jobs[j].key)))) else None
    case _ => None
  }

  predicate OfUser(w: World, j: nat, u: UserId) { j < |w.jobs| && w.jobs[j].user == u }

  function Release(job: Job): Op { OpRefund(job.cost, Some(RefundKey(job.key))) }

  function OpsOf(n: nat, steps: seq<Step>, u: UserId): seq<Op> {
    if steps == [] then []
    else
      var front := steps[..|steps| - 1];
      OpsOf(n, front, u) + match OpOf(Run(n, front), steps[|steps| - 1], u) case Some(op) => [op] case None => []
  }

  lemma BookStep(w: World, s: Step, u: UserId)
    ensures BookAt(Next(w, s), u)
         == match OpOf(w, s, u) case Some(op) => Exec(BookAt(w, u), op).book case None => BookAt(w, u)
  {
    match s
    case Credit(_, _) =>
    case Submit(_, _, _, _) =>
    case CommitCancel(_, _) =>
    case MarkCancelled(_) =>
    case Fail(_) =>
    case Finalize(_, _) =>
    case _ => OtherBooksStay(w, s, u);
  }

  lemma OtherBooksStay(w: World, s: Step, u: UserId)
    requires !s.Credit? && !s.Submit? && !s.CommitCancel? && !s.MarkCancelled? && !s.Fail? && !s.Finalize?
    ensures BookAt(Next(w, s), u) == BookAt(w, u)
  {}

  /** In every run a user's book is what the operations of its steps leave, run one after another. So the
      accounting of single histories holds of the whole system: the balance is the sum of the ledger and
      the credits that overdrawing reversals clamped, and nothing else. */
  lemma {:induction false} BooksAreHistories(n: nat, steps: seq<Step>, u: UserId)
    ensures var b, ops := BookAt(Run(n, steps), u), OpsOf(n, steps, u);
            && b == After(ops)
            && b.acct.balance == Sum(b.ledger) + Shortfall(ops)
  {
    if steps != [] {
      var front, s := steps[..|steps| - 1], steps[|steps| - 1];
      BooksAreHistories(n, front, u);
      BookStep(Run(n, front), s, u);
      match OpOf(Run(n, front), s, u) {
        case Some(op) => AfterStep(OpsOf(n, front, u), op);
        case None => assert OpsOf(n, front, u) + [] == OpsOf(n, front, u);
      }
    }
    CacheAccounting(OpsOf(n, steps, u));
  }

  // ---------------------------------------------------------------------------------------------
  // Cancel requests
  // ---------------------------------------------------------------------------------------------

  /** The step accepts a cancel of the job that its delivery's later polls will not see (`hidden`), or will. */
  predicate Accepts(w: World, s: Step, j: nat, hidden: bool) {
    && s.AcceptCancel? && s.j == j && j < |w.jobs| && !Terminal(w.jobs[j].status)
    && (s.admin || s.who == w.jobs[j].user)
    && hidden == (!s.signalled || InWindow(w.jobs[j]))
  }

  /** The step ends such a request, by its commit or its rollback. */
  predicate EndsRequest(w: World, s: Step, j: nat, hidden: bool) {
    && j < |w.jobs| && (s.CommitCancel? || s.AbortCancel?) && s.j == j && s.hidden == hidden
    && 0 < Pending(w.jobs[j], hidden)
  }

  function Pending(job: Job, hidden: bool): nat { if hidden then job.unseen else job.seen }

  function AcceptedSoFar(n: nat, steps: seq<Step>, j: nat, hidden: bool): nat {
    if steps == [] then 0
    else
      var front := steps[..|steps| - 1];
      AcceptedSoFar(n, front, j, hidden) + if Accepts(Run(n, front), steps[|steps| - 1], j, hidden) then 1 else 0
  }

  function EndedSoFar(n: nat, steps: seq<Step>, j: nat, hidden: bool): nat {
    if steps == [] then 0
    else
      var front := steps[..|steps| - 1];
      EndedSoFar(n, front, j, hidden) + if EndsRequest(Run(n, front), steps[|steps| - 1], j, hidden) then 1 else 0
  }

  lemma RequestStep(w: World, s: Step, j: nat, hidden: bool)
    requires j < |w.jobs|
    ensures j < |Next(w, s).jobs|
    ensures Pending(Next(w, s).jobs[j], hidden)
         == Pending(w.jobs[j], hidden) + (if Accepts(w, s, j, hidden) then 1 else 0)
            - (if EndsRequest(w, s, j, hidden) then 1 else 0)
  {
    match s
    case AcceptCancel(_, _, _, _) =>
    case CommitCancel(_, _) =>
    case AbortCancel(_, _) =>
    case _ => OtherRequestsStay(w, s, j, hidden);
  }

  lemma OtherRequestsStay(w: World, s: Step, j: nat, hidden: bool)
    requires j < |w.jobs| && !s.AcceptCancel? && !s.CommitCancel? && !s.AbortCancel?
    ensures j < |Next(w, s).jobs| && Pending(Next(w, s).jobs[j], hidden) == Pending(w.jobs[j], hidden)
  {}

  lemma NewJobAsksNothing(w: World, s: Step, j: nat, hidden: bool)
    requires |w.jobs| <= j < |Next(w, s).jobs|
    ensures Pending(Next(w, s).jobs[j], hidden) == 0
  {}

  lemma {:induction false} NothingAsked(n: nat, steps: seq<Step>, j: nat, hidden: bool)
    requires j >= |Run(n, steps).jobs|
    ensures AcceptedSoFar(n, steps, j, hidden) == 0 == EndedSoFar(n, steps, j, hidden)
  {
    if steps != [] {
      var front := steps[..|steps| - 1];
      Settlement.NeverFewer(Run(n, front), steps[|steps| - 1]);
      NothingAsked(n, front, j, hidden);
    }
  }

  /** In every run the cancel requests pending for a job, hidden or not, are those accepted less those that
      committed or rolled back: each ends once, as what it was when it was accepted. */
  lemma {:induction false} PendingIsAcceptedLessEnded(n: nat, steps: seq<Step>, j: nat, hidden: bool)
    requires j < |Run(n, steps).jobs|
    ensures Pending(Run(n, steps).jobs[j], hidden)
         == AcceptedSoFar(n, steps, j, hidden) - EndedSoFar(n, steps, j, hidden)
  {
    if steps != [] {
      var front, s := steps[..|steps| - 1], steps[|steps| - 1];
      if j < |Run(n, front).jobs| {
        PendingIsAcceptedLessEnded(n, front, j, hidden);
        RequestStep(Run(n, front), s, j, hidden);
      } else {
        NothingAsked(n, front, j, hidden);
        NewJobAsksNothing(Run(n, front), s, j, hidden);
      }
    }
  }
}
