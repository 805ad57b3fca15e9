/**
 Concurrent ledger operations take effect: a flushed operation commits what it does when run alone, an
 operation that nobody disturbs completes, none aborts without a reason, and no key takes effect twice.
 */
module Completion {
  import opened Wrappers
  import opened Keys
  import opened Ledger
  import opened Interleaving

  /** Nothing changed but process `p` and what it did to its user's book, and it holds no lock. */
  ghost predicate OnlyBy(w: Db, w': Db, p: nat)
    requires p < |w.procs|
  {
    && |w'.procs| == |w.procs|
    && (forall q :: 0 <= q < |w.procs| && q != p ==> w'.procs[q] == w.procs[q])
    && w'.procs[p].user == w.procs[p].user && w'.procs[p].op == w.procs[p].op
    && (forall v :: v != w.procs[p].user ==> BookAt(w', v) == BookAt(w, v))
    && w'.locks == w.locks - {w.procs[p].user}
  }

  /** In every reachable state the commit of an operation that was flushed succeeds: the operation returns
      what it returns when run alone on the committed book, and leaves what it leaves then. */
  lemma CommitTakesEffect(steps: seq<Step>, p: nat)
    requires p < |Run(steps).procs| && Run(steps).procs[p].phase.Written?
    ensures var w, w' := Run(steps), Run(steps + [Commit(p)]);
            var u, r := w.procs[p].user, Exec(BookAt(w, w.procs[p].user), w.procs[p].op);
            && r.outcome.Applied?
            && OnlyBy(w, w', p)
            && w'.procs[p].phase.Done? && w'.procs[p].phase.outcome == r.outcome
            && BookAt(w', u) == r.book
  {
    RunKeepsInv(steps);
    RunOne(steps, Commit(p));
    assert ProcOk(Run(steps), p);
    WrittenCommits(Run(steps), p);
  }

  lemma WrittenCommits(w: Db, p: nat)
    requires p < |w.procs| && w.procs[p].phase.Written? && ProcOk(w, p)
    ensures var w', u := Next(w, Commit(p)), w.procs[p].user;
            var r := Exec(BookAt(w, u), w.procs[p].op);
            && r.outcome.Applied?
            && OnlyBy(w, w', p)
            && w'.procs[p].phase.Done? && w'.procs[p].phase.outcome == r.outcome
            && BookAt(w', u) == r.book
  {}

  function AllSteps(p: nat): seq<Step> { [Check(p), Acquire(p), Create(p), Flush(p), Commit(p)] }

  /** An operation that nobody disturbs completes. From any reachable state in which it has not begun to
      work and nobody holds its user's lock, its steps do what running it alone does: it returns the
      same outcome and leaves the same book, or aborts with the same error. */
  lemma UndisturbedCompletes(steps: seq<Step>, p: nat)
    requires var w := Run(steps); p < |w.procs| && w.procs[p].phase.Start? && w.procs[p].user !in w.locks
    ensures var w, w' := Run(steps), Run(steps + AllSteps(p));
            var u, r := w.procs[p].user, Exec(BookAt(w, w.procs[p].user), w.procs[p].op);
            && OnlyBy(w, w', p)
            && BookAt(w', u) == r.book
            && (if r.outcome.Rejected? then w'.procs[p].phase == Aborted(Failed(r.outcome.error))
                else w'.procs[p].phase.Done? && w'.procs[p].phase.outcome == r.outcome)
  {
    RunFive(steps, Check(p), Acquire(p), Create(p), Flush(p), Commit(p));
    AloneCompletes(Run(steps), p);
  }

  lemma RunFive(steps: seq<Step>, a: Step, b: Step, c: Step, d: Step, e: Step)
    ensures Run(steps + [a, b, c, d, e]) == Next(Next(Next(Next(Next(Run(steps), a), b), c), d), e)
  {
    RunTwo(steps, a, b);
    RunTwo(steps + [a, b], c, d);
    RunOne(steps + [a, b] + [c, d], e);
    assert steps + [a, b, c, d, e] == steps + [a, b] + [c, d] + [e];
  }

  lemma RunTwo(steps: seq<Step>, a: Step, b: Step)
    ensures Run(steps + [a, b]) == Next(Next(Run(steps), a), b)
  {
    RunOne(steps, a);
    RunOne(steps + [a], b);
    assert steps + [a, b] == steps + [a] + [b];
  }

  lemma RunOne(steps: seq<Step>, s: Step)
    ensures Run(steps + [s]) == Next(Run(steps), s)
  {
    assert (steps + [s])[..|steps|] == steps;
  }

  lemma AloneCompletes(w: Db, p: nat)
    requires p < |w.procs| && w.procs[p].phase.Start? && w.procs[p].user !in w.locks
    ensures var w' := Next(Next(Next(Next(Next(w, Check(p)), Acquire(p)), Create(p)), Flush(p)), Commit(p));
            var u, r := w.procs[p].user, Exec(BookAt(w, w.procs[p].user), w.procs[p].op);
            && OnlyBy(w, w', p)
            && BookAt(w', u) == r.book
            && (if r.outcome.Rejected? then w'.procs[p].phase == Aborted(Failed(r.outcome.error))
                else w'.procs[p].phase.Done? && w'.procs[p].phase.outcome == r.outcome)
  {
    if Next(w, Check(p)).procs[p].phase.Checked? {
      GetsLock(w, p);
      LockedCompletes(w, p);
    }
  }

  lemma GetsLock(w: Db, p: nat)
    requires p < |w.procs| && w.procs[p].user !in w.locks
    ensures Next(Next(SetPhase(w, p, Checked), Acquire(p)), Create(p)) == Lock(w, p)
  {
    var me := w.procs[p];
    var w1 := SetPhase(w, p, Checked);
    assert w1.procs[p := me.(phase := Creating)] == w.procs[p := me.(phase := Creating)];
    var locked := me.(phase := Locked(BookAt(w, me.user).acct, w.clock));
    assert w1.procs[p := locked] == w.procs[p := locked] == w.procs[p := me.(phase := Creating)][p := locked];
  }

  lemma LockedCompletes(w: Db, p: nat)
    requires p < |w.procs| && w.procs[p].user !in w.locks
    requires !NonPositiveGrant(w.procs[p].op) && Find(BookAt(w, w.procs[p].user).ledger, w.procs[p].op.key).None?
    ensures var w' := Next(Next(Lock(w, p), Flush(p)), Commit(p));
            var u, r := w.procs[p].user, Exec(BookAt(w, w.procs[p].user), w.procs[p].op);
            && OnlyBy(w, w', p)
            && BookAt(w', u) == r.book
            && (if r.outcome.Rejected? then w'.procs[p].phase == Aborted(Failed(r.outcome.error))
                else w'.procs[p].phase.Done? && w'.procs[p].phase.outcome == r.outcome)
  {
    assert BookAt(Lock(w, p), w.procs[p].user) == BookAt(w, w.procs[p].user);
  }

  /** What makes an operation abort: a rollback; its key or its user's row having been committed by
      another since it looked; or an error that it raises when run alone on the committed book, unless
      its key is there by now. */
  lemma AbortsOnlyFor(steps: seq<Step>, s: Step, p: nat)
    requires p < |Run(steps).procs|
    ensures var w, w' := Run(steps), Run(steps + [s]);
            && p < |w'.procs|
            && (w'.procs[p].phase.Aborted? && !w.procs[p].phase.Aborted? ==>
                  AbortReason(w, s, p, w'.procs[p].phase.cause))
  {
    RunKeepsInv(steps);
    RunOne(steps, s);
    assert ProcOk(Run(steps), p);
    StepAborts(Run(steps), s, p);
  }

  predicate AbortReason(w: Db, s: Step, p: nat, cause: Cause)
    requires p < |w.procs|
  {
    var me, b := w.procs[p], BookAt(w, w.procs[p].user);
    match cause
    case RolledBack => s == Rollback(p)
    case DuplicateKey => s == Flush(p) && Find(b.ledger, me.op.key).Some?
    case DuplicateRow => s == Create(p) && me.user in w.books
    case Failed(e) => Find(b.ledger, me.op.key).Some? || Exec(b, me.op).outcome == Rejected(e)
  }

  lemma StepAborts(w: Db, s: Step, p: nat)
    requires p < |w.procs|
    ensures var w', me := Next(w, s), w.procs[p];
            && p < |w'.procs|
            && (w'.procs[p].phase.Aborted? && !me.phase.Aborted? ==>
                  || AbortReason(w, s, p, w'.procs[p].phase.cause)
                  || (me.phase.Locked? && (me.phase.read != BookAt(w, me.user).acct || NonPositiveGrant(me.op))))
  {}

  predicate SameKey(a: Proc, b: Proc) { a.user == b.user && a.op.key == b.op.key && a.op.key.Some? }

  predicate TookEffect(a: Proc) { a.phase.Done? && a.phase.outcome.Applied? }

  /** Of all the operations that carry one key for one user, at most one was applied. */
  lemma AppliedAtMostOnce(steps: seq<Step>, p: nat, q: nat)
    requires p < |Run(steps).procs| && q < |Run(steps).procs|
    ensures var a, b := Run(steps).procs[p], Run(steps).procs[q];
            SameKey(a, b) && TookEffect(a) && TookEffect(b) ==> p == q
  {
    var w := Run(steps);
    var a, b := w.procs[p], w.procs[q];
    CompletedOperationsAgree(steps);
    if SameKey(a, b) && TookEffect(a) && TookEffect(b) {
      if a.phase.at < b.phase.at {
        LaterSeesKey(w.log, a.phase.at, b.phase.at);
      } else if b.phase.at < a.phase.at {
        LaterSeesKey(w.log, b.phase.at, a.phase.at);
      }
    }
  }

  lemma LaterSeesKey(log: seq<Entry>, a: nat, b: nat)
    requires a < b < |log| && log[a].user == log[b].user && log[a].op.key == log[b].op.key && log[a].op.key.Some?
    requires Exec(Serial(log[..a], log[a].user), log[a].op).outcome.Applied?
    ensures !Exec(Serial(log[..b], log[b].user), log[b].op).outcome.Applied?
  {
    var u := log[a].user;
    var r := Exec(Serial(log[..a], u), log[a].op);
    assert log[..a + 1] == log[..a] + [log[a]];
    SerialAppend(log[..a], log[a], u);
    assert log[..b][..a + 1] == log[..a + 1];
    SerialGrows(log[..b], a + 1, u);
    KeyStays(Serial(log[..a + 1], u).ledger, Serial(log[..b], u).ledger, log[b].op.key);
  }

  lemma KeyStays(early: seq<Txn>, late: seq<Txn>, key: Option<Key>)
    requires early <= late && early != [] && early[|early| - 1].key == key && key.Some?
    ensures Find(late, key).Some?
  {
    assert late[|early| - 1] == early[|early| - 1];
    FindSound(late, key);
  }
}
