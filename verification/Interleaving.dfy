/**
 Ledger operations as concurrent database transactions.

 Any number of operations, for any users, run as separate steps: the idempotency check without a
 lock, the row lock (or the insertion of a missing row), the flush, the commit. The unique index
 and the CHECK constraint act at the flush. The result: every interleaving commits what running the
 completed operations one at a time would commit, in the order in which they took the row lock.
 */
module Interleaving {
  import opened Wrappers
  import opened Keys
  import opened Ledger

  datatype Cause = Failed(error: Error) | DuplicateKey | DuplicateRow | RolledBack

  datatype Phase =
    | Start
    | Checked                                            // key not found by the unlocked check
    | Creating                                           // balance row not found, inserting one
    | Locked(read: Account, ticket: nat)                 // holds the row lock
    | Written(acct: Account, txn: Txn, ticket: nat)      // flushed, not committed
    | Done(at: nat, outcome: Outcome)                    // returned; `at` is its place in the log
    | Aborted(cause: Cause)

  datatype Proc = Proc(user: UserId, op: Op, phase: Phase)

  /** A completed operation and the process that ran it. `ticket` numbers the lock acquisitions; an
      operation that found its key already present completes without one. */
  datatype Entry = Entry(proc: nat, user: UserId, op: Op, ticket: Option<nat>)

  datatype Db = Db(
    books: map<UserId, Book>,      // committed rows
    locks: map<UserId, nat>,       // row lock holders
    clock: nat,                    // lock acquisitions so far
    procs: seq<Proc>,
    log: seq<Entry>)               // observer: completed operations, in order

  datatype Step =
    | Begin(user: UserId, op: Op)
    | Check(p: nat)
    | Acquire(p: nat)
    | Create(p: nat)
    | Flush(p: nat)
    | Commit(p: nat)
    | Rollback(p: nat)

  const INIT := Db(map[], map[], 0, [], [])

  function BookAt(w: Db, u: UserId): Book {
    if u in w.books then w.books[u] else EMPTY
  }

  predicate Holds(p: Proc) { p.phase.Locked? || p.phase.Written? }

  predicate NonPositiveGrant(op: Op) { op.OpGrant? && op.amount <= 0 }

  function SetPhase(w: Db, p: nat, ph: Phase): Db
    requires p < |w.procs|
  {
    w.(procs := w.procs[p := w.procs[p].(phase := ph)])
  }

  function Unlock(w: Db, u: UserId): Db { w.(locks := w.locks - {u}) }

  /** One step; a step that is not enabled leaves the database as it is. */
  function Next(w: Db, s: Step): Db {
    if s.Begin? then w.(procs := w.procs + [Proc(s.user, s.op, Start)])
    else if s.p >= |w.procs| then w
    else
      var me := w.procs[s.p];
      match s
      case Check(p) => if me.phase.Start? then DoCheck(w, p) else w
      case Acquire(p) =>
        if !me.phase.Checked? then w
        else if me.user !in w.books then SetPhase(w, p, Creating)
        else if me.user in w.locks then w
        else Lock(w, p)
      case Create(p) =>
        if !me.phase.Creating? || me.user in w.locks then w
        else if me.user in w.books then SetPhase(w, p, Aborted(DuplicateRow))
        else Lock(w, p)
      case Flush(p) => if me.phase.Locked? then DoFlush(w, p) else w
      case Commit(p) => if me.phase.Written? then DoCommit(w, p) else w
      case Rollback(p) =>
        if me.phase.Done? || me.phase.Aborted? then w
        else if Holds(me) then Unlock(SetPhase(w, p, Aborted(RolledBack)), me.user)
        else SetPhase(w, p, Aborted(RolledBack))
  }

  function DoCheck(w: Db, p: nat): Db
    requires p < |w.procs|
  {
    var me := w.procs[p];
    if NonPositiveGrant(me.op) then SetPhase(w, p, Aborted(Failed(NotPositive)))
    else match Find(BookAt(w, me.user).ledger, me.op.key)
      case Some(t) =>
        SetPhase(w, p, Done(|w.log|, Existing(t))).(log := w.log + [Entry(p, me.user, me.op, None)])
      case None => SetPhase(w, p, Checked)
  }

  function Lock(w: Db, p: nat): Db
    requires p < |w.procs|
  {
    var me := w.procs[p];
    SetPhase(w, p, Locked(BookAt(w, me.user).acct, w.clock)).(locks := w.locks[me.user := p], clock := w.clock + 1)
  }

  /** Works on the row read under the lock. The unique index is on (user, key). */
  function DoFlush(w: Db, p: nat): Db
    requires p < |w.procs| && w.procs[p].phase.Locked?
  {
    var me := w.procs[p];
    match Attempt(me.phase.read, me.op)
    case Err(e) => Unlock(SetPhase(w, p, Aborted(Failed(e))), me.user)
    case Ok(c) =>
      if Find(BookAt(w, me.user).ledger, me.op.key).Some?
      then Unlock(SetPhase(w, p, Aborted(DuplicateKey)), me.user)
      else SetPhase(w, p, Written(c.acct, c.txn, me.phase.ticket))
  }

  function DoCommit(w: Db, p: nat): Db
    requires p < |w.procs| && w.procs[p].phase.Written?
  {
    var me := w.procs[p];
    Unlock(SetPhase(w, p, Done(|w.log|, Applied(me.phase.txn))), me.user)
      .(books := w.books[me.user := Book(me.phase.acct, BookAt(w, me.user).ledger + [me.phase.txn])],
        log := w.log + [Entry(p, me.user, me.op, Some(me.phase.ticket))])
  }

  function Run(steps: seq<Step>): Db {
    if steps == [] then INIT else Next(Run(steps[..|steps| - 1]), steps[|steps| - 1])
  }

  // ---------------------------------------------------------------------------------------------
  // The serial execution
  // ---------------------------------------------------------------------------------------------

  /** One user's book after the logged operations ran alone, one after another. */
  function Serial(log: seq<Entry>, u: UserId): Book {
    if log == [] then EMPTY
    else
      var b, e := Serial(log[..|log| - 1], u), log[|log| - 1];
      if e.user == u then Exec(b, e.op).book else b
  }

  lemma SerialAppend(log: seq<Entry>, e: Entry, u: UserId)
    ensures Serial(log + [e], u) == if e.user == u then Exec(Serial(log, u), e.op).book else Serial(log, u)
  {
    assert (log + [e])[..|log|] == log;
  }

  lemma {:induction false} SerialSound(log: seq<Entry>, u: UserId)
    ensures Sound(Serial(log, u))
  {
    if log != [] {
      SerialSound(log[..|log| - 1], u);
      if log[|log| - 1].user == u {
        ExecKeepsSound(Serial(log[..|log| - 1], u), log[|log| - 1].op);
      }
    }
  }

  lemma {:induction false} SerialGrows(log: seq<Entry>, i: nat, u: UserId)
    requires i <= |log|
    ensures Serial(log[..i], u).ledger <= Serial(log, u).ledger
  {
    if i < |log| {
      var front := log[..|log| - 1];
      assert front[..i] == log[..i];
      SerialGrows(front, i, u);
      SerialSound(front, u);
      if log[|log| - 1].user == u {
        ExecKeepsSound(Serial(front, u), log[|log| - 1].op);
      }
    } else {
      assert log[..i] == log;
    }
  }

  // ---------------------------------------------------------------------------------------------
  // Invariant
  // ---------------------------------------------------------------------------------------------

  ghost predicate ProcOk(w: Db, p: nat)
    requires p < |w.procs|
  {
    var me := w.procs[p];
    var b := BookAt(w, me.user);
    && (Holds(me) ==> me.user in w.locks && w.locks[me.user] == p && me.phase.ticket < w.clock)
    && (!me.phase.Start? && !me.phase.Aborted? ==> !NonPositiveGrant(me.op))
    && (me.phase.Locked? ==> me.phase.read == b.acct)
    && (me.phase.Written? ==>
          && Attempt(b.acct, me.op) == Ok(Change(me.phase.acct, me.phase.txn))
          && Find(b.ledger, me.op.key).None?)
    && (me.phase.Done? ==> Logged(w.log, me) && w.log[me.phase.at].proc == p)
  }

  /** A completed operation returned what it returns in the serial execution. */
  ghost predicate Logged(log: seq<Entry>, me: Proc)
    requires me.phase.Done?
  {
    && me.phase.at < |log|
    && log[me.phase.at].user == me.user && log[me.phase.at].op == me.op
    && me.phase.outcome == Exec(Serial(log[..me.phase.at], me.user), me.op).outcome
  }

  ghost predicate LockOk(w: Db, u: UserId)
    requires u in w.locks
  {
    && w.locks[u] < |w.procs|
    && w.procs[w.locks[u]].user == u && Holds(w.procs[w.locks[u]])
    && forall i :: 0 <= i < |w.log| && w.log[i].user == u && w.log[i].ticket.Some? ==>
         w.log[i].ticket.value < w.procs[w.locks[u]].phase.ticket
  }

  /** Every log entry is the one operation of a process that completed. */
  ghost predicate EntryOk(w: Db, i: nat)
    requires i < |w.log|
  {
    && w.log[i].proc < |w.procs|
    && w.procs[w.log[i].proc].phase.Done? && w.procs[w.log[i].proc].phase.at == i
  }

  ghost predicate LockOrder(log: seq<Entry>) {
    forall i, j :: 0 <= i < j < |log| && log[i].user == log[j].user && log[i].ticket.Some? && log[j].ticket.Some?
      ==> log[i].ticket.value < log[j].ticket.value
  }

  ghost predicate Inv(w: Db) {
    && (forall u :: BookAt(w, u) == Serial(w.log, u))
    && (forall p :: 0 <= p < |w.procs| ==> ProcOk(w, p))
    && (forall u :: u in w.locks ==> LockOk(w, u))
    && LockOrder(w.log)
    && (forall i :: 0 <= i < |w.log| ==> EntryOk(w, i))
    && (forall i :: 0 <= i < |w.log| && w.log[i].ticket.Some? ==> w.log[i].ticket.value < w.clock)
  }

  lemma LoggedStays(log: seq<Entry>, e: Entry, me: Proc)
    requires me.phase.Done? && Logged(log, me)
    ensures Logged(log + [e], me)
  {
    assert (log + [e])[..me.phase.at] == log[..me.phase.at];
  }

  lemma LoggedNow(log: seq<Entry>, e: Entry, me: Proc)
    requires me.phase.Done? && me.phase.at == |log| && e.user == me.user && e.op == me.op
    requires me.phase.outcome == Exec(Serial(log, me.user), me.op).outcome
    ensures Logged(log + [e], me)
  {
    assert (log + [e])[..|log|] == log;
  }

  lemma CheckKeepsInv(w: Db, p: nat)
    requires Inv(w) && p < |w.procs| && w.procs[p].phase.Start?
    ensures Inv(DoCheck(w, p))
  {
    var w', me := DoCheck(w, p), w.procs[p];
    if w'.procs[p].phase.Done? {
      ExistingKeepsInv(w, p);
    } else {
      forall q | 0 <= q < |w'.procs| ensures ProcOk(w', q) { assert ProcOk(w, q); }
      forall i | 0 <= i < |w'.log| ensures EntryOk(w', i) { assert EntryOk(w, i); }
      forall u | u in w'.locks ensures LockOk(w', u) { assert LockOk(w, u); }
    }
  }

  /** The other processes when one finds its key present. */
  lemma OtherProc(w: Db, p: nat, q: nat)
    requires p < |w.procs| && w.procs[p].phase.Start? && DoCheck(w, p).procs[p].phase.Done?
    requires q < |w.procs| && q != p && ProcOk(w, q)
    ensures ProcOk(DoCheck(w, p), q)
  {
    if w.procs[q].phase.Done? { LoggedStays(w.log, Entry(p, w.procs[p].user, w.procs[p].op, None), w.procs[q]); }
  }

  lemma ExistingKeepsInv(w: Db, p: nat)
    requires Inv(w) && p < |w.procs| && w.procs[p].phase.Start? && DoCheck(w, p).procs[p].phase.Done?
    ensures Inv(DoCheck(w, p))
  {
    var w', me := DoCheck(w, p), w.procs[p];
    var e := Entry(p, me.user, me.op, None);
    forall u ensures BookAt(w', u) == Serial(w'.log, u) { SerialAppend(w.log, e, u); }
    LoggedNow(w.log, e, w'.procs[p]);
    forall q | 0 <= q < |w'.procs| ensures ProcOk(w', q) {
      assert ProcOk(w, q);
      if q != p { OtherProc(w, p, q); }
    }
    forall i | 0 <= i < |w'.log| ensures EntryOk(w', i) { if i < |w.log| { assert EntryOk(w, i); } }
    forall u | u in w'.locks ensures LockOk(w', u) { assert LockOk(w, u); }
  }

  lemma LockKeepsInv(w: Db, p: nat)
    requires Inv(w) && p < |w.procs| && w.procs[p].user !in w.locks
    requires w.procs[p].phase.Checked? || w.procs[p].phase.Creating?
    ensures Inv(Lock(w, p))
  {
    var w' := Lock(w, p);
    forall q | 0 <= q < |w'.procs| ensures ProcOk(w', q) { assert ProcOk(w, q) && ProcOk(w, p); }
    forall i | 0 <= i < |w'.log| ensures EntryOk(w', i) { if i < |w.log| { assert EntryOk(w, i); } }
    forall u | u in w'.locks ensures LockOk(w', u) {
      if u != w.procs[p].user { assert LockOk(w, u); }
    }
  }

  lemma PhaseKeepsInv(w: Db, p: nat, ph: Phase)
    requires Inv(w) && p < |w.procs| && (w.procs[p].phase.Checked? || w.procs[p].phase.Creating?)
    requires ph.Creating? || ph.Aborted?
    requires ph.Creating? ==> w.procs[p].phase.Checked?
    ensures Inv(SetPhase(w, p, ph))
  {
    var w' := SetPhase(w, p, ph);
    forall q | 0 <= q < |w'.procs| ensures ProcOk(w', q) { assert ProcOk(w, q); }
    forall i | 0 <= i < |w'.log| ensures EntryOk(w', i) { if i < |w.log| { assert EntryOk(w, i); } }
    forall u | u in w'.locks ensures LockOk(w', u) { assert LockOk(w, u); }
  }

  lemma ReleaseKeepsInv(w: Db, p: nat, cause: Cause)
    requires Inv(w) && p < |w.procs| && Holds(w.procs[p])
    ensures Inv(Unlock(SetPhase(w, p, Aborted(cause)), w.procs[p].user))
  {
    var w' := Unlock(SetPhase(w, p, Aborted(cause)), w.procs[p].user);
    assert ProcOk(w, p);
    forall q | 0 <= q < |w'.procs| ensures ProcOk(w', q) { assert ProcOk(w, q); }
    forall i | 0 <= i < |w'.log| ensures EntryOk(w', i) { if i < |w.log| { assert EntryOk(w, i); } }
    forall u | u in w'.locks ensures LockOk(w', u) { assert LockOk(w, u); }
  }

  lemma FlushKeepsInv(w: Db, p: nat)
    requires Inv(w) && p < |w.procs| && w.procs[p].phase.Locked?
    ensures Inv(DoFlush(w, p))
  {
    var w' := DoFlush(w, p);
    assert ProcOk(w, p);
    if w'.procs[p].phase.Aborted? {
      ReleaseKeepsInv(w, p, w'.procs[p].phase.cause);
    } else {
      forall q | 0 <= q < |w'.procs| ensures ProcOk(w', q) { assert ProcOk(w, q); }
      forall i | 0 <= i < |w'.log| ensures EntryOk(w', i) { if i < |w.log| { assert EntryOk(w, i); } }
      forall u | u in w'.locks ensures LockOk(w', u) { assert LockOk(w, u); }
    }
  }

  lemma CommitKeepsInv(w: Db, p: nat)
    requires Inv(w) && p < |w.procs| && w.procs[p].phase.Written?
    ensures Inv(DoCommit(w, p))
  {
    var w', me := DoCommit(w, p), w.procs[p];
    var e := Entry(p, me.user, me.op, Some(me.phase.ticket));
    assert ProcOk(w, p) && LockOk(w, me.user);
    assert Exec(BookAt(w, me.user), me.op) == Executed(BookAt(w', me.user), Applied(me.phase.txn));
    forall u ensures BookAt(w', u) == Serial(w'.log, u) { SerialAppend(w.log, e, u); }
    LoggedNow(w.log, e, w'.procs[p]);
    forall q | 0 <= q < |w.procs| && w.procs[q].phase.Done? ensures Logged(w'.log, w.procs[q]) {
      assert ProcOk(w, q);
      LoggedStays(w.log, e, w.procs[q]);
    }
    forall q | 0 <= q < |w'.procs| ensures ProcOk(w', q) { assert ProcOk(w, q); }
    forall i | 0 <= i < |w'.log| ensures EntryOk(w', i) { if i < |w.log| { assert EntryOk(w, i); } }
    forall u | u in w'.locks ensures LockOk(w', u) { assert LockOk(w, u); }
  }

  lemma BeginKeepsInv(w: Db, user: UserId, op: Op)
    requires Inv(w)
    ensures Inv(w.(procs := w.procs + [Proc(user, op, Start)]))
  {
    var w' := w.(procs := w.procs + [Proc(user, op, Start)]);
    forall q | 0 <= q < |w'.procs| ensures ProcOk(w', q) { if q < |w.procs| { assert ProcOk(w, q); } }
    forall i | 0 <= i < |w'.log| ensures EntryOk(w', i) { if i < |w.log| { assert EntryOk(w, i); } }
    forall u | u in w'.locks ensures LockOk(w', u) { assert LockOk(w, u); }
  }

  lemma RollbackKeepsInv(w: Db, p: nat)
    requires Inv(w) && p < |w.procs| && !w.procs[p].phase.Done? && !w.procs[p].phase.Aborted?
    ensures Inv(Next(w, Rollback(p)))
  {
    var w' := Next(w, Rollback(p));
    if Holds(w.procs[p]) {
      ReleaseKeepsInv(w, p, RolledBack);
    } else {
      forall q | 0 <= q < |w'.procs| ensures ProcOk(w', q) { assert ProcOk(w, q); }
      forall i | 0 <= i < |w'.log| ensures EntryOk(w', i) { if i < |w.log| { assert EntryOk(w, i); } }
      forall u | u in w'.locks ensures LockOk(w', u) { assert LockOk(w, u); }
    }
  }

  lemma NextKeepsInv(w: Db, s: Step)
    requires Inv(w)
    ensures Inv(Next(w, s))
  {
    if s.Begin? {
      BeginKeepsInv(w, s.user, s.op);
    } else if s.p < |w.procs| && Next(w, s) != w {
      var me := w.procs[s.p];
      match s
      case Check(p) => CheckKeepsInv(w, p);
      case Acquire(p) => if me.user in w.books { LockKeepsInv(w, p); } else { PhaseKeepsInv(w, p, Creating); }
      case Create(p) =>
        if me.user in w.books { PhaseKeepsInv(w, p, Aborted(DuplicateRow)); } else { LockKeepsInv(w, p); }
      case Flush(p) => FlushKeepsInv(w, p);
      case Commit(p) => CommitKeepsInv(w, p);
      case Rollback(p) => RollbackKeepsInv(w, p);
    }
  }

  lemma {:induction false} RunKeepsInv(steps: seq<Step>)
    ensures Inv(Run(steps))
  {
    if steps != [] {
      RunKeepsInv(steps[..|steps| - 1]);
      NextKeepsInv(Run(steps[..|steps| - 1]), steps[|steps| - 1]);
    }
  }

  // ---------------------------------------------------------------------------------------------
  // Main results
  // ---------------------------------------------------------------------------------------------

  /** Every interleaving commits, for every user, the ledger, balance and held of the serial
      execution of the completed operations; those that wrote are in the order of their locks, and
      no key has taken effect twice. */
  lemma InterleavingRefinesSerial(steps: seq<Step>, u: UserId)
    ensures var w := Run(steps);
            && BookAt(w, u) == Serial(w.log, u)
            && LockOrder(w.log)
            && UniqueKeys(BookAt(w, u).ledger)
            && 0 <= BookAt(w, u).acct.balance
  {
    RunKeepsInv(steps);
    SerialSound(Run(steps).log, u);
  }

  /** The log is exactly the completed operations: each is at its own place and returned what it
      returns there in the serial execution, and no entry comes from an operation that aborted or
      is still running. */
  lemma CompletedOperationsAgree(steps: seq<Step>)
    ensures var w := Run(steps);
            && (forall p :: 0 <= p < |w.procs| && w.procs[p].phase.Done? ==>
                  Logged(w.log, w.procs[p]) && w.log[w.procs[p].phase.at].proc == p)
            && (forall i :: 0 <= i < |w.log| ==> EntryOk(w, i))
  {
    RunKeepsInv(steps);
    forall p | 0 <= p < |Run(steps).procs| && Run(steps).procs[p].phase.Done?
      ensures Logged(Run(steps).log, Run(steps).procs[p]) && Run(steps).log[Run(steps).procs[p].phase.at].proc == p
    {
      assert ProcOk(Run(steps), p);
    }
  }
}
