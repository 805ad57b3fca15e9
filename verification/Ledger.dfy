/**
 The credit ledger of one user, as values: what each ledger operation commits when it runs alone.

 A `Book` is the cached balance row together with the user's append-only ledger. `Attempt` is what
 an operation does while it holds the row lock; `Exec` adds the idempotency check in front.
 */
module Ledger {
  import opened Wrappers
  import opened Keys

  type UserId = nat

  datatype Kind = Grant | Hold | Debit | Refund | Reversal

  /** A ledger row. `quantity` is the number of credits named by the row's reason text
      ("job_hold:{n}", "job_refund:{n}"); `amount` is what moves the settled balance. */
  datatype Txn = Txn(kind: Kind, amount: int, quantity: int, key: Option<Key>, payment: Option<nat>)

  datatype Account = Account(balance: int, held: int, version: int)

  datatype Book = Book(acct: Account, ledger: seq<Txn>)

  const NO_ACCOUNT := Account(0, 0, 0)
  const EMPTY := Book(NO_ACCOUNT, [])

  datatype Op =
    | OpGrant(amount: int, key: Option<Key>, payment: Option<nat>)
    | OpHold(amount: int, key: Option<Key>)
    | OpDebit(amount: int, key: Option<Key>)
    | OpRefund(amount: int, key: Option<Key>)
    | OpReverse(amount: int, key: Option<Key>, payment: Option<nat>, allowNegative: bool)

  datatype Error =
    | NotPositive
    | PaymentRequired(required: int, available: int)
    | CheckViolated

  datatype Outcome = Applied(txn: Txn) | Existing(txn: Txn) | Rejected(error: Error)

  datatype Change = Change(acct: Account, txn: Txn)

  datatype Executed = Executed(book: Book, outcome: Outcome)

  // ---------------------------------------------------------------------------------------------
  // Reading a ledger
  // ---------------------------------------------------------------------------------------------

  function Find(ledger: seq<Txn>, key: Option<Key>): Option<Txn> {
    if key.None? || ledger == [] then None
    else if ledger[|ledger| - 1].key == key then Some(ledger[|ledger| - 1])
    else Find(ledger[..|ledger| - 1], key)
  }

  predicate HasKey(ledger: seq<Txn>, key: Key) {
    Find(ledger, Some(key)).Some?
  }

  function Sum(ledger: seq<Txn>): int {
    if ledger == [] then 0 else Sum(ledger[..|ledger| - 1]) + ledger[|ledger| - 1].amount
  }

  /** No key takes effect twice. */
  ghost predicate UniqueKeys(ledger: seq<Txn>) {
    forall i, j :: 0 <= i < j < |ledger| && ledger[i].key.Some? ==> ledger[i].key != ledger[j].key
  }

  lemma {:induction false} FindSound(ledger: seq<Txn>, key: Option<Key>)
    ensures match Find(ledger, key)
            case Some(t) => t in ledger && t.key == key
            case None => key.Some? ==> forall t :: t in ledger ==> t.key != key
  {
    if key.Some? && ledger != [] && ledger[|ledger| - 1].key != key {
      FindSound(ledger[..|ledger| - 1], key);
      assert ledger == ledger[..|ledger| - 1] + [ledger[|ledger| - 1]];
    }
  }

  lemma SumAppend(ledger: seq<Txn>, t: Txn)
    ensures Sum(ledger + [t]) == Sum(ledger) + t.amount
  {
    assert (ledger + [t])[..|ledger|] == ledger;
  }

  lemma AppendFacts(ledger: seq<Txn>, t: Txn)
    ensures Sum(ledger + [t]) == Sum(ledger) + t.amount
    ensures forall k :: HasKey(ledger + [t], k) <==> HasKey(ledger, k) || t.key == Some(k)
    ensures forall k :: Find(ledger + [t], k) == if k.Some? && t.key == k then Some(t) else Find(ledger, k)
  {
    assert (ledger + [t])[..|ledger|] == ledger;
  }

  // ---------------------------------------------------------------------------------------------
  // Operations
  // ---------------------------------------------------------------------------------------------

  /** The part under the row lock: compute the new row and ledger entry, then flush. The flush is
      refused by the database when it would leave a negative balance. */
  function Attempt(a: Account, op: Op): Result<Change, Error> {
    match op
    case OpGrant(n, key, payment) =>
      Flush(a.balance + n, a.held, a.version + 1, Txn(Grant, n, 0, key, payment))
    case OpHold(n, key) =>
      if a.balance - a.held < n then Err(PaymentRequired(n, a.balance - a.held))
      else Flush(a.balance, a.held + n, a.version + 1, Txn(Hold, 0, n, key, None))
    case OpDebit(n, key) =>
      Flush(a.balance - n, Max(0, a.held - n), a.version + 1, Txn(Debit, -n, 0, key, None))
    case OpRefund(n, key) =>
      Flush(a.balance, Max(0, a.held - n), a.version + 1, Txn(Refund, 0, n, key, None))
    case OpReverse(n, key, payment, allowNegative) =>
      var deduct := Deduction(a, n, allowNegative);
      Flush(Max(0, a.balance - deduct), a.held, a.version + 1, Txn(Reversal, -deduct, 0, key, payment))
  }

  function Deduction(a: Account, n: int, allowNegative: bool): int {
    if allowNegative then n else Min(n, a.balance)
  }

  function Flush(balance: int, held: int, version: int, txn: Txn): Result<Change, Error> {
    if balance < 0 then Err(CheckViolated) else Ok(Change(Account(balance, held, version), txn))
  }

  function Exec(b: Book, op: Op): Executed {
    if op.OpGrant? && op.amount <= 0 then Executed(b, Rejected(NotPositive))
    else match Find(b.ledger, op.key)
      case Some(t) => Executed(b, Existing(t))
      case None =>
        match Attempt(b.acct, op)
        case Err(e) => Executed(b, Rejected(e))
        case Ok(c) => Executed(Book(c.acct, b.ledger + [c.txn]), Applied(c.txn))
  }

  // ---------------------------------------------------------------------------------------------
  // What every operation does
  // ---------------------------------------------------------------------------------------------

  /** Exactly when an operation takes effect: its key is in no row, and a grant is positive, a hold fits
      into what is available, and the balance row would not become negative. */
  lemma AppliedIff(b: Book, op: Op)
    requires 0 <= b.acct.balance
    ensures Exec(b, op).outcome.Applied? <==>
              && (op.key.None? || forall t :: t in b.ledger ==> t.key != op.key)
              && (op.OpGrant? ==> 0 < op.amount)
              && (op.OpHold? ==> op.amount <= b.acct.balance - b.acct.held)
              && (op.OpDebit? ==> op.amount <= b.acct.balance)
    ensures !Exec(b, op).outcome.Applied? ==> Exec(b, op).book == b
  {
    FindSound(b.ledger, op.key);
  }

  /** An operation that takes effect adds one row under its key. Only a grant, a debit and a reversal
      move the settled balance, only a hold, a debit and a refund what is held; of a release that
      exceeds what is held, the excess is dropped. */
  lemma AppliedMoves(b: Book, op: Op)
    requires Exec(b, op).outcome.Applied?
    ensures var b', t := Exec(b, op).book, Exec(b, op).outcome.txn;
            var settled, held := b'.acct.balance - b.acct.balance, b'.acct.held - b.acct.held;
            && b'.ledger == b.ledger + [t] && t.key == op.key && b'.acct.version == b.acct.version + 1
            && match op
               case OpGrant(n, _, payment) =>
                 t.kind.Grant? && t.amount == settled == n && held == 0 && t.payment == payment
               case OpHold(n, _) => t.kind.Hold? && t.amount == settled == 0 && held == n == t.quantity
               case OpDebit(n, _) =>
                 && t.kind.Debit? && t.amount == settled == -n
                 && (if n <= b.acct.held then held == -n else b'.acct.held == 0)
               case OpRefund(n, _) =>
                 && t.kind.Refund? && t.amount == settled == 0 && t.quantity == n
                 && (if n <= b.acct.held then held == -n else b'.acct.held == 0)
               case OpReverse(_, _, payment, _) => t.kind.Reversal? && held == 0 && t.payment == payment
  {}

  /** A reversal that may go negative takes all of its amount off the ledger, and off the balance what is
      there. One that may not takes the same off both: all of its amount, or what is there. */
  lemma ReversalTakes(b: Book, op: Op)
    requires op.OpReverse? && 0 <= op.amount && 0 <= b.acct.balance && Exec(b, op).outcome.Applied?
    ensures var b' := Exec(b, op).book;
            var settled, summed := b.acct.balance - b'.acct.balance, Sum(b.ledger) - Sum(b'.ledger);
            && 0 <= settled <= op.amount && (settled == op.amount || b'.acct.balance == 0)
            && summed == if op.allowNegative then op.amount else settled
  {
    SumAppend(b.ledger, Exec(b, op).outcome.txn);
  }

  // ---------------------------------------------------------------------------------------------
  // What every operation keeps
  // ---------------------------------------------------------------------------------------------

  ghost predicate Sound(b: Book) {
    && UniqueKeys(b.ledger)
    && 0 <= b.acct.balance
    && b.acct.version == |b.ledger|
  }

  lemma ExecKeepsSound(b: Book, op: Op)
    requires Sound(b)
    ensures Sound(Exec(b, op).book)
    ensures b.ledger <= Exec(b, op).book.ledger
  {
    var r := Exec(b, op);
    if r.outcome.Applied? {
      FindSound(b.ledger, op.key);
      assert r.outcome.txn.key == op.key;
    }
  }

  /** Delivering a keyed operation a second time returns the first ledger entry and changes nothing. */
  lemma ExecIsIdempotent(b: Book, op: Op)
    requires op.key.Some? && !Exec(b, op).outcome.Rejected?
    ensures Exec(Exec(b, op).book, op) == Executed(Exec(b, op).book, Existing(Exec(b, op).outcome.txn))
  {
    if Exec(b, op).outcome.Applied? {
      AppendFacts(b.ledger, Exec(b, op).outcome.txn);
    }
  }

  // ---------------------------------------------------------------------------------------------
  // Cache and ledger over whole histories
  // ---------------------------------------------------------------------------------------------

  function After(ops: seq<Op>): Book {
    if ops == [] then EMPTY else Exec(After(ops[..|ops| - 1]), ops[|ops| - 1]).book
  }

  /** An operation overdraws when it is a reversal that takes effect, may go negative, and exceeds
      the cached balance. */
  predicate Overdraws(b: Book, op: Op) {
    && op.OpReverse?
    && op.allowNegative
    && op.amount > b.acct.balance
    && Find(b.ledger, op.key).None?
  }

  /** Credits the cached balance did not lose because it was clamped at zero. */
  function Shortfall(ops: seq<Op>): nat {
    if ops == [] then 0
    else
      var b, op := After(ops[..|ops| - 1]), ops[|ops| - 1];
      Shortfall(ops[..|ops| - 1]) + if Overdraws(b, op) then Max(0, op.amount - b.acct.balance) else 0
  }

  /** After any history the cached balance is the ledger sum plus exactly the clamped credits. */
  lemma {:induction false} CacheAccounting(ops: seq<Op>)
    ensures Sound(After(ops))
    ensures After(ops).acct.balance == Sum(After(ops).ledger) + Shortfall(ops)
  {
    if ops != [] {
      var b, op := After(ops[..|ops| - 1]), ops[|ops| - 1];
      CacheAccounting(ops[..|ops| - 1]);
      ExecKeepsSound(b, op);
      if Exec(b, op).outcome.Applied? {
        AppendFacts(b.ledger, Exec(b, op).outcome.txn);
      }
    }
  }

  lemma {:induction false} ShortfallGrows(ops: seq<Op>, i: nat)
    requires i <= |ops|
    ensures Shortfall(ops[..i]) <= Shortfall(ops)
  {
    if i < |ops| {
      assert ops[..|ops| - 1][..i] == ops[..i];
      ShortfallGrows(ops[..|ops| - 1], i);
    } else {
      assert ops[..i] == ops;
    }
  }

  lemma {:induction false} ShortfallZeroIff(ops: seq<Op>)
    ensures Shortfall(ops) == 0 <==> forall i :: 0 <= i < |ops| ==> !Overdraws(After(ops[..i]), ops[i])
  {
    if ops != [] {
      var front := ops[..|ops| - 1];
      ShortfallZeroIff(front);
      assert forall i :: 0 <= i < |front| ==> front[..i] == ops[..i];
    }
  }

  /** "The balance is the sum of the ledger" holds exactly while no reversal overdraws, and a gap
      once opened never narrows. */
  lemma CacheIsLedgerSumIff(ops: seq<Op>)
    ensures After(ops).acct.balance == Sum(After(ops).ledger)
       <==> forall i :: 0 <= i < |ops| ==> !Overdraws(After(ops[..i]), ops[i])
    ensures forall i :: 0 <= i <= |ops| ==>
              After(ops[..i]).acct.balance - Sum(After(ops[..i]).ledger)
              <= After(ops).acct.balance - Sum(After(ops).ledger)
  {
    CacheAccounting(ops);
    ShortfallZeroIff(ops);
    forall i | 0 <= i <= |ops|
      ensures After(ops[..i]).acct.balance - Sum(After(ops[..i]).ledger)
              <= After(ops).acct.balance - Sum(After(ops).ledger)
    {
      CacheAccounting(ops[..i]);
      ShortfallGrows(ops, i);
    }
  }

  /** The documented identity fails once credits are spent and then refunded by the provider: from
      any balance `n`, spending `d` of it and reversing the whole grant leaves a gap of `d`. */
  lemma CacheDepartsFromLedgerSum(n: int, d: int)
    requires 0 < d <= n
    ensures var ops := [OpGrant(n, Some(GrantKey("e1")), Some(0)),
                        OpDebit(d, Some(DebitKey("j"))),
                        OpReverse(n, Some(ReverseKey("e2")), Some(1), true)];
            After(ops).acct.balance == 0 && Sum(After(ops).ledger) == -d
  {
    var g := OpGrant(n, Some(GrantKey("e1")), Some(0));
    var s := OpDebit(d, Some(DebitKey("j")));
    var r := OpReverse(n, Some(ReverseKey("e2")), Some(1), true);
    GrantThenDebit(n, d, g, s);
    AfterStep([g, s], r);
    assert [g, s] + [r] == [g, s, r];
    var b := After([g, s]);
    FindSound(b.ledger, r.key);
    assert Find(b.ledger, r.key) == None;
    AppendFacts(b.ledger, Txn(Reversal, -n, 0, r.key, Some(1)));
  }

  lemma GrantThenDebit(n: int, d: int, g: Op, s: Op)
    requires 0 < d <= n && g == OpGrant(n, Some(GrantKey("e1")), Some(0)) && s == OpDebit(d, Some(DebitKey("j")))
    ensures var b := After([g, s]);
            && b.acct == Account(n - d, 0, 2)
            && |b.ledger| == 2 && b.ledger[0].key == g.key && b.ledger[1].key == s.key
            && Sum(b.ledger) == n - d
  {
    var t1, t2 := Txn(Grant, n, 0, g.key, Some(0)), Txn(Debit, -d, 0, s.key, None);
    AfterStep([], g);
    assert [] + [g] == [g];
    assert After([g]) == Book(Account(n, 0, 1), [] + [t1]);
    AppendFacts([], t1);
    AfterStep([g], s);
    assert [g] + [s] == [g, s];
    assert After([g, s]) == Book(Account(n - d, 0, 2), [t1] + [t2]);
    AppendFacts([t1], t2);
  }

  lemma AfterStep(ops: seq<Op>, op: Op)
    ensures After(ops + [op]) == Exec(After(ops), op).book
  {
    assert (ops + [op])[..|ops|] == ops;
  }
}
