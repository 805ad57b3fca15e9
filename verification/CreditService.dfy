/**
 The credit service as it runs: balance rows updated in place and an append-only ledger table,
 inside one database session that can be committed or rolled back.

 Every operation is proved to do, for the user it names, exactly what `Ledger.Exec` says, and
 nothing to anybody else.
 */
module CreditService {
  import opened Wrappers
  import opened Keys
  import opened Ledger

  /** A row of the balance table. */
  class CreditBalance {
    var balance: int
    var held: int
    var version: int

    constructor (a: Account)
      ensures Value() == a
    {
      balance, held, version := a.balance, a.held, a.version;
    }

    function Value(): Account
      reads this
    {
      Account(balance, held, version)
    }
  }

  datatype LedgerRow = LedgerRow(user: UserId, txn: Txn)

  /** One user's part of the ledger table. */
  function LedgerOf(rows: seq<LedgerRow>, u: UserId): seq<Txn> {
    if rows == [] then []
    else
      var front, last := LedgerOf(rows[..|rows| - 1], u), rows[|rows| - 1];
      if last.user == u then front + [last.txn] else front
  }

  class CreditSession {
    var balances: map<UserId, CreditBalance>
    var ledger: seq<LedgerRow>
    // What a rollback returns to: the state of the last commit.
    var savedAccounts: map<UserId, Account>
    var savedLedger: seq<LedgerRow>

    ghost predicate Valid()
      reads this
    {
      forall u, v :: u in balances && v in balances && u != v ==> balances[u] != balances[v]
    }

    ghost function Rows(): set<object>
      reads this
    {
      set u | u in balances :: balances[u] as object
    }

    function BookOf(u: UserId): Book
      reads this, set v | v in balances :: balances[v]
    {
      Book(if u in balances then balances[u].Value() else NO_ACCOUNT, LedgerOf(ledger, u))
    }

    function SavedBookOf(u: UserId): Book
      reads this
    {
      Book(if u in savedAccounts then savedAccounts[u] else NO_ACCOUNT, LedgerOf(savedLedger, u))
    }

    constructor ()
      ensures Valid() && fresh(Rows())
      ensures forall u :: BookOf(u) == EMPTY && SavedBookOf(u) == EMPTY
    {
      balances, ledger, savedAccounts, savedLedger := map[], [], map[], [];
    }

    /** Fetch the row for update, inserting a zero row for a user who has none. */
    method LockedBalance(u: UserId) returns (bal: CreditBalance)
      requires Valid()
      modifies this`balances
      ensures Valid() && u in balances && balances[u] == bal
      ensures fresh(Rows() - old(Rows()))
      ensures forall v :: v in old(balances) ==> v in balances && balances[v] == old(balances[v])
      ensures forall v :: BookOf(v) == old(BookOf(v))
    {
      if u !in balances {
        var row := new CreditBalance(NO_ACCOUNT);
        balances := balances[u := row];
      }
      bal := balances[u];
    }

    /** Flush one new ledger row together with the new balance row. The CHECK constraint refuses a
        negative balance, and then neither is written. */
    method FlushTxn(u: UserId, bal: CreditBalance, balance: int, held: int, txn: Txn)
      returns (out: Outcome)
      requires Valid() && u in balances && balances[u] == bal
      modifies bal, this`ledger
      ensures Valid()
      ensures out == if balance < 0 then Rejected(CheckViolated) else Applied(txn)
      ensures BookOf(u) == if balance < 0 then old(BookOf(u))
                           else Book(Account(balance, held, old(bal.version) + 1), old(BookOf(u).ledger) + [txn])
      ensures forall v :: v != u ==> BookOf(v) == old(BookOf(v))
    {
      if balance < 0 { return Rejected(CheckViolated); }
      ledger := ledger + [LedgerRow(u, txn)];
      bal.balance, bal.held, bal.version := balance, held, bal.version + 1;
      assert ledger[..|ledger| - 1] == old(ledger);
      out := Applied(txn);
    }

    method Grant(u: UserId, amount: int, key: Option<Key>, payment: Option<nat>) returns (out: Outcome)
      requires Valid()
      modifies this`balances, this`ledger, Rows()
      ensures Valid() && fresh(Rows() - old(Rows()))
      ensures Executed(BookOf(u), out) == Exec(old(BookOf(u)), OpGrant(amount, key, payment))
      ensures forall v :: v != u ==> BookOf(v) == old(BookOf(v))
    {
      if amount <= 0 { return Rejected(NotPositive); }
      var existing := Find(LedgerOf(ledger, u), key);
      if existing.Some? { return Existing(existing.value); }
      var bal := LockedBalance(u);
      out := FlushTxn(u, bal, bal.balance + amount, bal.held, Txn(Kind.Grant, amount, 0, key, payment));
    }

    method Hold(u: UserId, amount: int, key: Option<Key>) returns (out: Outcome)
      requires Valid()
      modifies this`balances, this`ledger, Rows()
      ensures Valid() && fresh(Rows() - old(Rows()))
      ensures Executed(BookOf(u), out) == Exec(old(BookOf(u)), OpHold(amount, key))
      ensures forall v :: v != u ==> BookOf(v) == old(BookOf(v))
    {
      var existing := Find(LedgerOf(ledger, u), key);
      if existing.Some? { return Existing(existing.value); }
      var bal := LockedBalance(u);
      if bal.balance - bal.held < amount {
        return Rejected(PaymentRequired(amount, bal.balance - bal.held));
      }
      out := FlushTxn(u, bal, bal.balance, bal.held + amount, Txn(Kind.Hold, 0, amount, key, None));
    }

    method Debit(u: UserId, amount: int, key: Option<Key>) returns (out: Outcome)
      requires Valid()
      modifies this`balances, this`ledger, Rows()
      ensures Valid() && fresh(Rows() - old(Rows()))
      ensures Executed(BookOf(u), out) == Exec(old(BookOf(u)), OpDebit(amount, key))
      ensures forall v :: v != u ==> BookOf(v) == old(BookOf(v))
    {
      var existing := Find(LedgerOf(ledger, u), key);
      if existing.Some? { return Existing(existing.value); }
      var bal := LockedBalance(u);
      out := FlushTxn(u, bal, bal.balance - amount, Max(0, bal.held - amount), Txn(Kind.Debit, -amount, 0, key, None));
    }

    method RefundHold(u: UserId, amount: int, key: Option<Key>) returns (out: Outcome)
      requires Valid()
      modifies this`balances, this`ledger, Rows()
      ensures Valid() && fresh(Rows() - old(Rows()))
      ensures Executed(BookOf(u), out) == Exec(old(BookOf(u)), OpRefund(amount, key))
      ensures forall v :: v != u ==> BookOf(v) == old(BookOf(v))
    {
      var existing := Find(LedgerOf(ledger, u), key);
      if existing.Some? { return Existing(existing.value); }
      var bal := LockedBalance(u);
      out := FlushTxn(u, bal, bal.balance, Max(0, bal.held - amount), Txn(Kind.Refund, 0, amount, key, None));
    }

    method ReverseGrant(u: UserId, amount: int, key: Option<Key>, payment: Option<nat>, allowNegative: bool)
      returns (out: Outcome)
      requires Valid()
      modifies this`balances, this`ledger, Rows()
      ensures Valid() && fresh(Rows() - old(Rows()))
      ensures Executed(BookOf(u), out) == Exec(old(BookOf(u)), OpReverse(amount, key, payment, allowNegative))
      ensures forall v :: v != u ==> BookOf(v) == old(BookOf(v))
    {
      var existing := Find(LedgerOf(ledger, u), key);
      if existing.Some? { return Existing(existing.value); }
      var bal := LockedBalance(u);
      var deduct := if allowNegative then amount else Min(amount, bal.balance);
      out := FlushTxn(u, bal, Max(0, bal.balance - deduct), bal.held,
                      Txn(Kind.Reversal, -deduct, 0, key, payment));
    }

    /** End of a request that raised nothing. */
    method Commit()
      requires Valid()
      modifies this`savedAccounts, this`savedLedger
      ensures Valid()
      ensures forall u :: BookOf(u) == old(BookOf(u)) && SavedBookOf(u) == BookOf(u)
    {
      savedAccounts := map u | u in balances :: balances[u].Value();
      savedLedger := ledger;
    }

    /** End of a request that raised: the rows are read afresh from the last commit. */
    method Rollback()
      requires Valid()
      modifies this`balances, this`ledger
      ensures Valid() && fresh(Rows())
      ensures forall u :: SavedBookOf(u) == old(SavedBookOf(u)) && BookOf(u) == SavedBookOf(u)
    {
      var todo := savedAccounts.Keys;
      balances, ledger := map[], savedLedger;
      while todo != {}
        invariant todo <= savedAccounts.Keys && balances.Keys == savedAccounts.Keys - todo
        invariant Valid() && fresh(Rows())
        invariant ledger == savedLedger
        invariant forall u :: u in balances ==> fresh(balances[u])
        invariant forall u :: u in balances ==> balances[u].Value() == savedAccounts[u]
        decreases |todo|
      {
        var u :| u in todo;
        var row := new CreditBalance(savedAccounts[u]);
        balances := balances[u := row];
        todo := todo - {u};
      }
    }
  }
}
