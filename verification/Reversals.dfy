/**
 What refunds and chargebacks take back of a purchase, over whole histories of webhook deliveries.
 */
module Reversals {
  import opened Wrappers
  import opened Ledger
  import opened Payments
  import opened WebhookEffects

  /** Recorded refunds and chargebacks of purchase `i`. */
  function ReversalsOf(ps: seq<Payment>, i: nat): nat {
    if ps == [] then 0
    else ReversalsOf(ps[..|ps| - 1], i) + if ps[|ps| - 1].related == Some(i) then 1 else 0
  }

  /** Those of them that are chargebacks. */
  function ChargebacksOf(ps: seq<Payment>, i: nat): nat {
    if ps == [] then 0
    else
      var p := ps[|ps| - 1];
      ChargebacksOf(ps[..|ps| - 1], i) + if p.related == Some(i) && p.kind.Chargeback? then 1 else 0
  }

  /** The row was written by a refund or chargeback of purchase `i`. */
  predicate TakesBack(ps: seq<Payment>, t: Txn, i: nat) {
    t.kind.Reversal? && t.payment.Some? && t.payment.value < |ps| && ps[t.payment.value].related == Some(i)
  }

  /** Credits that a ledger's rows take back for purchase `i`. */
  function TakenBack(ps: seq<Payment>, ledger: seq<Txn>, i: nat): int {
    if ledger == [] then 0
    else
      var t := ledger[|ledger| - 1];
      TakenBack(ps, ledger[..|ledger| - 1], i) - if TakesBack(ps, t, i) then t.amount else 0
  }

  function Times(c: int, n: nat): int { if n == 0 then 0 else Times(c, n - 1) + c }

  lemma {:induction false} TimesIsProduct(c: int, n: nat)
    ensures Times(c, n) == c * n
  {
    if n > 0 {
      TimesIsProduct(c, n - 1);
      assert c * n == c * (n - 1) + c;
    }
  }

  /** A reversal refers to an earlier purchase of the same user and undoes all of it. */
  ghost predicate RelatedFits(ps: seq<Payment>, p: Payment) {
    p.related.Some? ==>
      && p.related.value < |ps| && !p.kind.Purchase?
      && var o := ps[p.related.value];
         o.kind.Purchase? && o.user == p.user && p.creditsGranted == -o.creditsGranted
  }

  ghost predicate RelatedOk(ps: seq<Payment>) {
    forall k :: 0 <= k < |ps| ==> RelatedFits(ps[..k], ps[k])
  }

  /** Ledger rows refer to recorded payments only. */
  ghost predicate Linked(n: nat, ledger: seq<Txn>) {
    forall t :: t in ledger && t.payment.Some? ==> t.payment.value < n
  }

  ghost predicate TakenFits(cfg: Config, s: State, i: nat)
    requires i < |s.payments|
  {
    var o := s.payments[i];
    Accounts(o.creditsGranted, ReversalsOf(s.payments, i), ChargebacksOf(s.payments, i),
             TakenBack(s.payments, BookAt(s, o.user).ledger, i), cfg.allowNegative)
  }

  /** `n` reversals of a grant of `c` took back at most the grant each, the `m` chargebacks among them all
      of it, and so did the rest if `exact`. */
  predicate Accounts(c: int, n: nat, m: nat, taken: int, exact: bool) {
    Times(c, m) <= taken <= Times(c, n) && (exact ==> taken == Times(c, n))
  }

  ghost predicate Fits(cfg: Config, s: State) {
    && Inv(cfg, s)
    && RelatedOk(s.payments)
    && (forall u :: Linked(|s.payments|, BookAt(s, u).ledger))
    && (forall i :: 0 <= i < |s.payments| && s.payments[i].kind.Purchase? ==> TakenFits(cfg, s, i))
  }

  // ---------------------------------------------------------------------------------------------
  // One more payment, one more row
  // ---------------------------------------------------------------------------------------------

  /** The rows that recording payment `p` adds to its user's ledger. */
  ghost predicate RowsFor(cfg: Config, p: Payment, id: nat, rows: seq<Txn>) {
    if p.kind.Purchase? then |rows| == 1 && rows[0].kind.Grant? && rows[0].payment == Some(id)
    else if p.creditsGranted == 0 then rows == []
    else |rows| == 1 && RowFor(cfg, p, id, rows[0])
  }

  ghost predicate Adds(cfg: Config, s: State, s': State, p: Payment, rows: seq<Txn>) {
    && s'.payments == s.payments + [p]
    && RelatedFits(s.payments, p)
    && (p.kind.Purchase? ==> p.creditsGranted > 0)
    && RowsFor(cfg, p, |s.payments|, rows)
    && (forall u :: BookAt(s', u).ledger == BookAt(s, u).ledger + if u == p.user then rows else [])
  }

  lemma HandleAdds(cfg: Config, s: State, e: Event)
    requires Inv(cfg, s)
    ensures var s' := Handle(cfg, s, e).state; s' == s || exists p, rows :: Adds(cfg, s, s', p, rows)
  {
    if e.id != "" && PaymentFor(s.payments, e.id).None? {
      match e.etype
      case PurchaseSucceeded => FulfilAdds(cfg, s, e);
      case ChargeRefunded => ReverseAdds(cfg, s, e, Refunding, e.credits);
      case DisputeCreated => ReverseAdds(cfg, s, e, Chargeback, 0);
      case Unhandled =>
    }
  }

  lemma MakeAdds(cfg: Config, s: State, s': State, p: Payment, b': Book, rows: seq<Txn>)
    requires RelatedFits(s.payments, p) && (p.kind.Purchase? ==> p.creditsGranted > 0)
    requires s'.payments == s.payments + [p] && s'.books == s.books[p.user := b']
    requires b'.ledger == BookAt(s, p.user).ledger + rows && RowsFor(cfg, p, |s.payments|, rows)
    ensures Adds(cfg, s, s', p, rows)
  {}

  lemma FulfilAdds(cfg: Config, s: State, e: Event)
    requires Inv(cfg, s) && PaymentFor(s.payments, e.id).None?
    ensures var s' := Fulfil(cfg, s, e).state; s' == s || exists p, rows :: Adds(cfg, s, s', p, rows)
  {
    var s' := Fulfil(cfg, s, e).state;
    if s' != s {
      FulfilState(cfg, s, e);
      var p := PurchaseOf(cfg, e);
      var b, op := BookAt(s, p.user), GrantOp(p, |s.payments|);
      assert UserFits(s, p.user);
      GrantRow(cfg, s, p);
      NewRow(b, op);
      MakeAdds(cfg, s, s', p, Exec(b, op).book, [Exec(b, op).outcome.txn]);
    }
  }

  lemma NewRow(b: Book, op: Op)
    ensures Exec(b, op).outcome.Applied? ==> Exec(b, op).book.ledger == b.ledger + [Exec(b, op).outcome.txn]
    ensures !Exec(b, op).outcome.Applied? ==> Exec(b, op).book == b
    ensures Exec(b, op).outcome.Applied? && Exec(b, op).outcome.txn.kind.Reversal? ==> op.OpReverse?
  {}

  lemma ReverseAdds(cfg: Config, s: State, e: Event, kind: PaymentKind, unmatched: int)
    requires Inv(cfg, s) && PaymentFor(s.payments, e.id).None? && !kind.Purchase?
    ensures var s' := Reverse(s, e, kind, unmatched, cfg.allowNegative || kind.Chargeback?).state;
            s' == s || exists p, rows :: Adds(cfg, s, s', p, rows)
  {
    var found := ReversalOf(s.users, s.payments, e, kind, unmatched);
    if found.Ok? {
      if e.originalRef.Some? { OriginalsInRange(s.payments, e.originalRef.value); }
      assert RelatedFits(s.payments, found.value);
      var rows := ReversalAdds(cfg, s, found.value);
    }
  }

  lemma ReversalAdds(cfg: Config, s: State, p: Payment) returns (rows: seq<Txn>)
    requires Inv(cfg, s) && PaymentFor(s.payments, p.event).None? && !p.kind.Purchase? && RelatedFits(s.payments, p)
    ensures Adds(cfg, s, RecordReversal(s, p, cfg.allowNegative || p.kind.Chargeback?).state, p, rows)
  {
    var allow := cfg.allowNegative || p.kind.Chargeback?;
    var s' := RecordReversal(s, p, allow).state;
    assert UserFits(s, p.user);
    if p.creditsGranted == 0 {
      rows := [];
      forall u ensures BookAt(s', u).ledger == BookAt(s, u).ledger + if u == p.user then rows else [] {}
    } else {
      var b, op := BookAt(s, p.user), UndoOp(p, |s.payments|, allow);
      UndoRow(cfg, s, p, allow);
      NewRow(b, op);
      rows := [Exec(b, op).outcome.txn];
      MakeAdds(cfg, s, s', p, Exec(b, op).book, rows);
    }
  }

  /** Recording a payment changes nothing about rows that were there before. */
  lemma {:induction false} OldRowsStay(ps: seq<Payment>, p: Payment, ledger: seq<Txn>, i: nat)
    requires Linked(|ps|, ledger)
    ensures TakenBack(ps + [p], ledger, i) == TakenBack(ps, ledger, i)
  {
    if ledger != [] {
      var front := ledger[..|ledger| - 1];
      assert ledger == front + [ledger[|ledger| - 1]];
      OldRowsStay(ps, p, front, i);
    }
  }

  lemma TakenAppend(ps: seq<Payment>, ledger: seq<Txn>, t: Txn, i: nat)
    ensures TakenBack(ps, ledger + [t], i) == TakenBack(ps, ledger, i) - if TakesBack(ps, t, i) then t.amount else 0
  {
    assert (ledger + [t])[..|ledger|] == ledger;
  }

  lemma ReversalsAppend(ps: seq<Payment>, p: Payment, i: nat)
    ensures ReversalsOf(ps + [p], i) == ReversalsOf(ps, i) + if p.related == Some(i) then 1 else 0
    ensures ChargebacksOf(ps + [p], i)
            == ChargebacksOf(ps, i) + if p.related == Some(i) && p.kind.Chargeback? then 1 else 0
  {
    assert (ps + [p])[..|ps|] == ps;
  }

  /** A payment that is not recorded yet has no reversals. */
  lemma {:induction false} NoneYet(ps: seq<Payment>, i: nat)
    requires RelatedOk(ps) && |ps| <= i
    ensures ReversalsOf(ps, i) == 0 == ChargebacksOf(ps, i)
  {
    if ps != [] {
      var front := ps[..|ps| - 1];
      assert RelatedFits(ps[..|ps| - 1], ps[|ps| - 1]);
      forall k | 0 <= k < |front| ensures RelatedFits(front[..k], front[k]) {
        assert front[..k] == ps[..k] && RelatedFits(ps[..k], ps[k]);
      }
      NoneYet(front, i);
    }
  }

  lemma {:induction false} NothingTaken(ps: seq<Payment>, ledger: seq<Txn>, i: nat)
    requires RelatedOk(ps) && |ps| <= i
    ensures TakenBack(ps, ledger, i) == 0
  {
    if ledger != [] {
      var t := ledger[|ledger| - 1];
      if t.payment.Some? && t.payment.value < |ps| { assert RelatedFits(ps[..t.payment.value], ps[t.payment.value]); }
      NothingTaken(ps, ledger[..|ledger| - 1], i);
    }
  }

  lemma RelatedAppend(ps: seq<Payment>, p: Payment)
    requires RelatedOk(ps) && RelatedFits(ps, p)
    ensures RelatedOk(ps + [p])
  {
    forall k | 0 <= k < |ps + [p]| ensures RelatedFits((ps + [p])[..k], (ps + [p])[k]) {
      if k < |ps| {
        assert (ps + [p])[..k] == ps[..k] && RelatedFits(ps[..k], ps[k]);
      } else {
        assert (ps + [p])[..k] == ps;
      }
    }
  }

  lemma AddKeeps(cfg: Config, s: State, s': State, p: Payment, rows: seq<Txn>)
    requires Fits(cfg, s) && Inv(cfg, s') && Adds(cfg, s, s', p, rows)
    ensures Fits(cfg, s')
  {
    var n := |s.payments|;
    RelatedAppend(s.payments, p);
    forall u ensures Linked(|s'.payments|, BookAt(s', u).ledger) { StaysLinked(cfg, s, s', p, rows, u); }
    forall i | 0 <= i < |s'.payments| && s'.payments[i].kind.Purchase? ensures TakenFits(cfg, s', i) {
      if i < n {
        assert TakenFits(cfg, s, i) && Matched(cfg, s, i);
        AddKeepsTaken(cfg, s, s', p, rows, i);
      } else {
        NewPurchase(cfg, s, s', p, rows);
      }
    }
  }

  lemma StaysLinked(cfg: Config, s: State, s': State, p: Payment, rows: seq<Txn>, u: UserId)
    requires Adds(cfg, s, s', p, rows) && Linked(|s.payments|, BookAt(s, u).ledger)
    ensures Linked(|s'.payments|, BookAt(s', u).ledger)
  {}

  lemma AddKeepsTaken(cfg: Config, s: State, s': State, p: Payment, rows: seq<Txn>, i: nat)
    requires Adds(cfg, s, s', p, rows) && i < |s.payments| && s.payments[i].kind.Purchase?
    requires TakenFits(cfg, s, i) && s.payments[i].creditsGranted > 0
    requires Linked(|s.payments|, BookAt(s, s.payments[i].user).ledger)
    ensures TakenFits(cfg, s', i)
  {
    var o, l := s.payments[i], BookAt(s, s.payments[i].user).ledger;
    MoreTaken(cfg, s, s', p, rows, i);
    ReversalsAppend(s.payments, p, i);
    StillFits(o.creditsGranted, ReversalsOf(s.payments, i), ReversalsOf(s'.payments, i),
              ChargebacksOf(s.payments, i), ChargebacksOf(s'.payments, i), TakenBack(s.payments, l, i),
              TakenBack(s'.payments, BookAt(s', o.user).ledger, i),
              p.related == Some(i), p.kind.Chargeback?, cfg.allowNegative);
  }

  /** A reversal of the purchase takes back at most its grant, and all of it for a chargeback or if the
      balance may go negative; any other payment takes back nothing. */
  lemma MoreTaken(cfg: Config, s: State, s': State, p: Payment, rows: seq<Txn>, i: nat)
    requires Adds(cfg, s, s', p, rows) && i < |s.payments| && s.payments[i].kind.Purchase?
    requires s.payments[i].creditsGranted > 0 && Linked(|s.payments|, BookAt(s, s.payments[i].user).ledger)
    ensures var o := s.payments[i];
            var more := TakenBack(s'.payments, BookAt(s', o.user).ledger, i)
                        - TakenBack(s.payments, BookAt(s, o.user).ledger, i);
            && (p.related == Some(i) ==>
                  0 <= more <= o.creditsGranted
                  && (cfg.allowNegative || p.kind.Chargeback? ==> more == o.creditsGranted))
            && (p.related != Some(i) ==> more == 0)
  {
    var l := BookAt(s, s.payments[i].user).ledger;
    RowTakesBack(cfg, s.payments, p, rows, i);
    if s.payments[i].user == p.user {
      TakenByRows(s.payments, p, l, rows, i);
    } else {
      OldRowsStay(s.payments, p, l, i);
      assert l + [] == l;
    }
  }

  /** The row of a payment takes back for the purchase that the payment refers to. */
  lemma RowTakesBack(cfg: Config, ps: seq<Payment>, p: Payment, rows: seq<Txn>, i: nat)
    requires RelatedFits(ps, p) && RowsFor(cfg, p, |ps|, rows)
    requires i < |ps| && ps[i].kind.Purchase? && ps[i].creditsGranted > 0
    ensures |rows| <= 1 && (rows != [] ==> (TakesBack(ps + [p], rows[0], i) <==> p.related == Some(i)))
    ensures p.related == Some(i) ==>
              && ps[i].user == p.user && rows != []
              && 0 <= -rows[0].amount <= ps[i].creditsGranted
              && (cfg.allowNegative || p.kind.Chargeback? ==> -rows[0].amount == ps[i].creditsGranted)
  {}

  lemma TakenByRows(ps: seq<Payment>, p: Payment, ledger: seq<Txn>, rows: seq<Txn>, i: nat)
    requires Linked(|ps|, ledger) && |rows| <= 1
    ensures TakenBack(ps + [p], ledger + rows, i)
         == TakenBack(ps, ledger, i) - if rows != [] && TakesBack(ps + [p], rows[0], i) then rows[0].amount else 0
  {
    OldRowsStay(ps, p, ledger, i);
    if rows == [] {
      assert ledger + rows == ledger;
    } else {
      assert rows == [rows[0]];
      TakenAppend(ps + [p], ledger, rows[0], i);
    }
  }

  lemma StillFits(c: int, n: nat, n': nat, m: nat, m': nat, taken: int, taken': int,
                  related: bool, back: bool, exact: bool)
    requires Accounts(c, n, m, taken, exact) && n' == n + (if related then 1 else 0)
    requires m' == m + if related && back then 1 else 0
    requires if related then 0 <= taken' - taken <= c && (exact || back ==> taken' - taken == c) else taken' == taken
    ensures Accounts(c, n', m', taken', exact)
  {}

  lemma NewPurchase(cfg: Config, s: State, s': State, p: Payment, rows: seq<Txn>)
    requires Adds(cfg, s, s', p, rows) && p.kind.Purchase? && RelatedOk(s.payments)
    requires Linked(|s.payments|, BookAt(s, p.user).ledger)
    ensures TakenFits(cfg, s', |s.payments|)
  {
    var n, l := |s.payments|, BookAt(s, p.user).ledger;
    NoneYet(s.payments, n);
    ReversalsAppend(s.payments, p, n);
    NothingTaken(s.payments, l, n);
    OldRowsStay(s.payments, p, l, n);
    TakenAppend(s'.payments, l, rows[0], n);
    assert rows == [rows[0]];
  }

  lemma ElsewhereKeeps(cfg: Config, s: State, u: UserId, op: Op)
    requires Fits(cfg, s) && NotPaymentOp(op)
    ensures Fits(cfg, Next(cfg, s, Elsewhere(u, op)))
  {
    var s' := Next(cfg, s, Elsewhere(u, op));
    var r := Exec(BookAt(s, u), op);
    ElsewhereStep(cfg, s, u, op);
    NewRow(BookAt(s, u), op);
    if r.outcome.Applied? { ElsewhereRow(BookAt(s, u), op); }
    forall v ensures Linked(|s'.payments|, BookAt(s', v).ledger) {
      assert Linked(|s.payments|, BookAt(s, v).ledger);
    }
    forall i | 0 <= i < |s'.payments| && s'.payments[i].kind.Purchase? ensures TakenFits(cfg, s', i) {
      assert TakenFits(cfg, s, i);
      if s.payments[i].user == u && r.outcome.Applied? {
        TakenAppend(s.payments, BookAt(s, u).ledger, r.outcome.txn, i);
      }
    }
  }

  lemma SignsUpFits(cfg: Config, s: State, u: UserId)
    requires Fits(cfg, s)
    ensures Fits(cfg, s.(users := s.users + {u}))
  {
    var s' := s.(users := s.users + {u});
    SignsUpStep(cfg, s, u);
    forall v ensures Linked(|s'.payments|, BookAt(s', v).ledger) {
      assert Linked(|s.payments|, BookAt(s, v).ledger);
    }
    forall i | 0 <= i < |s'.payments| && s'.payments[i].kind.Purchase? ensures TakenFits(cfg, s', i) {
      assert TakenFits(cfg, s, i);
    }
  }

  lemma {:induction false} RunFits(cfg: Config, xs: seq<Input>)
    ensures Fits(cfg, Run(cfg, xs))
  {
    if xs != [] {
      var s := Run(cfg, xs[..|xs| - 1]);
      RunFits(cfg, xs[..|xs| - 1]);
      match xs[|xs| - 1]
      case Webhook(e) =>
        var s' := Handle(cfg, s, e).state;
        HandleAdds(cfg, s, e);
        WebhookStep(cfg, s, e);
        if s' != s {
          var p, rows :| Adds(cfg, s, s', p, rows);
          AddKeeps(cfg, s, s', p, rows);
        }
      case SignsUp(u) => SignsUpFits(cfg, s, u);
      case Elsewhere(u, op) => if NotPaymentOp(op) { ElsewhereKeeps(cfg, s, u, op); }
    }
  }

  // ---------------------------------------------------------------------------------------------
  // The result
  // ---------------------------------------------------------------------------------------------

  /** After any deliveries and other traffic, the credits taken back for a purchase are its grant times
      the number of its recorded refunds and chargebacks, whenever the balance may go negative, and
      never more than that; and never less than its grant times its chargebacks. So they stay within
      the grant exactly while at most one was recorded, and two chargebacks always exceed it. */
  lemma TakenBackExactly(cfg: Config, xs: seq<Input>, i: nat)
    requires i < |Run(cfg, xs).payments| && Run(cfg, xs).payments[i].kind.Purchase?
    ensures var s := Run(cfg, xs);
            var o, n := s.payments[i], ReversalsOf(s.payments, i);
            var taken := TakenBack(s.payments, BookAt(s, o.user).ledger, i);
            && o.creditsGranted * ChargebacksOf(s.payments, i) <= taken <= o.creditsGranted * n
            && (cfg.allowNegative ==> taken == o.creditsGranted * n)
            && (n <= 1 ==> taken <= o.creditsGranted)
            && (cfg.allowNegative ==> (taken <= o.creditsGranted <==> n <= 1))
            && (taken <= o.creditsGranted ==> ChargebacksOf(s.payments, i) <= 1)
  {
    var s := Run(cfg, xs);
    RunFits(cfg, xs);
    assert TakenFits(cfg, s, i) && Matched(cfg, s, i);
    TimesIsProduct(s.payments[i].creditsGranted, ReversalsOf(s.payments, i));
    TimesIsProduct(s.payments[i].creditsGranted, ChargebacksOf(s.payments, i));
    AtMostOne(s.payments[i].creditsGranted, ChargebacksOf(s.payments, i));
    AtMostOne(s.payments[i].creditsGranted, ReversalsOf(s.payments, i));
  }

  lemma AtMostOne(c: int, n: nat)
    requires 0 < c
    ensures c * n <= c <==> n <= 1
  {
    if n > 1 { assert c * (n - 1) >= c; }
  }

  /** It happens: a user's fulfilled purchase of `c` credits and any two reversal events for it leave a
      ledger sum of -c. */
  lemma ReversedTwiceHappens(cfg: Config, e0: Event, e1: Event, e2: Event)
    requires e0.id != "" && e0.etype.PurchaseSucceeded? && e0.objectId.Some?
    requires e0.user.Some? && Fulfillable(cfg, {e0.user.value}, e0)
    requires ReversalEvent(e1) && ReversalEvent(e2) && e0.id != e1.id && e0.id != e2.id && e1.id != e2.id
    requires e1.originalRef == e0.objectId == e2.originalRef
    requires cfg.allowNegative || (e1.etype.DisputeCreated? && e2.etype.DisputeCreated?)
    ensures var u := e0.user.value;
            var s := Run(cfg, [SignsUp(u), Webhook(e0)] + [Webhook(e1)] + [Webhook(e2)]);
            Sum(BookAt(s, u).ledger) == -PlanCredits(cfg.catalog[e0.plan.value])
  {
    FirstPurchase(cfg, e0.user.value, e0);
    PurchaseReversedTwice(cfg, [SignsUp(e0.user.value), Webhook(e0)], e1, e2, 0);
  }

  lemma SignedUp(cfg: Config, u: UserId)
    ensures Run(cfg, [SignsUp(u)]) == INIT.(users := {u})
  {
    var xs := [SignsUp(u)];
    assert xs[..|xs| - 1] == [];
    assert RunFrom(cfg, INIT, []) == INIT;
    assert Run(cfg, xs) == Next(cfg, INIT, SignsUp(u));
    assert INIT.users + {u} == {u};
  }

  lemma FirstPurchase(cfg: Config, u: UserId, e: Event)
    requires e.id != "" && e.etype.PurchaseSucceeded? && e.user == Some(u) && Fulfillable(cfg, {u}, e)
    ensures var s, p := Run(cfg, [SignsUp(u), Webhook(e)]), PurchaseOf(cfg, e);
            && s.payments == [p]
            && Sum(BookAt(s, p.user).ledger) == p.creditsGranted
            && (p.session.Some? ==> Originals(s.payments, p.session.value) == [0])
            && (forall other :: other != e.id ==> PaymentFor(s.payments, other).None?)
  {
    var xs := [SignsUp(u)];
    SignedUp(cfg, u);
    PurchasePaysOut(cfg, xs, e);
    assert xs + [Webhook(e)] == [SignsUp(u), Webhook(e)];
    OnePayment(PurchaseOf(cfg, e));
  }

  lemma OnePayment(p: Payment)
    requires p.kind.Purchase?
    ensures [] + [p] == [p]
    ensures forall other :: other != p.event ==> PaymentFor([p], other).None?
    ensures p.session.Some? ==> Originals([p], p.session.value) == [0]
  {
    assert [p][..0] == [];
  }
}
