/**
 What webhook events bring, over whole histories: what a purchase records and pays out, which plans a
 user is entitled and subscribed to, and what a refund or chargeback records and takes.
 */
module WebhookEffects {
  import opened Wrappers
  import opened Ledger
  import opened Payments

  /** The delivery of a new event: no payment is recorded under its id. */
  predicate NewEvent(s: State, e: Event) { e.id != "" && PaymentFor(s.payments, e.id).None? }

  lemma RunStep(cfg: Config, xs: seq<Input>, x: Input)
    ensures Run(cfg, xs + [x]) == Next(cfg, Run(cfg, xs), x)
  {
    assert (xs + [x])[..|xs|] == xs;
  }

  // ---------------------------------------------------------------------------------------------
  // Purchases
  // ---------------------------------------------------------------------------------------------

  /** Nothing but the book of `u` moved, and it by this much. */
  ghost predicate Paid(s: State, s': State, u: UserId, credits: int) {
    && (forall v :: v != u ==> BookAt(s', v) == BookAt(s, v))
    && BookAt(s', u).acct.balance == BookAt(s, u).acct.balance + credits
    && BookAt(s', u).acct.held == BookAt(s, u).acct.held
    && Sum(BookAt(s', u).ledger) == Sum(BookAt(s, u).ledger) + credits
  }

  /** A new purchase event that can be fulfilled is recorded as one payment of the plan's credits, and pays
      them out once; any other leaves everything as it was and says why. */
  lemma PurchasePaysOut(cfg: Config, xs: seq<Input>, e: Event)
    requires NewEvent(Run(cfg, xs), e) && e.etype.PurchaseSucceeded?
    ensures var s, s', result := Run(cfg, xs), Run(cfg, xs + [Webhook(e)]), Handle(cfg, Run(cfg, xs), e).result;
            if Fulfillable(cfg, s.users, e) then
              var u, plan := e.user.value, cfg.catalog[e.plan.value];
              var n := if plan.kind.CreditPack? then plan.packCredits else plan.monthlyCredits;
              && s'.payments == s.payments + [Payment(u, e.id, e.objectId, Purchase, n, None)]
              && Paid(s, s', u, n) && 0 < n && s'.users == s.users
              && result == Ok(Fulfilled(|s.payments|, n))
            else s' == s && result == Err(Refusal(cfg, s, e))
  {
    var s := Run(cfg, xs);
    RunStep(cfg, xs, Webhook(e));
    RunKeepsInv(cfg, xs);
    if Fulfillable(cfg, s.users, e) {
      FulfilPays(cfg, s, e);
    } else {
      FulfilRefuses(cfg, s, e);
    }
  }

  lemma FulfilPays(cfg: Config, s: State, e: Event)
    requires Inv(cfg, s) && NewEvent(s, e) && Fulfillable(cfg, s.users, e)
    ensures var s', u, plan := Fulfil(cfg, s, e).state, e.user.value, cfg.catalog[e.plan.value];
            var n := if plan.kind.CreditPack? then plan.packCredits else plan.monthlyCredits;
            && s'.payments == s.payments + [Payment(u, e.id, e.objectId, Purchase, n, None)]
            && Paid(s, s', u, n) && 0 < n && s'.users == s.users
            && Fulfil(cfg, s, e).result == Ok(Fulfilled(|s.payments|, n))
  {
    var p := PurchaseOf(cfg, e);
    var b, op := BookAt(s, p.user), GrantOp(p, |s.payments|);
    assert UserFits(s, p.user);
    GrantRow(cfg, s, p);
    BookPaid(b, op);
    FulfilRecords(cfg, s, e);
    OneBook(s, Fulfil(cfg, s, e).state, p.user, Exec(b, op).book);
  }

  lemma BookPaid(b: Book, op: Op)
    requires op.OpGrant? && Exec(b, op).outcome.Applied?
    ensures var b' := Exec(b, op).book;
            && b'.acct.balance == b.acct.balance + op.amount && b'.acct.held == b.acct.held
            && Sum(b'.ledger) == Sum(b.ledger) + op.amount
  {
    SumAppend(b.ledger, Exec(b, op).outcome.txn);
  }

  lemma FulfilRecords(cfg: Config, s: State, e: Event)
    requires Fulfillable(cfg, s.users, e)
    requires var p := PurchaseOf(cfg, e); !Exec(BookAt(s, p.user), GrantOp(p, |s.payments|)).outcome.Rejected?
    ensures var r, p := Fulfil(cfg, s, e), PurchaseOf(cfg, e);
            && r.state.payments == s.payments + [p] && r.state.users == s.users
            && r.state.books == s.books[p.user := Exec(BookAt(s, p.user), GrantOp(p, |s.payments|)).book]
            && r.result == Ok(Fulfilled(|s.payments|, p.creditsGranted))
  {}

  lemma OneBook(s: State, s': State, u: UserId, b: Book)
    requires s'.books == s.books[u := b]
    ensures BookAt(s', u) == b && forall v :: v != u ==> BookAt(s', v) == BookAt(s, v)
  {}

  lemma FulfilRefuses(cfg: Config, s: State, e: Event)
    requires !Fulfillable(cfg, s.users, e)
    ensures Fulfil(cfg, s, e) == Handled(s, Err(Refusal(cfg, s, e)))
  {}

  /** Why a purchase is refused, if it is. */
  function Refusal(cfg: Config, s: State, e: Event): WebhookError {
    if e.user.None? || e.plan.None? then MissingMetadata
    else if e.plan.value !in cfg.catalog || !cfg.catalog[e.plan.value].active then PlanNotFound
    else if e.user.value !in s.users then NoSuchUser
    else CreditError(NotPositive)
  }

  /** Input number `k` of a run newly recorded the purchase of a subscription plan. */
  predicate Subscribes(cfg: Config, xs: seq<Input>, k: nat, u: UserId, slug: string) {
    && k < |xs| && xs[k].Webhook?
    && Buys(cfg, Run(cfg, xs[..k]), Run(cfg, xs[..k + 1]), xs[k].event, u, slug)
  }

  predicate Buys(cfg: Config, s: State, s': State, e: Event, u: UserId, slug: string) {
    && e.etype.PurchaseSucceeded? && e.user == Some(u) && e.plan == Some(slug)
    && PaymentFor(s.payments, e.id).None? && PaymentFor(s'.payments, e.id).Some?
    && slug in cfg.catalog && cfg.catalog[slug].kind.Subscription?
  }

  predicate IsEntitled(s: State, u: UserId, slug: string) { u in s.entitled && slug in s.entitled[u] }

  predicate BuysNow(cfg: Config, s: State, x: Input, u: UserId, slug: string) {
    x.Webhook? && Buys(cfg, s, Next(cfg, s, x), x.event, u, slug)
  }

  lemma EntitlesStep(cfg: Config, s: State, x: Input, u: UserId, slug: string)
    requires Inv(cfg, s)
    ensures var s' := Next(cfg, s, x);
            && (IsEntitled(s', u, slug) <==> IsEntitled(s, u, slug) || BuysNow(cfg, s, x, u, slug))
            && ((u, slug) in s'.subscriptions <==> (u, slug) in s.subscriptions || BuysNow(cfg, s, x, u, slug))
            && ((u, slug) in s'.subscriptions ==>
                  s'.subscriptions[(u, slug)]
                  == if BuysNow(cfg, s, x, u, slug) then x.event.subscription else s.subscriptions[(u, slug)])
  {
    if x.Webhook? && NewEvent(s, x.event) {
      match x.event.etype
      case PurchaseSucceeded => FulfilEntitles(cfg, s, x.event, u, slug);
      case ChargeRefunded => ReversalEntitlesNot(s, x.event, Refunding, x.event.credits, cfg.allowNegative);
      case DisputeCreated => ReversalEntitlesNot(s, x.event, Chargeback, 0, true);
      case Unhandled =>
    }
  }

  lemma ReversalEntitlesNot(s: State, e: Event, kind: PaymentKind, unmatched: int, allowNegative: bool)
    ensures var s' := Reverse(s, e, kind, unmatched, allowNegative).state;
            s'.entitled == s.entitled && s'.subscriptions == s.subscriptions
  {}

  lemma FulfilEntitles(cfg: Config, s: State, e: Event, u: UserId, slug: string)
    requires Inv(cfg, s) && NewEvent(s, e) && e.etype.PurchaseSucceeded?
    ensures var s', now := Fulfil(cfg, s, e).state, Buys(cfg, s, Fulfil(cfg, s, e).state, e, u, slug);
            && (IsEntitled(s', u, slug) <==> IsEntitled(s, u, slug) || now)
            && ((u, slug) in s'.subscriptions <==> (u, slug) in s.subscriptions || now)
            && ((u, slug) in s'.subscriptions ==>
                  s'.subscriptions[(u, slug)] == if now then e.subscription else s.subscriptions[(u, slug)])
  {
    FulfilsIff(cfg, s, e);
    if !Fulfillable(cfg, s.users, e) { FulfilRefuses(cfg, s, e); }
  }

  lemma {:induction false} SubscribesEarlier(cfg: Config, xs: seq<Input>, x: Input, u: UserId, slug: string)
    ensures forall k :: 0 <= k < |xs| ==> (Subscribes(cfg, xs + [x], k, u, slug) <==> Subscribes(cfg, xs, k, u, slug))
    ensures Subscribes(cfg, xs + [x], |xs|, u, slug) <==> BuysNow(cfg, Run(cfg, xs), x, u, slug)
  {
    RunStep(cfg, xs, x);
    assert (xs + [x])[..|xs|] == xs && (xs + [x])[..|xs| + 1] == xs + [x];
    forall k | 0 <= k < |xs| ensures Subscribes(cfg, xs + [x], k, u, slug) <==> Subscribes(cfg, xs, k, u, slug) {
      assert (xs + [x])[..k] == xs[..k] && (xs + [x])[..k + 1] == xs[..k + 1];
    }
  }

  /** After any deliveries and other traffic a user is entitled to a plan, and has a subscription to it, if
      and only if a purchase of it was recorded for the user and it is a subscription plan. */
  lemma {:induction false} EntitledIff(cfg: Config, xs: seq<Input>, u: UserId, slug: string)
    ensures IsEntitled(Run(cfg, xs), u, slug) <==> exists k :: 0 <= k < |xs| && Subscribes(cfg, xs, k, u, slug)
    ensures (u, slug) in Run(cfg, xs).subscriptions <==> IsEntitled(Run(cfg, xs), u, slug)
  {
    if xs != [] {
      var front, x := xs[..|xs| - 1], xs[|xs| - 1];
      assert xs == front + [x];
      RunStep(cfg, front, x);
      RunKeepsInv(cfg, front);
      EntitledIff(cfg, front, u, slug);
      EntitlesStep(cfg, Run(cfg, front), x, u, slug);
      SubscribesEarlier(cfg, front, x, u, slug);
      if BuysNow(cfg, Run(cfg, front), x, u, slug) {
        assert Subscribes(cfg, xs, |front|, u, slug);
      } else if IsEntitled(Run(cfg, front), u, slug) {
        var k :| 0 <= k < |front| && Subscribes(cfg, front, k, u, slug);
        assert Subscribes(cfg, xs, k, u, slug);
      }
    }
  }

  /** The subscription carries the provider's reference from the last of those purchases. */
  lemma {:induction false} SubscriptionIsLast(cfg: Config, xs: seq<Input>, k: nat, u: UserId, slug: string)
    requires Subscribes(cfg, xs, k, u, slug)
    requires forall later :: k < later < |xs| ==> !Subscribes(cfg, xs, later, u, slug)
    ensures (u, slug) in Run(cfg, xs).subscriptions
    ensures Run(cfg, xs).subscriptions[(u, slug)] == xs[k].event.subscription
  {
    var front, x := xs[..|xs| - 1], xs[|xs| - 1];
    assert xs == front + [x];
    RunStep(cfg, front, x);
    RunKeepsInv(cfg, front);
    EntitlesStep(cfg, Run(cfg, front), x, u, slug);
    SubscribesEarlier(cfg, front, x, u, slug);
    if k < |front| { SubscriptionIsLast(cfg, front, k, u, slug); }
  }

  // ---------------------------------------------------------------------------------------------
  // Refunds and chargebacks
  // ---------------------------------------------------------------------------------------------

  /** Payment `i` is the one purchase made in the session that the event refers to. */
  predicate OriginalOf(s: State, e: Event, i: nat) {
    && e.originalRef.Some? && IsPurchaseIn(s.payments, e.originalRef.value, i)
    && forall k :: 0 <= k < |s.payments| && IsPurchaseIn(s.payments, e.originalRef.value, k) ==> k == i
  }

  predicate NoOriginal(s: State, e: Event) {
    e.originalRef.Some? ==> forall k :: 0 <= k < |s.payments| ==> !IsPurchaseIn(s.payments, e.originalRef.value, k)
  }

  ghost predicate Distinct(s: seq<nat>) { forall a, b :: 0 <= a < b < |s| ==> s[a] != s[b] }

  lemma {:induction false} OriginalsAre(ps: seq<Payment>, session: string)
    ensures forall i :: i in Originals(ps, session) <==> 0 <= i < |ps| && IsPurchaseIn(ps, session, i)
    ensures Distinct(Originals(ps, session))
  {
    if ps != [] {
      var front := ps[..|ps| - 1];
      OriginalsAre(front, session);
      forall i | 0 <= i < |front|
        ensures IsPurchaseIn(ps, session, i) <==> IsPurchaseIn(front, session, i)
      {
        assert ps[i] == front[i];
      }
      var before, found := Originals(front, session), Originals(ps, session);
      assert found == before + (if IsPurchaseIn(ps, session, |front|) then [|front|] else []);
      forall a | 0 <= a < |before| ensures found[a] == before[a] < |front| { assert before[a] in before; }
    }
  }

  /** What the event finds of its original decides what the handler looks up. */
  lemma FoundOriginals(s: State, e: Event)
    ensures var found := if e.originalRef.None? then [] else Originals(s.payments, e.originalRef.value);
            && (found == [] <==> NoOriginal(s, e))
            && (forall i :: 0 <= i < |s.payments| ==> (found == [i] <==> OriginalOf(s, e, i)))
            && (|found| == 1 ==> 0 <= found[0] < |s.payments|)
  {
    if e.originalRef.Some? {
      var found := Originals(s.payments, e.originalRef.value);
      OriginalsAre(s.payments, e.originalRef.value);
      if found != [] { assert found[0] in found; }
      forall i | 0 <= i < |s.payments| ensures found == [i] <==> OriginalOf(s, e, i) { OneFound(found, i); }
    }
  }

  lemma OneFound(found: seq<nat>, i: nat)
    requires Distinct(found)
    ensures found == [i] <==> i in found && forall k :: k in found ==> k == i
  {
    if i in found && forall k :: k in found ==> k == i {
      assert found[0] in found && found[|found| - 1] in found;
    }
  }

  /** The one original, or else an existing user, decides whether there is anything to record. */
  ghost predicate Reversible(s: State, e: Event) {
    || (exists i :: 0 <= i < |s.payments| && OriginalOf(s, e, i))
    || (NoOriginal(s, e) && e.user.Some? && e.user.value in s.users)
  }

  ghost function Irreversible(s: State, e: Event): WebhookError {
    if !NoOriginal(s, e) then AmbiguousOriginal else if e.user.None? then UnknownUser else NoSuchUser
  }

  /** The payment that records a refund or chargeback: it undoes all of its original; without one, a refund
      takes the credits that the event names, and a chargeback none. */
  ghost predicate RecordsReversal(s: State, e: Event, p: Payment) {
    && p.event == e.id && p.session.None?
    && p.kind == (if e.etype.ChargeRefunded? then Refunding else Chargeback)
    && (forall i :: 0 <= i < |s.payments| && OriginalOf(s, e, i) ==>
          p.user == s.payments[i].user && p.creditsGranted == -s.payments[i].creditsGranted && p.related == Some(i))
    && (NoOriginal(s, e) ==>
          && Some(p.user) == e.user && p.related.None?
          && p.creditsGranted == if e.etype.ChargeRefunded? then -e.credits else 0)
  }

  /** Credits taken from one user: `n` off the ledger and as much of it as there is off the balance; or, when
      the balance must cover it, no more than the balance off either. */
  ghost predicate Taken(s: State, s': State, u: UserId, n: int, covered: bool) {
    var b, b' := BookAt(s, u), BookAt(s', u);
    var taken := if covered then Min(n, b.acct.balance) else n;
    && (forall v :: v != u ==> BookAt(s', v) == BookAt(s, v))
    && Sum(b'.ledger) == Sum(b.ledger) - taken
    && b'.acct.balance == Max(0, b.acct.balance - taken)
    && b'.acct.held == b.acct.held
  }

  /** Only a refund must be covered by the balance, and only where the balance may not go negative. */
  ghost predicate Undoes(cfg: Config, s: State, s': State, p: Payment) {
    Taken(s, s', p.user, -p.creditsGranted, p.kind.Refunding? && !cfg.allowNegative)
  }

  /** Over every history a new refund or chargeback event either records its payment and takes the credits,
      or leaves everything as it was, because its original is ambiguous or its user unknown. */
  lemma ReversalTakesIff(cfg: Config, xs: seq<Input>, e: Event)
    requires NewEvent(Run(cfg, xs), e) && ReversalEvent(e)
    ensures var s, s', result := Run(cfg, xs), Run(cfg, xs + [Webhook(e)]), Handle(cfg, Run(cfg, xs), e).result;
            if Reversible(s, e) then
              && |s'.payments| == |s.payments| + 1 && s'.payments[..|s.payments|] == s.payments
              && RecordsReversal(s, e, s'.payments[|s.payments|])
              && Undoes(cfg, s, s', s'.payments[|s.payments|])
              && result == Ok(Reversed(|s.payments|))
            else s' == s && result == Err(Irreversible(s, e))
  {
    var s := Run(cfg, xs);
    RunStep(cfg, xs, Webhook(e));
    RunKeepsInv(cfg, xs);
    FoundOriginals(s, e);
    if e.etype.ChargeRefunded? {
      ReverseTakes(cfg, s, e, Refunding, e.credits);
    } else {
      ReverseTakes(cfg, s, e, Chargeback, 0);
    }
  }

  lemma ReverseTakes(cfg: Config, s: State, e: Event, kind: PaymentKind, unmatched: int)
    requires Inv(cfg, s) && NewEvent(s, e) && ReversalEvent(e)
    requires kind == (if e.etype.ChargeRefunded? then Refunding else Chargeback)
    requires unmatched == if e.etype.ChargeRefunded? then e.credits else 0
    ensures var r := Reverse(s, e, kind, unmatched, cfg.allowNegative || kind.Chargeback?);
            if Reversible(s, e) then
              && |r.state.payments| == |s.payments| + 1 && r.state.payments[..|s.payments|] == s.payments
              && RecordsReversal(s, e, r.state.payments[|s.payments|])
              && Undoes(cfg, s, r.state, r.state.payments[|s.payments|])
              && r.result == Ok(Reversed(|s.payments|))
            else r == Handled(s, Err(Irreversible(s, e)))
  {
    FoundReversal(s, e, kind, unmatched);
    var found := ReversalOf(s.users, s.payments, e, kind, unmatched);
    if found.Ok? { UndoTakes(cfg, s, found.value); }
  }

  lemma FoundReversal(s: State, e: Event, kind: PaymentKind, unmatched: int)
    requires kind == (if e.etype.ChargeRefunded? then Refunding else Chargeback)
    requires unmatched == if e.etype.ChargeRefunded? then e.credits else 0
    ensures var found := ReversalOf(s.users, s.payments, e, kind, unmatched);
            && (found.Ok? <==> Reversible(s, e))
            && (found.Err? ==> found.error == Irreversible(s, e))
            && (found.Ok? ==> RecordsReversal(s, e, found.value))
            && (found.Ok? ==> found.value.event == e.id && found.value.kind == kind)
  {
    FoundOriginals(s, e);
    var found := if e.originalRef.None? then [] else Originals(s.payments, e.originalRef.value);
    if |found| == 1 { assert OriginalOf(s, e, found[0]); }
  }

  lemma UndoTakes(cfg: Config, s: State, p: Payment)
    requires Inv(cfg, s) && PaymentFor(s.payments, p.event).None? && !p.kind.Purchase?
    ensures var r := RecordReversal(s, p, cfg.allowNegative || p.kind.Chargeback?);
            && r.state.payments == s.payments + [p] && r.result == Ok(Reversed(|s.payments|))
            && Undoes(cfg, s, r.state, p)
  {
    assert UserFits(s, p.user);
    if p.creditsGranted != 0 {
      var allow := cfg.allowNegative || p.kind.Chargeback?;
      UndoRow(cfg, s, p, allow);
      ReversalRecords(s, p, allow);
      TakenFrom(s, RecordReversal(s, p, allow).state, p.user, UndoOp(p, |s.payments|, allow), !allow);
    }
  }

  lemma TakenFrom(s: State, s': State, u: UserId, op: Op, covered: bool)
    requires op.OpReverse? && op.allowNegative == !covered && Exec(BookAt(s, u), op).outcome.Applied?
    requires s'.books == s.books[u := Exec(BookAt(s, u), op).book]
    ensures Taken(s, s', u, op.amount, covered)
  {
    BookTaken(BookAt(s, u), op);
    OneBook(s, s', u, Exec(BookAt(s, u), op).book);
  }

  lemma ReversalRecords(s: State, p: Payment, allow: bool)
    requires p.creditsGranted != 0 && Exec(BookAt(s, p.user), UndoOp(p, |s.payments|, allow)).outcome.Applied?
    ensures var r := RecordReversal(s, p, allow);
            && r.state.payments == s.payments + [p] && r.result == Ok(Reversed(|s.payments|))
            && r.state.books == s.books[p.user := Exec(BookAt(s, p.user), UndoOp(p, |s.payments|, allow)).book]
  {}

  lemma BookTaken(b: Book, op: Op)
    requires op.OpReverse? && Exec(b, op).outcome.Applied?
    ensures var b' := Exec(b, op).book;
            var taken := if op.allowNegative then op.amount else Min(op.amount, b.acct.balance);
            && Sum(b'.ledger) == Sum(b.ledger) - taken
            && b'.acct.balance == Max(0, b.acct.balance - taken)
            && b'.acct.held == b.acct.held
  {
    var t := Exec(b, op).outcome.txn;
    assert Exec(b, op).book.ledger == b.ledger + [t];
    assert t.amount == if op.allowNegative then -op.amount else -Min(op.amount, b.acct.balance);
    SumAppend(b.ledger, t);
  }

  // ---------------------------------------------------------------------------------------------
  // Everything else
  // ---------------------------------------------------------------------------------------------

  /** No other delivery changes anything: an event without an id is refused, one whose id has a payment is
      answered with it, and one of no other kind is ignored. */
  lemma OthersChangeNothing(cfg: Config, xs: seq<Input>, e: Event)
    requires !NewEvent(Run(cfg, xs), e) || e.etype.Unhandled?
    ensures var s, result := Run(cfg, xs), Handle(cfg, Run(cfg, xs), e).result;
            && Run(cfg, xs + [Webhook(e)]) == s
            && (e.id == "" <==> result == Err(MissingId))
            && (e.id != "" && NewEvent(s, e) ==> result == Ok(Ignored))
            && (e.id != "" && !NewEvent(s, e) ==>
                  && result.Ok? && result.value.Duplicate?
                  && result.value.payment < |s.payments| && s.payments[result.value.payment].event == e.id)
  {
    RunStep(cfg, xs, Webhook(e));
    PaymentForFinds(Run(cfg, xs).payments, e.id);
  }

  lemma {:induction false} PaymentForFinds(ps: seq<Payment>, event: string)
    ensures var i := PaymentFor(ps, event); i.Some? ==> i.value < |ps| && ps[i.value].event == event
  {
    if ps != [] { PaymentForFinds(ps[..|ps| - 1], event); }
  }
}
