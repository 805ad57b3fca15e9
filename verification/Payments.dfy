/**
 Webhook fulfilment: purchases, refunds and chargebacks, deduplicated by the provider's event id.
 */
module Payments {
  import opened Wrappers
  import opened Keys
  import opened Ledger

  datatype PlanKind = Subscription | CreditPack

  datatype Plan = Plan(kind: PlanKind, monthlyCredits: int, packCredits: int, active: bool)

  datatype PaymentKind = Purchase | Refunding | Chargeback

  /** A row of the payments table; its id is its position. */
  datatype Payment = Payment(user: UserId, event: string, session: Option<string>, kind: PaymentKind,
                             creditsGranted: int, related: Option<nat>)

  datatype EventType = PurchaseSucceeded | ChargeRefunded | DisputeCreated | Unhandled

  /** A verified webhook event: the fields the handlers read, already resolved from the fallbacks
      they are looked up under. An empty id counts as missing. */
  datatype Event = Event(id: string, etype: EventType, user: Option<UserId>, plan: Option<string>,
                         objectId: Option<string>, originalRef: Option<string>, credits: int,
                         subscription: Option<string>)

  datatype Config = Config(catalog: map<string, Plan>, allowNegative: bool)

  datatype State = State(
    users: set<UserId>,                                      // rows of the users table
    books: map<UserId, Book>,
    payments: seq<Payment>,
    subscriptions: map<(UserId, string), Option<string>>,    // active, with the provider's reference
    entitled: map<UserId, set<string>>)

  datatype Reply = Duplicate(payment: nat) | Ignored | Fulfilled(payment: nat, credits: int) | Reversed(payment: nat)

  /** `NoSuchUser` is the foreign key of the payment row refusing a user id that no user has. */
  datatype WebhookError =
    | MissingId | MissingMetadata | PlanNotFound | UnknownUser | NoSuchUser | AmbiguousOriginal
    | CreditError(error: Error)

  datatype Handled = Handled(state: State, result: Result<Reply, WebhookError>)

  function BookAt(s: State, u: UserId): Book {
    if u in s.books then s.books[u] else EMPTY
  }

  // ---------------------------------------------------------------------------------------------
  // Handlers
  // ---------------------------------------------------------------------------------------------

  /** The payment already recorded for an event. */
  function PaymentFor(payments: seq<Payment>, event: string): Option<nat> {
    if payments == [] then None
    else if payments[|payments| - 1].event == event then Some(|payments| - 1)
    else PaymentFor(payments[..|payments| - 1], event)
  }

  /** The purchases made in a checkout session. */
  function Originals(payments: seq<Payment>, session: string): seq<nat> {
    if payments == [] then []
    else
      var p := payments[|payments| - 1];
      Originals(payments[..|payments| - 1], session)
      + if p.kind.Purchase? && p.session == Some(session) then [|payments| - 1] else []
  }

  function PlanCredits(p: Plan): int { if p.kind.CreditPack? then p.packCredits else p.monthlyCredits }

  function Entitle(entitled: map<UserId, set<string>>, u: UserId, slug: string): map<UserId, set<string>> {
    entitled[u := (if u in entitled then entitled[u] else {}) + {slug}]
  }

  /** An exception rolls the request back, so a failed delivery leaves the state as it was. */
  function Handle(cfg: Config, s: State, e: Event): Handled {
    if e.id == "" then Handled(s, Err(MissingId))
    else match PaymentFor(s.payments, e.id)
      case Some(i) => Handled(s, Ok(Duplicate(i)))
      case None =>
        match e.etype
        case PurchaseSucceeded => Fulfil(cfg, s, e)
        case ChargeRefunded => Reverse(s, e, Refunding, e.credits, cfg.allowNegative)
        case DisputeCreated => Reverse(s, e, Chargeback, 0, true)
        case Unhandled => Handled(s, Ok(Ignored))
  }

  function Fulfil(cfg: Config, s: State, e: Event): Handled {
    if e.user.None? || e.plan.None? then Handled(s, Err(MissingMetadata))
    else if e.plan.value !in cfg.catalog || !cfg.catalog[e.plan.value].active then Handled(s, Err(PlanNotFound))
    else if e.user.value !in s.users then Handled(s, Err(NoSuchUser))
    else
      var u, slug, plan := e.user.value, e.plan.value, cfg.catalog[e.plan.value];
      var n := PlanCredits(plan);
      var r := Exec(BookAt(s, u), OpGrant(n, Some(GrantKey(e.id)), Some(|s.payments|)));
      if r.outcome.Rejected? then Handled(s, Err(CreditError(r.outcome.error)))
      else
        var s1 := s.(payments := s.payments + [Payment(u, e.id, e.objectId, Purchase, n, None)],
                     books := s.books[u := r.book]);
        var s2 := if plan.kind.Subscription?
                  then s1.(subscriptions := s1.subscriptions[(u, slug) := e.subscription],
                           entitled := Entitle(s1.entitled, u, slug))
                  else s1;
        Handled(s2, Ok(Fulfilled(|s.payments|, n)))
  }

  /** Refund or chargeback. */
  function Reverse(s: State, e: Event, kind: PaymentKind, unmatched: int, allowNegative: bool): Handled {
    match ReversalOf(s.users, s.payments, e, kind, unmatched)
    case Err(error) => Handled(s, Err(error))
    case Ok(p) => RecordReversal(s, p, allowNegative)
  }

  /** The payment to record for it. With no original purchase a refund trusts the event's own figure. */
  function ReversalOf(users: set<UserId>, payments: seq<Payment>, e: Event, kind: PaymentKind, unmatched: int)
    : Result<Payment, WebhookError>
  {
    var found := if e.originalRef.None? then [] else Originals(payments, e.originalRef.value);
    if |found| > 1 then Err(AmbiguousOriginal)
    else if found == [] then
      if e.user.None? then Err(UnknownUser)
      else if e.user.value !in users then Err(NoSuchUser)
      else Ok(Payment(e.user.value, e.id, None, kind, -unmatched, None))
    else
      assert IsPurchaseIn(payments, e.originalRef.value, found[0]) by {
        OriginalsInRange(payments, e.originalRef.value);
      }
      var o := payments[found[0]];
      Ok(Payment(o.user, e.id, None, kind, -o.creditsGranted, Some(found[0])))
  }

  function UndoOp(p: Payment, id: nat, allowNegative: bool): Op {
    OpReverse(-p.creditsGranted, Some(ReverseKey(p.event)), Some(id), allowNegative)
  }

  function RecordReversal(s: State, p: Payment, allowNegative: bool): Handled {
    var s1 := s.(payments := s.payments + [p]);
    if p.creditsGranted == 0 then Handled(s1, Ok(Reversed(|s.payments|)))
    else
      var r := Exec(BookAt(s, p.user), UndoOp(p, |s.payments|, allowNegative));
      if r.outcome.Rejected? then Handled(s, Err(CreditError(r.outcome.error)))
      else Handled(s1.(books := s.books[p.user := r.book]), Ok(Reversed(|s.payments|)))
  }

  ghost predicate PurchasesIn(payments: seq<Payment>, session: string, found: seq<nat>) {
    forall k :: 0 <= k < |found| ==> IsPurchaseIn(payments, session, found[k])
  }

  predicate IsPurchaseIn(payments: seq<Payment>, session: string, i: nat) {
    i < |payments| && payments[i].kind.Purchase? && payments[i].session == Some(session)
  }

  lemma {:induction false} OriginalsInRange(payments: seq<Payment>, session: string)
    ensures PurchasesIn(payments, session, Originals(payments, session))
  {
    if payments != [] {
      var front := payments[..|payments| - 1];
      OriginalsInRange(front, session);
      forall k | 0 <= k < |Originals(payments, session)|
        ensures IsPurchaseIn(payments, session, Originals(payments, session)[k])
      {
        if k < |Originals(front, session)| {
          assert IsPurchaseIn(front, session, Originals(front, session)[k]);
        }
      }
    }
  }

  /** What reaches the service: webhook deliveries, new users, and every other ledger operation. */
  datatype Input = Webhook(event: Event) | SignsUp(user: UserId) | Elsewhere(user: UserId, op: Op)

  predicate NotPaymentOp(op: Op) {
    && (op.key.Some? ==> !op.key.value.GrantKey? && !op.key.value.ReverseKey?)
    && (op.OpGrant? ==> op.payment.None?)
    && !op.OpReverse?
  }

  function Next(cfg: Config, s: State, x: Input): State {
    match x
    case Webhook(e) => Handle(cfg, s, e).state
    case SignsUp(u) => s.(users := s.users + {u})
    case Elsewhere(u, op) =>
      if NotPaymentOp(op) then s.(books := s.books[u := Exec(BookAt(s, u), op).book]) else s
  }

  function RunFrom(cfg: Config, s: State, xs: seq<Input>): State {
    if xs == [] then s else Next(cfg, RunFrom(cfg, s, xs[..|xs| - 1]), xs[|xs| - 1])
  }

  const INIT := State({}, map[], [], map[], map[])

  function Run(cfg: Config, xs: seq<Input>): State { RunFrom(cfg, INIT, xs) }

  // ---------------------------------------------------------------------------------------------
  // The service
  // ---------------------------------------------------------------------------------------------

  class PaymentsService {
    const cfg: Config
    var users: set<UserId>
    var books: map<UserId, Book>
    var payments: seq<Payment>
    var subscriptions: map<(UserId, string), Option<string>>
    var entitled: map<UserId, set<string>>

    constructor (cfg: Config)
      ensures this.cfg == cfg && Value() == INIT
    {
      this.cfg := cfg;
      users, books, payments, subscriptions, entitled := {}, map[], [], map[], map[];
    }

    function Value(): State
      reads this
    {
      State(users, books, payments, subscriptions, entitled)
    }

    method SignUp(u: UserId)
      modifies this`users
      ensures Value() == Next(cfg, old(Value()), SignsUp(u))
    {
      users := users + {u};
    }

    method HandleWebhook(e: Event) returns (r: Result<Reply, WebhookError>)
      modifies this
      ensures Handled(Value(), r) == Handle(cfg, old(Value()), e)
    {
      if e.id == "" { return Err(MissingId); }
      var existing := PaymentFor(payments, e.id);
      if existing.Some? { return Ok(Duplicate(existing.value)); }
      match e.etype
      case PurchaseSucceeded => r := FulfillPurchase(e);
      case ChargeRefunded => r := HandleReversal(e, Refunding, e.credits, cfg.allowNegative);
      case DisputeCreated => r := HandleReversal(e, Chargeback, 0, true);
      case Unhandled => r := Ok(Ignored);
    }

    method FulfillPurchase(e: Event) returns (r: Result<Reply, WebhookError>)
      modifies this
      ensures Handled(Value(), r) == Fulfil(cfg, old(Value()), e)
    {
      if e.user.None? || e.plan.None? { return Err(MissingMetadata); }
      var u, slug := e.user.value, e.plan.value;
      if slug !in cfg.catalog || !cfg.catalog[slug].active { return Err(PlanNotFound); }
      if u !in users { return Err(NoSuchUser); }
      var plan, id, saved := cfg.catalog[slug], |payments|, payments;
      var n := if plan.kind.CreditPack? then plan.packCredits else plan.monthlyCredits;
      payments := payments + [Payment(u, e.id, e.objectId, Purchase, n, None)];
      var grant := Exec(if u in books then books[u] else EMPTY, OpGrant(n, Some(GrantKey(e.id)), Some(id)));
      if grant.outcome.Rejected? {
        payments := saved;
        return Err(CreditError(grant.outcome.error));
      }
      books := books[u := grant.book];
      if plan.kind.Subscription? {
        subscriptions := subscriptions[(u, slug) := e.subscription];
        entitled := entitled[u := (if u in entitled then entitled[u] else {}) + {slug}];
      }
      r := Ok(Fulfilled(id, n));
    }

    method HandleReversal(e: Event, kind: PaymentKind, unmatched: int, allowNegative: bool)
      returns (r: Result<Reply, WebhookError>)
      modifies this
      ensures Handled(Value(), r) == Reverse(old(Value()), e, kind, unmatched, allowNegative)
    {
      var found := if e.originalRef.None? then [] else Originals(payments, e.originalRef.value);
      if |found| > 1 { return Err(AmbiguousOriginal); }
      if found == [] {
        if e.user.None? { return Err(UnknownUser); }
        if e.user.value !in users { return Err(NoSuchUser); }
        r := StoreReversal(Payment(e.user.value, e.id, None, kind, -unmatched, None), allowNegative);
      } else {
        OriginalsInRange(payments, e.originalRef.value);
        assert IsPurchaseIn(payments, e.originalRef.value, found[0]);
        var o := payments[found[0]];
        r := StoreReversal(Payment(o.user, e.id, None, kind, -o.creditsGranted, Some(found[0])), allowNegative);
      }
    }

    method StoreReversal(p: Payment, allowNegative: bool) returns (r: Result<Reply, WebhookError>)
      modifies this
      ensures Handled(Value(), r) == RecordReversal(old(Value()), p, allowNegative)
    {
      var id, saved := |payments|, payments;
      payments := payments + [p];
      if p.creditsGranted != 0 {
        var reversal := Exec(if p.user in books then books[p.user] else EMPTY, UndoOp(p, id, allowNegative));
        if reversal.outcome.Rejected? {
          payments := saved;
          return Err(CreditError(reversal.outcome.error));
        }
        books := books[p.user := reversal.book];
      }
      r := Ok(Reversed(id));
    }
  }

  // ---------------------------------------------------------------------------------------------
  // Replays
  // ---------------------------------------------------------------------------------------------

  lemma {:induction false} RunJoin(cfg: Config, s: State, a: seq<Input>, b: seq<Input>)
    ensures RunFrom(cfg, s, a + b) == RunFrom(cfg, RunFrom(cfg, s, a), b)
  {
    if b == [] {
      assert a + b == a;
    } else {
      RunJoin(cfg, s, a, b[..|b| - 1]);
      assert (a + b)[..|a + b| - 1] == a + b[..|b| - 1];
    }
  }

  lemma {:induction false} RecordedForever(cfg: Config, s: State, xs: seq<Input>, event: string)
    requires PaymentFor(s.payments, event).Some?
    ensures PaymentFor(RunFrom(cfg, s, xs).payments, event).Some?
  {
    if xs != [] {
      RecordedForever(cfg, s, xs[..|xs| - 1], event);
      StepRecords(cfg, RunFrom(cfg, s, xs[..|xs| - 1]), xs[|xs| - 1], event);
    }
  }

  lemma StepRecords(cfg: Config, s: State, x: Input, event: string)
    requires PaymentFor(s.payments, event).Some?
    ensures PaymentFor(Next(cfg, s, x).payments, event).Some?
  {
    AtMostOneMore(cfg, s, x);
    var s' := Next(cfg, s, x);
    if s'.payments != s.payments {
      assert s'.payments[..|s.payments|] == s.payments;
    }
  }

  /** `ps'` is `ps`, or `ps` and one more payment. */
  predicate Appended(ps: seq<Payment>, ps': seq<Payment>) {
    ps' == ps || (|ps'| == |ps| + 1 && ps'[..|ps|] == ps)
  }

  lemma AtMostOneMore(cfg: Config, s: State, x: Input)
    ensures Appended(s.payments, Next(cfg, s, x).payments)
  {
    match x
    case Webhook(e) =>
      match e.etype {
        case PurchaseSucceeded => FulfilAppends(cfg, s, e);
        case ChargeRefunded => ReverseAppends(s, e, Refunding, e.credits, cfg.allowNegative);
        case DisputeCreated => ReverseAppends(s, e, Chargeback, 0, true);
        case Unhandled =>
      }
    case SignsUp(_) =>
    case Elsewhere(_, _) =>
  }

  lemma FulfilAppends(cfg: Config, s: State, e: Event)
    ensures Appended(s.payments, Fulfil(cfg, s, e).state.payments)
  {}

  lemma ReverseAppends(s: State, e: Event, kind: PaymentKind, unmatched: int, allowNegative: bool)
    ensures Appended(s.payments, Reverse(s, e, kind, unmatched, allowNegative).state.payments)
  {}

  /** A delivery that made a payment is the last that counts for its event id: whatever happens in
      between, and whatever the later delivery claims, dropping the later one changes nothing, now
      or afterwards. */
  lemma RedeliveryIsInvisible(cfg: Config, before: seq<Input>, e: Event, between: seq<Input>,
                              again: Event, after: seq<Input>)
    requires again.id == e.id && e.id != ""
    requires PaymentFor(Run(cfg, before + [Webhook(e)]).payments, e.id).Some?
    ensures Run(cfg, before + [Webhook(e)] + between + [Webhook(again)] + after)
         == Run(cfg, before + [Webhook(e)] + between + after)
    ensures Handle(cfg, Run(cfg, before + [Webhook(e)] + between), again).result.Ok?
    ensures Handle(cfg, Run(cfg, before + [Webhook(e)] + between), again).result.value.Duplicate?
  {
    var first := before + [Webhook(e)];
    RunJoin(cfg, INIT, first, between);
    RecordedForever(cfg, Run(cfg, first), between, e.id);
    var s := Run(cfg, first + between);
    assert Next(cfg, s, Webhook(again)) == s;
    assert (first + between + [Webhook(again)])[..|first + between|] == first + between;
    RunJoin(cfg, INIT, first + between + [Webhook(again)], after);
    RunJoin(cfg, INIT, first + between, after);
  }

  // ---------------------------------------------------------------------------------------------
  // Payments against the ledger
  // ---------------------------------------------------------------------------------------------

  /** Credits moved by payment-linked ledger rows. */
  function LinkedGrants(ledger: seq<Txn>): int {
    if ledger == [] then 0
    else
      var t := ledger[|ledger| - 1];
      LinkedGrants(ledger[..|ledger| - 1]) + if t.kind.Grant? && t.payment.Some? then t.amount else 0
  }

  function PurchasedCredits(payments: seq<Payment>, u: UserId): int {
    if payments == [] then 0
    else
      var p := payments[|payments| - 1];
      PurchasedCredits(payments[..|payments| - 1], u) + if p.kind.Purchase? && p.user == u then p.creditsGranted else 0
  }

  /** The ledger row of a payment: the grant of a purchase; for a refund or chargeback of a nonzero
      amount, its reversal, which matches the payment in full whenever the balance may go negative. */
  ghost predicate Matched(cfg: Config, s: State, i: nat)
    requires i < |s.payments|
  {
    var p := s.payments[i];
    var l := BookAt(s, p.user).ledger;
    match p.kind
    case Purchase =>
      && p.creditsGranted > 0
      && Find(l, Some(GrantKey(p.event))) == Some(Txn(Grant, p.creditsGranted, 0, Some(GrantKey(p.event)), Some(i)))
    case _ =>
      p.creditsGranted != 0 ==>
        var t := Find(l, Some(ReverseKey(p.event)));
        && t.Some? && t.value.kind.Reversal? && t.value.payment == Some(i)
        && p.creditsGranted <= t.value.amount
        && (cfg.allowNegative || p.kind.Chargeback? ==> t.value.amount == p.creditsGranted)
  }

  /** Grant and reversal keys in a user's ledger come from recorded payments. */
  ghost predicate KeysRecorded(s: State, u: UserId) {
    forall k: Key :: (k.GrantKey? || k.ReverseKey?) && HasKey(BookAt(s, u).ledger, k) ==>
      PaymentFor(s.payments, k.event).Some?
  }

  ghost predicate UserFits(s: State, u: UserId) {
    && KeysRecorded(s, u)
    && Sound(BookAt(s, u))
    && LinkedGrants(BookAt(s, u).ledger) == PurchasedCredits(s.payments, u)
  }

  ghost predicate OneEach(payments: seq<Payment>) {
    forall i, j :: 0 <= i < j < |payments| ==> payments[i].event != payments[j].event
  }

  ghost predicate Inv(cfg: Config, s: State) {
    && OneEach(s.payments)
    && (forall i :: 0 <= i < |s.payments| ==> Matched(cfg, s, i))
    && (forall u :: UserFits(s, u))
  }

  lemma {:induction false} PaymentForSound(payments: seq<Payment>, event: string)
    ensures PaymentFor(payments, event).Some? <==> exists i :: 0 <= i < |payments| && payments[i].event == event
  {
    if payments != [] && payments[|payments| - 1].event != event {
      PaymentForSound(payments[..|payments| - 1], event);
    }
  }

  lemma LinkedAppend(l: seq<Txn>, t: Txn)
    ensures LinkedGrants(l + [t]) == LinkedGrants(l) + if t.kind.Grant? && t.payment.Some? then t.amount else 0
  {
    assert (l + [t])[..|l|] == l;
  }

  lemma RecordAppend(ps: seq<Payment>, p: Payment)
    ensures forall u :: PurchasedCredits(ps + [p], u) ==
              PurchasedCredits(ps, u) + if p.kind.Purchase? && p.user == u then p.creditsGranted else 0
    ensures forall e :: PaymentFor(ps, e).Some? || e == p.event ==> PaymentFor(ps + [p], e).Some?
  {
    assert (ps + [p])[..|ps|] == ps;
  }

  lemma MatchedFrame(cfg: Config, s: State, s': State, i: nat)
    requires i < |s.payments| <= |s'.payments| && s'.payments[i] == s.payments[i] && Matched(cfg, s, i)
    requires var p := s.payments[i];
             var l, l' := BookAt(s, p.user).ledger, BookAt(s', p.user).ledger;
             && Find(l, Some(GrantKey(p.event))) == Find(l', Some(GrantKey(p.event)))
             && Find(l, Some(ReverseKey(p.event))) == Find(l', Some(ReverseKey(p.event)))
    ensures Matched(cfg, s', i)
  {}

  function KeyOf(p: Payment): Key { if p.kind.Purchase? then GrantKey(p.event) else ReverseKey(p.event) }

  /** `b'` is `b` with one more ledger row. */
  ghost predicate Extends(b: Book, b': Book, t: Txn) {
    && Sound(b')
    && (forall k :: Find(b'.ledger, k) == if k.Some? && k == t.key then Some(t) else Find(b.ledger, k))
    && LinkedGrants(b'.ledger) == LinkedGrants(b.ledger) + if t.kind.Grant? && t.payment.Some? then t.amount else 0
  }

  /** The ledger row `t` is the one that payment `p` with this id calls for. */
  ghost predicate RowFor(cfg: Config, p: Payment, id: nat, t: Txn) {
    && t.key == Some(KeyOf(p)) && t.payment == Some(id)
    && if p.kind.Purchase? then t == Txn(Grant, p.creditsGranted, 0, t.key, Some(id)) && p.creditsGranted > 0
       else && t.kind.Reversal? && p.creditsGranted <= t.amount && (p.creditsGranted <= 0 ==> t.amount <= 0)
            && (cfg.allowNegative || p.kind.Chargeback? ==> t.amount == p.creditsGranted)
  }

  /** The step common to all handlers: one new payment, and its user's book extended by the row it
      calls for, or not at all when it reverses nothing. */
  ghost predicate Records(cfg: Config, s: State, s': State, p: Payment, b': Book) {
    && PaymentFor(s.payments, p.event).None?
    && s'.payments == s.payments + [p]
    && (forall u :: BookAt(s', u) == if u == p.user then b' else BookAt(s, u))
    && ( || (!p.kind.Purchase? && p.creditsGranted == 0 && b' == BookAt(s, p.user))
         || (exists t :: Extends(BookAt(s, p.user), b', t) && RowFor(cfg, p, |s.payments|, t)))
  }

  lemma RecordStep(cfg: Config, s: State, s': State, p: Payment, b': Book)
    requires Inv(cfg, s) && Records(cfg, s, s', p, b')
    ensures Inv(cfg, s')
  {
    var n := |s.payments|;
    PaymentForSound(s.payments, p.event);
    forall i | 0 <= i < |s'.payments| ensures Matched(cfg, s', i) {
      if i < n {
        assert Matched(cfg, s, i) && s.payments[i].event != p.event;
        MatchedFrame(cfg, s, s', i);
      }
    }
    forall u ensures UserFits(s', u) {
      assert UserFits(s, u);
      RecordUser(cfg, s, s', p, b', u);
    }
  }

  lemma RecordUser(cfg: Config, s: State, s': State, p: Payment, b': Book, u: UserId)
    requires Records(cfg, s, s', p, b') && UserFits(s, u)
    ensures UserFits(s', u)
  {
    RecordAppend(s.payments, p);
  }

  lemma ExecExtends(b: Book, op: Op)
    requires Sound(b) && op.key.Some? && !HasKey(b.ledger, op.key.value) && !Exec(b, op).outcome.Rejected?
    ensures Exec(b, op).outcome.Applied? && Extends(b, Exec(b, op).book, Exec(b, op).outcome.txn)
  {
    var r := Exec(b, op);
    ExecKeepsSound(b, op);
    AppendFacts(b.ledger, r.outcome.txn);
    LinkedAppend(b.ledger, r.outcome.txn);
  }

  lemma WebhookStep(cfg: Config, s: State, e: Event)
    requires Inv(cfg, s)
    ensures Inv(cfg, Handle(cfg, s, e).state)
  {
    var s' := Handle(cfg, s, e).state;
    if e.id != "" && PaymentFor(s.payments, e.id).None? {
      match e.etype
      case PurchaseSucceeded => FulfilStep(cfg, s, e);
      case ChargeRefunded => ReverseStep(cfg, s, e, Refunding, e.credits);
      case DisputeCreated => ReverseStep(cfg, s, e, Chargeback, 0);
      case Unhandled =>
    }
  }

  /** What a fulfilment that changes anything does to the payments and the books. */
  lemma FulfilState(cfg: Config, s: State, e: Event)
    requires Fulfil(cfg, s, e).state != s
    ensures e.user.Some? && e.plan.Some? && e.plan.value in cfg.catalog && cfg.catalog[e.plan.value].active
    ensures var p := PurchaseOf(cfg, e);
            var r, s' := Exec(BookAt(s, p.user), GrantOp(p, |s.payments|)), Fulfil(cfg, s, e).state;
            && !r.outcome.Rejected?
            && s'.payments == s.payments + [p] && s'.books == s.books[p.user := r.book]
  {}

  /** The payment that a fulfilled event is recorded as. */
  function PurchaseOf(cfg: Config, e: Event): Payment
    requires e.user.Some? && e.plan.Some? && e.plan.value in cfg.catalog
  {
    Payment(e.user.value, e.id, e.objectId, Purchase, PlanCredits(cfg.catalog[e.plan.value]), None)
  }

  lemma FulfilStep(cfg: Config, s: State, e: Event)
    requires Inv(cfg, s) && PaymentFor(s.payments, e.id).None?
    ensures Inv(cfg, Fulfil(cfg, s, e).state)
  {
    var s' := Fulfil(cfg, s, e).state;
    if s' != s {
      FulfilState(cfg, s, e);
      var p := PurchaseOf(cfg, e);
      assert UserFits(s, p.user);
      GrantRow(cfg, s, p);
      RecordStep(cfg, s, s', p, Exec(BookAt(s, p.user), GrantOp(p, |s.payments|)).book);
    }
  }

  function GrantOp(p: Payment, id: nat): Op { OpGrant(p.creditsGranted, Some(GrantKey(p.event)), Some(id)) }

  lemma GrantRow(cfg: Config, s: State, p: Payment)
    requires PaymentFor(s.payments, p.event).None? && p.kind.Purchase? && UserFits(s, p.user)
    ensures var r := Exec(BookAt(s, p.user), GrantOp(p, |s.payments|));
            && (r.outcome.Rejected? <==> p.creditsGranted <= 0)
            && (!r.outcome.Rejected? ==>
                  && r.outcome.Applied?
                  && Extends(BookAt(s, p.user), r.book, r.outcome.txn)
                  && RowFor(cfg, p, |s.payments|, r.outcome.txn))
  {
    assert !HasKey(BookAt(s, p.user).ledger, GrantKey(p.event));
    if p.creditsGranted > 0 { ExecExtends(BookAt(s, p.user), GrantOp(p, |s.payments|)); }
  }

  lemma ReverseStep(cfg: Config, s: State, e: Event, kind: PaymentKind, unmatched: int)
    requires Inv(cfg, s) && PaymentFor(s.payments, e.id).None? && !kind.Purchase?
    ensures Inv(cfg, Reverse(s, e, kind, unmatched, cfg.allowNegative || kind.Chargeback?).state)
  {
    var found := ReversalOf(s.users, s.payments, e, kind, unmatched);
    if found.Ok? { ReversalStep(cfg, s, found.value); }
  }

  lemma ReversalStep(cfg: Config, s: State, p: Payment)
    requires Inv(cfg, s) && PaymentFor(s.payments, p.event).None? && !p.kind.Purchase?
    ensures Inv(cfg, RecordReversal(s, p, cfg.allowNegative || p.kind.Chargeback?).state)
  {
    var allow := cfg.allowNegative || p.kind.Chargeback?;
    var s' := RecordReversal(s, p, allow).state;
    assert UserFits(s, p.user);
    if p.creditsGranted == 0 {
      RecordStep(cfg, s, s', p, BookAt(s, p.user));
    } else {
      UndoRow(cfg, s, p, allow);
      RecordStep(cfg, s, s', p, Exec(BookAt(s, p.user), UndoOp(p, |s.payments|, allow)).book);
    }
  }

  lemma UndoRow(cfg: Config, s: State, p: Payment, allow: bool)
    requires PaymentFor(s.payments, p.event).None? && !p.kind.Purchase? && UserFits(s, p.user)
    requires allow == (cfg.allowNegative || p.kind.Chargeback?)
    ensures var r := Exec(BookAt(s, p.user), UndoOp(p, |s.payments|, allow));
            && r.outcome.Applied?
            && Extends(BookAt(s, p.user), r.book, r.outcome.txn)
            && RowFor(cfg, p, |s.payments|, r.outcome.txn)
  {
    assert !HasKey(BookAt(s, p.user).ledger, ReverseKey(p.event));
    ExecExtends(BookAt(s, p.user), UndoOp(p, |s.payments|, allow));
  }

  lemma ElsewhereStep(cfg: Config, s: State, u: UserId, op: Op)
    requires Inv(cfg, s) && NotPaymentOp(op)
    ensures Inv(cfg, Next(cfg, s, Elsewhere(u, op)))
  {
    var s' := Next(cfg, s, Elsewhere(u, op));
    assert UserFits(s, u);
    forall i | 0 <= i < |s'.payments| ensures Matched(cfg, s', i) {
      assert Matched(cfg, s, i);
      ElsewherePayment(cfg, s, u, op, i);
    }
    forall v ensures UserFits(s', v) {
      assert UserFits(s, v);
      ElsewhereUser(cfg, s, u, op, v);
    }
  }

  lemma ElsewherePayment(cfg: Config, s: State, u: UserId, op: Op, i: nat)
    requires NotPaymentOp(op) && Sound(BookAt(s, u)) && i < |s.payments| && Matched(cfg, s, i)
    ensures Matched(cfg, Next(cfg, s, Elsewhere(u, op)), i)
  {
    ElsewhereFacts(BookAt(s, u), op);
    MatchedFrame(cfg, s, Next(cfg, s, Elsewhere(u, op)), i);
  }

  lemma ElsewhereUser(cfg: Config, s: State, u: UserId, op: Op, v: UserId)
    requires NotPaymentOp(op) && UserFits(s, u) && UserFits(s, v)
    ensures UserFits(Next(cfg, s, Elsewhere(u, op)), v)
  {
    ElsewhereFacts(BookAt(s, u), op);
  }

  lemma ElsewhereFacts(b: Book, op: Op)
    requires Sound(b) && NotPaymentOp(op)
    ensures var b' := Exec(b, op).book;
            && Sound(b')
            && (forall k: Key :: k.GrantKey? || k.ReverseKey? ==> Find(b'.ledger, Some(k)) == Find(b.ledger, Some(k)))
            && LinkedGrants(b'.ledger) == LinkedGrants(b.ledger)
  {
    ExecKeepsSound(b, op);
    if Exec(b, op).outcome.Applied? {
      ElsewhereRow(b, op);
      OtherRow(b.ledger, Exec(b, op).outcome.txn);
    }
  }

  lemma ElsewhereRow(b: Book, op: Op)
    requires NotPaymentOp(op) && Exec(b, op).outcome.Applied?
    ensures var r := Exec(b, op);
            r.book.ledger == b.ledger + [r.outcome.txn] && NotPaymentRow(r.outcome.txn)
  {}

  predicate NotPaymentRow(t: Txn) {
    && (t.key.Some? ==> !t.key.value.GrantKey? && !t.key.value.ReverseKey?)
    && (t.kind.Grant? ==> t.payment.None?)
  }

  lemma OtherRow(l: seq<Txn>, t: Txn)
    requires NotPaymentRow(t)
    ensures forall k: Key :: k.GrantKey? || k.ReverseKey? ==> Find(l + [t], Some(k)) == Find(l, Some(k))
    ensures LinkedGrants(l + [t]) == LinkedGrants(l)
  {
    AppendFacts(l, t);
    LinkedAppend(l, t);
  }

  lemma SignsUpStep(cfg: Config, s: State, u: UserId)
    requires Inv(cfg, s)
    ensures Inv(cfg, s.(users := s.users + {u}))
  {
    var s' := s.(users := s.users + {u});
    forall i | 0 <= i < |s'.payments| ensures Matched(cfg, s', i) { assert Matched(cfg, s, i); }
    forall v ensures UserFits(s', v) { assert UserFits(s, v); }
  }

  lemma {:induction false} RunKeepsInv(cfg: Config, xs: seq<Input>)
    ensures Inv(cfg, Run(cfg, xs))
  {
    if xs != [] {
      var s := Run(cfg, xs[..|xs| - 1]);
      RunKeepsInv(cfg, xs[..|xs| - 1]);
      match xs[|xs| - 1]
      case Webhook(e) => WebhookStep(cfg, s, e);
      case SignsUp(u) => SignsUpStep(cfg, s, u);
      case Elsewhere(u, op) => if NotPaymentOp(op) { ElsewhereStep(cfg, s, u, op); }
    }
  }

  /** After any deliveries and other traffic: one payment per event; every payment has its ledger row,
      for the full amount when the balance may go negative; and each user's payment-linked grants
      add up to the credits of that user's purchases. */
  lemma PaymentsMatchLedger(cfg: Config, xs: seq<Input>, u: UserId)
    ensures var s := Run(cfg, xs);
            && OneEach(s.payments)
            && (forall i :: 0 <= i < |s.payments| ==> Matched(cfg, s, i))
            && LinkedGrants(BookAt(s, u).ledger) == PurchasedCredits(s.payments, u)
  {
    RunKeepsInv(cfg, xs);
    assert UserFits(Run(cfg, xs), u);
  }

  /** Exactly which purchase events are recorded. In particular a plan without credits never is: the
      grant is refused, the request rolls back, and every redelivery fails the same way. Nor is a
      purchase for a user id that no user has. */
  lemma PurchaseRecordedIff(cfg: Config, xs: seq<Input>, e: Event)
    requires e.id != "" && e.etype.PurchaseSucceeded? && PaymentFor(Run(cfg, xs).payments, e.id).None?
    ensures PaymentFor(Run(cfg, xs + [Webhook(e)]).payments, e.id).Some? <==> Fulfillable(cfg, Run(cfg, xs).users, e)
    ensures !Fulfillable(cfg, Run(cfg, xs).users, e) ==> Run(cfg, xs + [Webhook(e)]) == Run(cfg, xs)
  {
    assert (xs + [Webhook(e)])[..|xs|] == xs;
    RunKeepsInv(cfg, xs);
    FulfilsIff(cfg, Run(cfg, xs), e);
  }

  /** The event names an existing user and an active plan that comes with credits. */
  predicate Fulfillable(cfg: Config, users: set<UserId>, e: Event) {
    && e.user.Some? && e.user.value in users && e.plan.Some? && e.plan.value in cfg.catalog
    && var plan := cfg.catalog[e.plan.value];
       plan.active && 0 < if plan.kind.CreditPack? then plan.packCredits else plan.monthlyCredits
  }

  lemma FulfilsIff(cfg: Config, s: State, e: Event)
    requires Inv(cfg, s) && PaymentFor(s.payments, e.id).None?
    ensures var s' := Fulfil(cfg, s, e).state;
            if Fulfillable(cfg, s.users, e) then PaymentFor(s'.payments, e.id).Some? else s' == s
  {
    if e.user.Some? && e.plan.Some? && e.plan.value in cfg.catalog {
      var p := Payment(e.user.value, e.id, e.objectId, Purchase, PlanCredits(cfg.catalog[e.plan.value]), None);
      assert UserFits(s, p.user);
      GrantRow(cfg, s, p);
      RecordAppend(s.payments, p);
    }
  }

  predicate ReversalEvent(e: Event) { e.id != "" && (e.etype.ChargeRefunded? || e.etype.DisputeCreated?) }

  /** Nothing ties a reversal to what is left of its purchase: any two reversal events for one
      purchase, under two event ids, each take back the whole grant; two chargebacks even when
      refunds may not push the balance below zero. */
  lemma PurchaseReversedTwice(cfg: Config, xs: seq<Input>, e1: Event, e2: Event, i: nat)
    requires ReversalEvent(e1) && ReversalEvent(e2) && e1.id != e2.id
    requires cfg.allowNegative || (e1.etype.DisputeCreated? && e2.etype.DisputeCreated?)
    requires e1.originalRef.Some? && e2.originalRef == e1.originalRef
    requires var s := Run(cfg, xs);
             && PaymentFor(s.payments, e1.id).None? && PaymentFor(s.payments, e2.id).None?
             && Originals(s.payments, e1.originalRef.value) == [i] && i < |s.payments|
    ensures var s, s' := Run(cfg, xs), Run(cfg, xs + [Webhook(e1)] + [Webhook(e2)]);
            var u := s.payments[i].user;
            Sum(BookAt(s', u).ledger) == Sum(BookAt(s, u).ledger) - 2 * s.payments[i].creditsGranted
  {
    var s, s1 := Run(cfg, xs), Run(cfg, xs + [Webhook(e1)]);
    assert (xs + [Webhook(e1)])[..|xs|] == xs;
    assert (xs + [Webhook(e1)] + [Webhook(e2)])[..|xs| + 1] == xs + [Webhook(e1)];
    RunKeepsInv(cfg, xs);
    RunKeepsInv(cfg, xs + [Webhook(e1)]);
    ReversalTakesAll(cfg, s, e1, i);
    ReversalTakesAll(cfg, s1, e2, i);
  }

  /** One reversal of a found original: it takes the whole grant, and the original stays findable. */
  lemma ReversalTakesAll(cfg: Config, s: State, e: Event, i: nat)
    requires Inv(cfg, s) && e.id != "" && PaymentFor(s.payments, e.id).None?
    requires (cfg.allowNegative && e.etype.ChargeRefunded?) || e.etype.DisputeCreated?
    requires e.originalRef.Some? && Originals(s.payments, e.originalRef.value) == [i] && i < |s.payments|
    ensures var s', u := Handle(cfg, s, e).state, s.payments[i].user;
            && Sum(BookAt(s', u).ledger) == Sum(BookAt(s, u).ledger) - s.payments[i].creditsGranted
            && i < |s'.payments| && s'.payments[i] == s.payments[i]
            && Originals(s'.payments, e.originalRef.value) == [i]
            && (forall other :: other != e.id ==> PaymentFor(s'.payments, other) == PaymentFor(s.payments, other))
  {
    var kind := if e.etype.ChargeRefunded? then Refunding else Chargeback;
    OriginalsInRange(s.payments, e.originalRef.value);
    assert IsPurchaseIn(s.payments, e.originalRef.value, Originals(s.payments, e.originalRef.value)[0]);
    assert Matched(cfg, s, i);
    var p := Payment(s.payments[i].user, e.id, None, kind, -s.payments[i].creditsGranted, Some(i));
    assert Handle(cfg, s, e) == RecordReversal(s, p, true);
    UndoTakesAll(cfg, s, p, e.originalRef.value);
  }

  lemma UndoTakesAll(cfg: Config, s: State, p: Payment, session: string)
    requires Inv(cfg, s) && (cfg.allowNegative || p.kind.Chargeback?) && PaymentFor(s.payments, p.event).None?
    requires !p.kind.Purchase? && p.creditsGranted != 0
    ensures var s' := RecordReversal(s, p, true).state;
            && Sum(BookAt(s', p.user).ledger) == Sum(BookAt(s, p.user).ledger) + p.creditsGranted
            && s'.payments == s.payments + [p]
            && Originals(s'.payments, session) == Originals(s.payments, session)
            && (forall other :: other != p.event ==> PaymentFor(s'.payments, other) == PaymentFor(s.payments, other))
  {
    var b, op := BookAt(s, p.user), UndoOp(p, |s.payments|, true);
    assert UserFits(s, p.user);
    UndoRow(cfg, s, p, true);
    AppendFacts(b.ledger, Exec(b, op).outcome.txn);
    AppendReversal(s.payments, p, session);
  }

  lemma AppendReversal(ps: seq<Payment>, p: Payment, session: string)
    requires !p.kind.Purchase?
    ensures Originals(ps + [p], session) == Originals(ps, session)
    ensures forall other :: other != p.event ==> PaymentFor(ps + [p], other) == PaymentFor(ps, other)
  {
    assert (ps + [p])[..|ps|] == ps;
  }
}
