/**
 The fixed-window rate limiter over one Redis counter.

 A hit is two round trips: INCRBY with TTL (one atomic pipeline), and, for a fresh counter or one
 without a time to live, EXPIRE. Between them other hits can run, and the process can die. The bounds
 are proved for every sequence of these commands, in whatever way hits interleave or stop half-way.
 Time is in milliseconds; the window is in seconds.
 */
module RateLimit {
  import opened Wrappers

  type Pos = n: nat | 1 <= n witness 1

  datatype Counter = Absent | Counter(count: nat, expiry: Option<int>)

  /** The clock and the counter of one key. */
  datatype Store = Store(now: int, key: Counter)

  /** A key past its expiry is gone; at the very millisecond it is still there. */
  function Live(s: Store): Counter {
    if s.key.Counter? && s.key.expiry.Some? && s.key.expiry.value < s.now then Absent else s.key
  }

  function Wait(s: Store, wait: nat): Store { s.(now := s.now + wait) }

  function IncrBy(s: Store, amount: nat): Store {
    match Live(s)
    case Absent => s.(key := Counter(amount, None))
    case Counter(c, x) => s.(key := Counter(c + amount, x))
  }

  function Expire(s: Store, window: nat): Store {
    match Live(s)
    case Absent => s.(key := Absent)
    case Counter(c, _) => s.(key := Counter(c, Some(s.now + 1000 * window)))
  }

  /** -2 for no key, -1 for no expiry, else whole seconds, rounded. */
  function Ttl(s: Store): int {
    match Live(s)
    case Absent => -2
    case Counter(_, None) => -1
    case Counter(_, Some(x)) => (x - s.now + 500) / 1000
  }

  // ---------------------------------------------------------------------------------------------
  // The limiter
  // ---------------------------------------------------------------------------------------------

  datatype Answer = Died | Answer(allowed: bool, retryAfter: int)

  /** A counter just born, or one that lost its expiry: the hit that finds it so sends EXPIRE. */
  predicate Bare(s: Store, amount: nat) {
    s.key.Counter? && (s.key.count == amount || Ttl(s) < 0)
  }

  /** The store after a hit of `amount` that starts `wait1` after the previous command; the EXPIRE, when
      one is sent, takes effect `wait2` later, unless the process dies before sending it. */
  function AfterHit(s: Store, window: Pos, amount: Pos, wait1: nat, wait2: nat, dies: bool): Store {
    var s1 := IncrBy(Wait(s, wait1), amount);
    if Bare(s1, amount) && !dies then Expire(Wait(s1, wait2), window) else s1
  }

  function AnswerTo(s: Store, limit: nat, window: Pos, amount: Pos, wait1: nat, dies: bool): Answer {
    var s1 := IncrBy(Wait(s, wait1), amount);
    if Bare(s1, amount) && dies then Died
    else if s1.key.count <= limit then Answer(true, 0)
    else Answer(false, Max(if Bare(s1, amount) then window else Ttl(s1), 1))
  }

  /** The counter is there when the hit reaches it. */
  predicate Counting(s: Store, at: int) { s.key.Counter? && (s.key.expiry.Some? ==> at <= s.key.expiry.value) }

  /** One hit in terms of the counter that it found. It adds its amount, to nothing if the counter was gone,
      and is admitted if the limit covers the sum. A counter that was gone, or had no expiry, gets one
      window from the EXPIRE on; else its expiry stays, and a denied caller is told what is left of it. */
  predicate HitFits(was: Store, limit: nat, window: Pos, amount: Pos, wait1: nat, wait2: nat, dies: bool,
                     s: Store, a: Answer)
  {
    var at := was.now + wait1;
    var units := amount + if Counting(was, at) then was.key.count else 0;
    && (a.Answer? ==> (a.allowed <==> units <= limit) && (a.allowed ==> a.retryAfter == 0))
    && (Counting(was, at) && was.key.expiry.Some? && was.key.count > 0 ==>
          && s == Store(at, Counter(units, was.key.expiry)) && a.Answer?
          && (!a.allowed ==>
                a.retryAfter >= 1 && -500 <= 1000 * a.retryAfter - (was.key.expiry.value - at) <= 1000))
    && (!Counting(was, at) || was.key.expiry.None? ==>
          && (a.Died? <==> dies)
          && (a.Died? ==> s == Store(at, Counter(units, None)))
          && (a.Answer? ==> s == Store(at + wait2, Counter(units, Some(at + wait2 + 1000 * window))))
          && (a.Answer? && !a.allowed ==> a.retryAfter == window))
  }

  class RateKey {
    var store: Store

    constructor (now: int)
      ensures store == Store(now, Absent)
    {
      store := Store(now, Absent);
    }

    /** One hit. Whenever it finishes, the counter has an expiry, so no caller is locked out for longer
        than its window. */
    method Hit(limit: nat, window: Pos, amount: Pos, wait1: nat, wait2: nat, dies: bool) returns (a: Answer)
      modifies this
      ensures store == AfterHit(old(store), window, amount, wait1, wait2, dies)
      ensures a == AnswerTo(old(store), limit, window, amount, wait1, dies)
      ensures a.Answer? && store.key.Counter? ==> store.key.expiry.Some?
      ensures HitFits(old(store), limit, window, amount, wait1, wait2, dies, store, a)
    {
      store := IncrBy(Wait(store, wait1), amount);
      var count, ttl := store.key.count, Ttl(store);
      if count == amount || ttl < 0 {
        if dies { return Died; }
        store := Expire(Wait(store, wait2), window);
        ttl := window;
      }
      a := if count > limit then Answer(false, Max(ttl, 1)) else Answer(true, 0);
    }
  }

  /** The time left is announced in whole seconds: the announced time alone falls short when at least a
      second is left and less than half a second beyond whole ones. */
  predicate Short(left: int) { left >= 1000 && left % 1000 < 500 }

  /** Half a second more than the announced wait is always enough for the counter to be gone; the
      announced time alone is enough exactly when it does not fall short. */
  lemma AnnouncedWait(s: Store)
    requires Live(s).Counter? && Live(s).expiry.Some?
    ensures var wait, left := 1000 * Max(Ttl(s), 1), Live(s).expiry.value - s.now;
            && Live(Wait(s, wait + 500)).Absent?
            && (Live(Wait(s, wait)).Absent? <==> !Short(left))
  {
    var left := Live(s).expiry.value - s.now;
    assert left == 1000 * (left / 1000) + left % 1000;
    assert left + 500 == 1000 * Ttl(s) + (left + 500) % 1000;
  }

  /** A window starts with a hit of `a` units, a hit of `b` more comes `d` later and is denied: a retry
      after exactly the announced wait, for an amount that a fresh window admits, is denied once more
      exactly when the announced time falls short of what is left. */
  lemma RetryDeniedIff(s: Store, limit: nat, window: Pos, a: Pos, b: Pos, c: Pos, delay: nat, d: nat)
    requires Live(s).Absent? && c <= limit < a + b && d <= 1000 * window
    ensures var s1 := AfterHit(s, window, a, 0, delay, false);
            var s2 := AfterHit(s1, window, b, d, 0, false);
            var denied := AnswerTo(s1, limit, window, b, d, false);
            && denied.Answer? && !denied.allowed && denied.retryAfter > 0
            && (AnswerTo(s2, limit, window, c, 1000 * denied.retryAfter, false).allowed <==> !Short(1000 * window - d))
  {
    var s1 := AfterHit(s, window, a, 0, delay, false);
    var s2 := AfterHit(s1, window, b, d, 0, false);
    assert s1 == Store(s.now + delay, Counter(a, Some(s.now + delay + 1000 * window)));
    assert s2 == Store(s1.now + d, Counter(a + b, s1.key.expiry));
    AnnouncedWait(s2);
  }

  /** So a caller denied in the instant the window starts, who waits the whole window it is told to, is
      denied again, whatever the limit and the window. */
  lemma WholeWindowTooShort(s: Store, limit: Pos, window: Pos, b: Pos, c: Pos)
    requires Live(s).Absent? && c <= limit
    ensures var s1 := AfterHit(s, window, limit, 0, 0, false);
            && AnswerTo(s1, limit, window, b, 0, false) == Answer(false, window)
            && !AnswerTo(AfterHit(s1, window, b, 0, 0, false), limit, window, c, 1000 * window, false).allowed
  {
    RetryDeniedIff(s, limit, window, limit, b, c, 0, 0);
    assert (1000 * window + 500) / 1000 == window;
  }

  // ---------------------------------------------------------------------------------------------
  // Every sequence of commands
  // ---------------------------------------------------------------------------------------------

  datatype Command = Incr(wait: nat, amount: Pos) | SetExpiry(wait: nat)

  /** An INCRBY that happened; `life` numbers the counter's lives from birth to expiry. */
  datatype Hit = Hit(at: int, amount: nat, admitted: bool, life: nat)

  datatype Trace = Trace(store: Store, births: seq<int>, hits: seq<Hit>)

  datatype Config = Config(limit: nat, window: Pos)

  const START := Trace(Store(0, Absent), [], [])

  function Next(cfg: Config, t: Trace, c: Command): Trace {
    match c
    case Incr(wait, amount) =>
      var s := Wait(t.store, wait);
      var s' := IncrBy(s, amount);
      var births := if Live(s).Absent? then t.births + [s.now] else t.births;
      var life: nat := if births == [] then 0 else |births| - 1;
      Trace(s', births, t.hits + [Hit(s.now, amount, s'.key.count <= cfg.limit, life)])
    case SetExpiry(wait) => t.(store := Expire(Wait(t.store, wait), cfg.window))
  }

  /** A hit is its commands, and what it answers is what the trace records. */
  lemma HitIsCommands(cfg: Config, t: Trace, amount: Pos, wait1: nat, wait2: nat, dies: bool)
    ensures var t1 := Next(cfg, t, Incr(wait1, amount));
            var t2 := if Bare(t1.store, amount) && !dies then Next(cfg, t1, SetExpiry(wait2)) else t1;
            var a := AnswerTo(t.store, cfg.limit, cfg.window, amount, wait1, dies);
            && t2.store == AfterHit(t.store, cfg.window, amount, wait1, wait2, dies)
            && |t2.hits| == |t.hits| + 1
            && (a.Answer? ==> a.allowed == t2.hits[|t.hits|].admitted)
  {}

  function Run(cfg: Config, cs: seq<Command>): Trace {
    if cs == [] then START else Next(cfg, Run(cfg, cs[..|cs| - 1]), cs[|cs| - 1])
  }

  /** Units of one life, admitted or not. */
  function UnitsIn(hits: seq<Hit>, life: nat): nat {
    if hits == [] then 0
    else
      var h := hits[|hits| - 1];
      UnitsIn(hits[..|hits| - 1], life) + if h.life == life then h.amount else 0
  }

  function AdmittedIn(hits: seq<Hit>, life: nat): nat {
    if hits == [] then 0
    else
      var h := hits[|hits| - 1];
      AdmittedIn(hits[..|hits| - 1], life) + if h.life == life && h.admitted then h.amount else 0
  }

  /** The same, counting only hits after time `a`. */
  function UnitsAfter(hits: seq<Hit>, life: nat, a: int): nat {
    if hits == [] then 0
    else
      var h := hits[|hits| - 1];
      UnitsAfter(hits[..|hits| - 1], life, a) + if h.life == life && a < h.at then h.amount else 0
  }

  function AdmittedAfter(hits: seq<Hit>, life: nat, a: int): nat {
    if hits == [] then 0
    else
      var h := hits[|hits| - 1];
      AdmittedAfter(hits[..|hits| - 1], life, a) + if h.life == life && h.admitted && a < h.at then h.amount else 0
  }

  /** Units admitted at times from `a` to `b`, both included. */
  function AdmittedBetween(hits: seq<Hit>, a: int, b: int): nat {
    if hits == [] then 0
    else
      var h := hits[|hits| - 1];
      AdmittedBetween(hits[..|hits| - 1], a, b) + if a <= h.at <= b && h.admitted then h.amount else 0
  }

  /** A hit against the lives: it is within its own. */
  ghost predicate HitOk(t: Trace, i: nat)
    requires i < |t.hits|
  {
    var h := t.hits[i];
    && h.life < |t.births|
    && t.births[h.life] <= h.at <= t.store.now
    && (h.life + 1 < |t.births| ==> h.at < t.births[h.life + 1])
    && (h.life + 1 == |t.births| && t.store.key.Counter? && t.store.key.expiry.Some? ==>
          h.at <= t.store.key.expiry.value)
  }

  /** A life lasts longer than a window. */
  ghost predicate BirthsOk(cfg: Config, t: Trace) {
    && (forall i :: 0 <= i < |t.births| - 1 ==> t.births[i] + 1000 * cfg.window < t.births[i + 1])
    && (forall i :: 0 <= i < |t.births| ==> t.births[i] <= t.store.now)
    && (t.births == [] ==> t.store.key.Absent?)
    && (t.store.key.Counter? && t.store.key.expiry.Some? ==>
          t.births[|t.births| - 1] + 1000 * cfg.window <= t.store.key.expiry.value)
    && (t.store.key.Absent? && t.births != [] ==> t.births[|t.births| - 1] + 1000 * cfg.window < t.store.now)
    && (t.store.key.Absent? ==> forall i :: 0 <= i < |t.hits| ==> t.hits[i].at < t.store.now)
  }

  /** The units of one life: at most `limit` admitted, and one fewer after its birth. */
  ghost predicate LifeOk(cfg: Config, t: Trace, life: nat) {
    && AdmittedIn(t.hits, life) <= cfg.limit
    && (life < |t.births| ==>
          && UnitsAfter(t.hits, life, t.births[life]) < UnitsIn(t.hits, life)
          && AdmittedAfter(t.hits, life, t.births[life]) <= Max(0, cfg.limit - 1))
  }

  ghost predicate Inv(cfg: Config, t: Trace) {
    && (forall i :: 0 <= i < |t.hits| ==> HitOk(t, i))
    && BirthsOk(cfg, t)
    && (forall life :: LifeOk(cfg, t, life))
    && (t.store.key.Counter? ==> t.store.key.count == UnitsIn(t.hits, |t.births| - 1))
  }

  lemma {:induction false} NoLifeNoUnits(hits: seq<Hit>, life: nat)
    requires forall i :: 0 <= i < |hits| ==> hits[i].life < life
    ensures UnitsIn(hits, life) == 0
  {
    if hits != [] { NoLifeNoUnits(hits[..|hits| - 1], life); }
  }

  lemma {:induction false} PartOfUnits(hits: seq<Hit>, life: nat, a: int)
    ensures AdmittedIn(hits, life) <= UnitsIn(hits, life)
    ensures AdmittedAfter(hits, life, a) <= UnitsAfter(hits, life, a) <= UnitsIn(hits, life)
  {
    if hits != [] { PartOfUnits(hits[..|hits| - 1], life, a); }
  }

  lemma AppendHit(hits: seq<Hit>, h: Hit, l: nat, a: int)
    ensures UnitsIn(hits + [h], l) == UnitsIn(hits, l) + if h.life == l then h.amount else 0
    ensures AdmittedIn(hits + [h], l) == AdmittedIn(hits, l) + if h.life == l && h.admitted then h.amount else 0
    ensures UnitsAfter(hits + [h], l, a) == UnitsAfter(hits, l, a) + if h.life == l && a < h.at then h.amount else 0
    ensures AdmittedAfter(hits + [h], l, a)
         == AdmittedAfter(hits, l, a) + if h.life == l && h.admitted && a < h.at then h.amount else 0
  {
    assert (hits + [h])[..|hits|] == hits;
  }

  lemma IncrKeepsInv(cfg: Config, t: Trace, wait: nat, amount: Pos)
    requires Inv(cfg, t)
    ensures Inv(cfg, Next(cfg, t, Incr(wait, amount)))
  {
    IncrKeepsBirths(cfg, t, wait, amount);
    forall i | 0 <= i < |Next(cfg, t, Incr(wait, amount)).hits| ensures HitOk(Next(cfg, t, Incr(wait, amount)), i) {
      IncrKeepsHit(cfg, t, wait, amount, i);
    }
    IncrCounts(cfg, t, wait, amount);
    forall life ensures LifeOk(cfg, Next(cfg, t, Incr(wait, amount)), life) {
      IncrKeepsLife(cfg, t, wait, amount, life);
    }
  }

  lemma IncrKeepsBirths(cfg: Config, t: Trace, wait: nat, amount: Pos)
    requires BirthsOk(cfg, t)
    ensures BirthsOk(cfg, Next(cfg, t, Incr(wait, amount)))
  {}

  lemma IncrKeepsHit(cfg: Config, t: Trace, wait: nat, amount: Pos, i: nat)
    requires BirthsOk(cfg, t) && i <= |t.hits| && (i < |t.hits| ==> HitOk(t, i))
    ensures HitOk(Next(cfg, t, Incr(wait, amount)), i)
  {}

  /** After an INCRBY the counter is the number of units of its current life. */
  lemma IncrCounts(cfg: Config, t: Trace, wait: nat, amount: Pos)
    requires Inv(cfg, t)
    ensures var t' := Next(cfg, t, Incr(wait, amount));
            && t'.hits[|t.hits|].life == |t'.births| - 1
            && t'.store.key.Counter? && t'.store.key.count == UnitsIn(t'.hits, |t'.births| - 1)
            && (|t'.births| > |t.births| ==> UnitsIn(t.hits, |t.births|) == 0)
  {
    var t' := Next(cfg, t, Incr(wait, amount));
    AppendHit(t.hits, t'.hits[|t.hits|], |t'.births| - 1, 0);
    if |t'.births| > |t.births| {
      forall i | 0 <= i < |t.hits| ensures t.hits[i].life < |t.births| { assert HitOk(t, i); }
      NoLifeNoUnits(t.hits, |t.births|);
    }
  }

  lemma IncrKeepsLife(cfg: Config, t: Trace, wait: nat, amount: Pos, life: nat)
    requires Inv(cfg, t)
    ensures LifeOk(cfg, Next(cfg, t, Incr(wait, amount)), life)
  {
    var t' := Next(cfg, t, Incr(wait, amount));
    var h := t'.hits[|t.hits|];
    assert LifeOk(cfg, t, life);
    IncrCounts(cfg, t, wait, amount);
    var birth := if life < |t'.births| then t'.births[life] else 0;
    AppendHit(t.hits, h, life, birth);
    PartOfUnits(t.hits, life, birth);
    PartOfUnits(t'.hits, life, birth);
  }

  lemma ExpireKeepsInv(cfg: Config, t: Trace, wait: nat)
    requires Inv(cfg, t)
    ensures Inv(cfg, Next(cfg, t, SetExpiry(wait)))
  {
    var t' := Next(cfg, t, SetExpiry(wait));
    forall i | 0 <= i < |t.hits| ensures HitOk(t', i) { assert HitOk(t, i); }
    if t'.store.key.Absent? && t.store.key.Counter? {
      forall i | 0 <= i < |t.hits| ensures t.hits[i].at < t'.store.now { assert HitOk(t, i); }
    }
    forall life ensures LifeOk(cfg, t', life) { assert LifeOk(cfg, t, life); }
  }

  lemma {:induction false} RunKeepsInv(cfg: Config, cs: seq<Command>)
    ensures Inv(cfg, Run(cfg, cs))
  {
    if cs != [] {
      RunKeepsInv(cfg, cs[..|cs| - 1]);
      match cs[|cs| - 1]
      case Incr(wait, amount) => IncrKeepsInv(cfg, Run(cfg, cs[..|cs| - 1]), wait, amount);
      case SetExpiry(wait) => ExpireKeepsInv(cfg, Run(cfg, cs[..|cs| - 1]), wait);
    }
  }

  /** Two hits within one window's length are in the same life or in neighbouring ones; in
      neighbouring ones, the earlier hit is not its life's first. */
  lemma NeighbouringLives(cfg: Config, t: Trace, i: nat, j: nat)
    requires Inv(cfg, t) && i < |t.hits| && j < |t.hits|
    requires t.hits[j].at - t.hits[i].at <= 1000 * cfg.window
    ensures t.hits[i].life < |t.births| && t.hits[j].life <= t.hits[i].life + 1
    ensures t.hits[j].life == t.hits[i].life + 1 ==> t.births[t.hits[i].life] < t.hits[i].at
  {
    assert HitOk(t, i) && HitOk(t, j);
    if t.hits[j].life > t.hits[i].life + 1 {
      BirthsSpread(cfg, t, t.hits[i].life + 2, t.hits[j].life);
    }
  }

  lemma {:induction false} BirthsSpread(cfg: Config, t: Trace, a: nat, b: nat)
    requires BirthsOk(cfg, t) && a <= b < |t.births|
    ensures t.births[a] <= t.births[b]
  {
    if a < b {
      BirthsSpread(cfg, t, a, b - 1);
      assert t.births[b - 1] + 1000 * cfg.window < t.births[b - 1 + 1];
    }
  }

  lemma {:induction false} BetweenIsInLife(hits: seq<Hit>, a: int, b: int, life: nat)
    requires forall i :: 0 <= i < |hits| && a <= hits[i].at <= b ==> hits[i].life == life
    ensures AdmittedBetween(hits, a, b) <= AdmittedIn(hits, life)
  {
    if hits != [] { BetweenIsInLife(hits[..|hits| - 1], a, b, life); }
  }

  lemma {:induction false} BetweenIsInTwoLives(hits: seq<Hit>, a: int, b: int, life: nat, birth: int)
    requires forall i :: 0 <= i < |hits| && a <= hits[i].at <= b ==>
               (hits[i].life == life && birth < hits[i].at) || hits[i].life == life + 1
    ensures AdmittedBetween(hits, a, b) <= AdmittedAfter(hits, life, birth) + AdmittedIn(hits, life + 1)
  {
    if hits != [] { BetweenIsInTwoLives(hits[..|hits| - 1], a, b, life, birth); }
  }

  lemma {:induction false} NothingBetween(hits: seq<Hit>, a: int, b: int)
    requires forall i :: 0 <= i < |hits| ==> !(a <= hits[i].at <= b)
    ensures AdmittedBetween(hits, a, b) == 0
  {
    if hits != [] { NothingBetween(hits[..|hits| - 1], a, b); }
  }

  /** One unit less than twice the limit: the unit that opens a life is never within a window's length
      of the next life. */
  function MostInAWindow(limit: nat): nat { if limit == 0 then 0 else 2 * limit - 1 }

  /** The bounds. In one life of the counter at most `limit` units are admitted; a life lasts longer
      than a window; and any stretch of time as long as a window, ends included, admits fewer than
      twice the limit. */
  lemma AdmissionBounds(cfg: Config, cs: seq<Command>, a: int, life: nat)
    ensures var t := Run(cfg, cs);
            && AdmittedIn(t.hits, life) <= cfg.limit
            && (life + 1 < |t.births| ==> t.births[life] + 1000 * cfg.window < t.births[life + 1])
            && AdmittedBetween(t.hits, a, a + 1000 * cfg.window) <= MostInAWindow(cfg.limit)
  {
    RunKeepsInv(cfg, cs);
    assert LifeOk(cfg, Run(cfg, cs), life);
    WindowBound(cfg, Run(cfg, cs), a, a + 1000 * cfg.window);
  }

  lemma WindowBound(cfg: Config, t: Trace, a: int, b: int)
    requires Inv(cfg, t) && b == a + 1000 * cfg.window
    ensures AdmittedBetween(t.hits, a, b) <= MostInAWindow(cfg.limit)
  {
    if i :| 0 <= i < |t.hits| && a <= t.hits[i].at <= b {
      var m := EarliestLife(t, a, b, i);
      var life := t.hits[m].life;
      assert HitOk(t, m);
      if j :| 0 <= j < |t.hits| && a <= t.hits[j].at <= b && t.hits[j].life != life {
        forall k | 0 <= k < |t.hits| && a <= t.hits[k].at <= b
          ensures (t.hits[k].life == life && t.births[life] < t.hits[k].at) || t.hits[k].life == life + 1
        {
          NeighbouringLives(cfg, t, m, j);
          NeighbouringLives(cfg, t, m, k);
          NeighbouringLives(cfg, t, k, j);
        }
        BetweenIsInTwoLives(t.hits, a, b, life, t.births[life]);
        assert LifeOk(cfg, t, life) && LifeOk(cfg, t, life + 1);
      } else {
        BetweenIsInLife(t.hits, a, b, life);
        assert LifeOk(cfg, t, life);
      }
    } else {
      NothingBetween(t.hits, a, b);
    }
  }

  /** Of the hits in the stretch, one of the earliest life. */
  lemma EarliestLife(t: Trace, a: int, b: int, i: nat) returns (m: nat)
    requires i < |t.hits| && a <= t.hits[i].at <= b
    ensures m < |t.hits| && a <= t.hits[m].at <= b
    ensures forall k :: 0 <= k < |t.hits| && a <= t.hits[k].at <= b ==> t.hits[m].life <= t.hits[k].life
    decreases t.hits[i].life
  {
    if k :| 0 <= k < |t.hits| && a <= t.hits[k].at <= b && t.hits[k].life < t.hits[i].life {
      m := EarliestLife(t, a, b, k);
    } else {
      m := i;
    }
  }

  /** The bound is reached: one unit as the counter is born, the rest of the limit as it expires, and
      a full burst a millisecond later. */
  lemma BoundIsReached(cfg: Config)
    requires 2 <= cfg.limit
    ensures var w := 1000 * cfg.window;
            var t := Run(cfg, [Incr(0, 1), SetExpiry(0), Incr(w, cfg.limit - 1), Incr(1, cfg.limit)]);
            AdmittedBetween(t.hits, 1, 1 + w) == MostInAWindow(cfg.limit)
  {
    ReachingRun(cfg, 1000 * cfg.window);
    ThreeBursts(1000 * cfg.window, cfg.limit);
  }

  lemma ThreeBursts(w: nat, limit: nat)
    requires 2 <= limit && 1 <= w
    ensures AdmittedBetween([Hit(0, 1, true, 0), Hit(w, limit - 1, true, 0), Hit(w + 1, limit, true, 1)], 1, 1 + w)
            == 2 * limit - 1
  {
    var h1, h2, h3 := Hit(0, 1, true, 0), Hit(w, limit - 1, true, 0), Hit(w + 1, limit, true, 1);
    BetweenAppend([], h1, 1, 1 + w);
    BetweenAppend([h1], h2, 1, 1 + w);
    BetweenAppend([h1, h2], h3, 1, 1 + w);
    assert [] + [h1] == [h1] && [h1] + [h2] == [h1, h2] && [h1, h2] + [h3] == [h1, h2, h3];
  }

  lemma ReachingRun(cfg: Config, w: int)
    requires 2 <= cfg.limit && w == 1000 * cfg.window
    ensures Run(cfg, [Incr(0, 1), SetExpiry(0), Incr(w, cfg.limit - 1), Incr(1, cfg.limit)]).hits
         == [Hit(0, 1, true, 0), Hit(w, cfg.limit - 1, true, 0), Hit(w + 1, cfg.limit, true, 1)]
  {
    var c1, c2, c3, c4 := Incr(0, 1), SetExpiry(0), Incr(w, cfg.limit - 1), Incr(1, cfg.limit);
    var h1, h2, h3 := Hit(0, 1, true, 0), Hit(w, cfg.limit - 1, true, 0), Hit(w + 1, cfg.limit, true, 1);
    RunStep(cfg, [], c1);
    assert [] + [c1] == [c1];
    assert Run(cfg, [c1]) == Trace(Store(0, Counter(1, None)), [0], [h1]);
    RunStep(cfg, [c1], c2);
    assert [c1] + [c2] == [c1, c2];
    assert Run(cfg, [c1, c2]) == Trace(Store(0, Counter(1, Some(w))), [0], [h1]);
    RunStep(cfg, [c1, c2], c3);
    assert [c1, c2] + [c3] == [c1, c2, c3] && [h1] + [h2] == [h1, h2];
    assert Run(cfg, [c1, c2, c3]) == Trace(Store(w, Counter(cfg.limit, Some(w))), [0], [h1, h2]);
    RunStep(cfg, [c1, c2, c3], c4);
    assert [c1, c2, c3] + [c4] == [c1, c2, c3, c4] && [h1, h2] + [h3] == [h1, h2, h3];
  }

  lemma RunStep(cfg: Config, cs: seq<Command>, c: Command)
    ensures Run(cfg, cs + [c]) == Next(cfg, Run(cfg, cs), c)
  {
    assert (cs + [c])[..|cs|] == cs;
  }

  lemma BetweenAppend(hits: seq<Hit>, h: Hit, a: int, b: int)
    ensures AdmittedBetween(hits + [h], a, b)
            == AdmittedBetween(hits, a, b) + if a <= h.at <= b && h.admitted then h.amount else 0
  {
    assert (hits + [h])[..|hits|] == hits;
  }
}
