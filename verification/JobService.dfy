/**
 Submitting, packing, cancelling and requeueing jobs: the API side of the settlement protocol, with
 the jobs table and the users' books as mutable state and the request's rollback.
 */
module JobService {
  import opened Wrappers
  import opened Keys
  import opened Ledger
  import opened Protocol
  import opened ProtocolInvariant

  // ---------------------------------------------------------------------------------------------
  // Packs as a sequence of submissions
  // ---------------------------------------------------------------------------------------------

  datatype Item = Item(slug: string, variant: nat)

  /** A pack request: which user, under which pack id, at which price per style. */
  datatype Pack = Pack(user: UserId, id: string, stages: Pos, price: string -> Pos)

  function ItemKey(p: Pack, it: Item): string { PackItemKey(p.id, it.slug, it.variant) }

  predicate HoldRefused(w: World, u: UserId, key: string, cost: Pos) {
    !KeyTaken(w.jobs, key) && Exec(BookAt(w, u), OpHold(cost, Some(HoldKey(key)))).outcome.Rejected?
  }

  /** Submit the items in order; a refused hold refuses the whole request. */
  function SubmitItems(w: World, p: Pack, items: seq<Item>): Option<World> {
    if items == [] then Some(w)
    else
      var it := items[|items| - 1];
      match SubmitItems(w, p, items[..|items| - 1])
      case None => None
      case Some(w1) =>
        if HoldRefused(w1, p.user, ItemKey(p, it), p.price(it.slug)) then None
        else Some(DoSubmit(w1, p.user, ItemKey(p, it), p.price(it.slug), p.stages))
  }

  /** The last item is new: neither submitted before the request nor earlier in it. */
  predicate LastIsNew(w: World, p: Pack, items: seq<Item>)
    requires items != []
  {
    var it := items[|items| - 1];
    !KeyTaken(w.jobs, ItemKey(p, it)) && it !in items[..|items| - 1]
  }

  /** Summed price of the distinct items that were not submitted before. */
  function NewCost(w: World, p: Pack, items: seq<Item>): nat {
    if items == [] then 0
    else NewCost(w, p, items[..|items| - 1]) + if LastIsNew(w, p, items) then p.price(items[|items| - 1].slug) else 0
  }

  /** The jobs that exist after the items were submitted. */
  ghost predicate Submitted(w: World, w': World, p: Pack, items: seq<Item>) {
    && Inv(w')
    && (forall k :: KeyTaken(w'.jobs, k) <==> KeyTaken(w.jobs, k) || exists it :: it in items && ItemKey(p, it) == k)
    && BookAt(w', p.user).acct.held == BookAt(w, p.user).acct.held + NewCost(w, p, items)
    && BookAt(w', p.user).acct.balance == BookAt(w, p.user).acct.balance
    && (forall u :: u != p.user ==> BookAt(w', u) == BookAt(w, u))
  }

  /** The accounting of packs. The request is accepted exactly when it has no new items or the user
      can afford all of them together; then `held` has grown by exactly their summed price, and
      otherwise nothing is kept. */
  lemma {:induction false} PackAccounting(w: World, p: Pack, items: seq<Item>)
    requires Inv(w)
    ensures SubmitItems(w, p, items).Some?
       <==> (NewCost(w, p, items) == 0 || NewCost(w, p, items) <= Available(w, p.user))
    ensures SubmitItems(w, p, items).Some? ==> Submitted(w, SubmitItems(w, p, items).value, p, items)
  {
    if items != [] {
      var front, it := items[..|items| - 1], items[|items| - 1];
      PackAccounting(w, p, front);
      if SubmitItems(w, p, front).Some? {
        assert items == front + [it];
        ItemStep(w, SubmitItems(w, p, front).value, p, front, it);
      }
    }
  }

  function Available(w: World, u: UserId): int { BookAt(w, u).acct.balance - BookAt(w, u).acct.held }

  lemma ItemStep(w: World, w1: World, p: Pack, front: seq<Item>, it: Item)
    requires Submitted(w, w1, p, front)
    ensures var key, cost := ItemKey(p, it), p.price(it.slug);
            var items := front + [it];
            && (HoldRefused(w1, p.user, key, cost) <==>
                  LastIsNew(w, p, items) && Available(w1, p.user) < cost)
            && (!HoldRefused(w1, p.user, key, cost) ==>
                  Submitted(w, DoSubmit(w1, p.user, key, cost, p.stages), p, items))
  {
    var key, cost := ItemKey(p, it), p.price(it.slug);
    var items := front + [it];
    assert items[..|front|] == front && items[|front|] == it;
    NewIffNotTaken(w, w1, p, front, it);
    assert UserOk(w1, p.user);
    var b, op := BookAt(w1, p.user), OpHold(cost, Some(HoldKey(key)));
    if !KeyTaken(w1.jobs, key) { assert !HasKey(b.ledger, HoldKey(key)); }
    if !HoldRefused(w1, p.user, key, cost) {
      SubmitStep(w1, p.user, key, cost, p.stages);
      KeysAfterItem(w, w1, p, front, it);
    }
  }

  lemma KeysAfterItem(w: World, w1: World, p: Pack, front: seq<Item>, it: Item)
    requires Submitted(w, w1, p, front) && !HoldRefused(w1, p.user, ItemKey(p, it), p.price(it.slug))
    ensures var w2 := DoSubmit(w1, p.user, ItemKey(p, it), p.price(it.slug), p.stages);
            forall k :: KeyTaken(w2.jobs, k) <==>
              KeyTaken(w.jobs, k) || exists x :: x in front + [it] && ItemKey(p, x) == k
  {
    TakenAfter(w1, p.user, ItemKey(p, it), p.price(it.slug), p.stages);
    assert forall x :: x in front + [it] <==> x in front || x == it;
  }

  lemma NewIffNotTaken(w: World, w1: World, p: Pack, front: seq<Item>, it: Item)
    requires Submitted(w, w1, p, front)
    ensures KeyTaken(w1.jobs, ItemKey(p, it)) <==> KeyTaken(w.jobs, ItemKey(p, it)) || it in front
  {
    if KeyTaken(w1.jobs, ItemKey(p, it)) && !KeyTaken(w.jobs, ItemKey(p, it)) {
      var other :| other in front && ItemKey(p, other) == ItemKey(p, it);
      PackItemKeyInjective(p.id, other.slug, other.variant, it.slug, it.variant);
    }
  }

  lemma TakenAfter(w: World, u: UserId, key: string, cost: Pos, stages: Pos)
    requires !HoldRefused(w, u, key, cost)
    ensures forall k :: KeyTaken(DoSubmit(w, u, key, cost, stages).jobs, k) <==> KeyTaken(w.jobs, k) || k == key
  {
    var w' := DoSubmit(w, u, key, cost, stages);
    if !KeyTaken(w.jobs, key) {
      assert w'.jobs[|w.jobs|].key == key;
      forall k | KeyTaken(w.jobs, k) ensures KeyTaken(w'.jobs, k) {
        var i :| 0 <= i < |w.jobs| && w.jobs[i].key == k;
        assert w'.jobs[i].key == k;
      }
    }
  }

  /** Items that are all submitted already are accepted and change nothing. */
  lemma {:induction false} TakenItemsReplay(w: World, p: Pack, items: seq<Item>)
    requires forall it :: it in items ==> KeyTaken(w.jobs, ItemKey(p, it))
    ensures SubmitItems(w, p, items) == Some(w)
  {
    if items != [] {
      TakenItemsReplay(w, p, items[..|items| - 1]);
      assert KeyTaken(w.jobs, ItemKey(p, items[|items| - 1]));
    }
  }

  /** Repeating an accepted pack, or any part of it, under the same id changes nothing, however much
      later it comes and whatever happened in between. */
  lemma PackReplay(w: World, p: Pack, all: seq<Item>, more: seq<Step>, items: seq<Item>)
    requires Inv(w) && SubmitItems(w, p, all).Some?
    requires forall it :: it in items ==> it in all
    ensures var w' := RunFrom(SubmitItems(w, p, all).value, more); SubmitItems(w', p, items) == Some(w')
  {
    var after := SubmitItems(w, p, all).value;
    var w' := RunFrom(after, more);
    PackAccounting(w, p, all);
    JobsStayOverRuns(after, more);
    KeysStayTaken(after.jobs, w'.jobs);
    forall it | it in items ensures KeyTaken(w'.jobs, ItemKey(p, it)) {
      assert it in all && KeyTaken(after.jobs, ItemKey(p, it));
    }
    TakenItemsReplay(w', p, items);
  }

  // ---------------------------------------------------------------------------------------------
  // The service
  // ---------------------------------------------------------------------------------------------

  /** The items of a pack in the order of the nested loop. */
  function Variants(slug: string, n: nat): seq<Item> {
    if n == 0 then [] else Variants(slug, n - 1) + [Item(slug, n - 1)]
  }

  function PackItems(slugs: seq<string>, variants: nat): seq<Item> {
    if slugs == [] then [] else PackItems(slugs[..|slugs| - 1], variants) + Variants(slugs[|slugs| - 1], variants)
  }

  lemma {:induction false} VariantsAt(slug: string, n: nat)
    ensures |Variants(slug, n)| == n && forall v :: 0 <= v < n ==> Variants(slug, n)[v] == Item(slug, v)
  {
    if n > 0 { VariantsAt(slug, n - 1); }
  }

  /** Where the nested loop comes to variant `v` of style number `i`. */
  function Turn(i: nat, v: nat, variants: nat): nat { i * variants + v }

  lemma {:induction false} PackItemsCount(slugs: seq<string>, n: nat)
    ensures |PackItems(slugs, n)| == |slugs| * n
  {
    if slugs != [] {
      PackItemsCount(slugs[..|slugs| - 1], n);
      VariantsAt(slugs[|slugs| - 1], n);
      assert |slugs| * n == (|slugs| - 1) * n + n;
    }
  }

  lemma {:induction false} PackItemAt(slugs: seq<string>, n: nat, i: nat, v: nat)
    requires i < |slugs| && v < n
    ensures Turn(i, v, n) < |PackItems(slugs, n)| && PackItems(slugs, n)[Turn(i, v, n)] == Item(slugs[i], v)
  {
    var last := |slugs| - 1;
    if i < last {
      PackItemAt(slugs[..last], n, i, v);
    } else {
      PackItemsCount(slugs[..last], n);
      VariantsAt(slugs[last], n);
    }
  }

  /** The items of a pack are every variant of every requested style, and nothing else. */
  lemma {:induction false} PackItemsAre(slugs: seq<string>, n: nat, it: Item)
    ensures it in PackItems(slugs, n) <==> it.slug in slugs && it.variant < n
  {
    if slugs != [] {
      var last := |slugs| - 1;
      PackItemsAre(slugs[..last], n, it);
      VariantsAt(slugs[last], n);
      assert slugs == slugs[..last] + [slugs[last]];
      if it.slug == slugs[last] && it.variant < n { assert Variants(slugs[last], n)[it.variant] == it; }
    }
  }

  /** A job as it is submitted: queued, at this price, and nothing done. */
  predicate FreshJob(job: Job, u: UserId, key: string, cost: nat, stages: Pos, noCharge: bool) {
    && job.user == u && job.key == key && job.cost == cost && job.stages == stages && job.noCharge == noCharge
    && job.status == Queued && job.attempts == 0 && job.progress == 0 && job.results == 0 && job.worker == Idle
    && !job.flag && job.seen == 0 && job.unseen == 0 && !job.late
  }

  /** The job is one of these items, submitted by this request. */
  ghost predicate FromPack(job: Job, p: Pack, items: seq<Item>) {
    exists it :: it in items && FreshJob(job, p.user, ItemKey(p, it), p.price(it.slug), p.stages, false)
  }

  ghost predicate AddsFromPack(jobs: seq<Job>, jobs': seq<Job>, p: Pack, items: seq<Item>) {
    && jobs <= jobs'
    && forall k :: |jobs| <= k < |jobs'| ==> FromPack(jobs'[k], p, items)
  }

  /** Accepted items leave the jobs as they were and add jobs of these items only. */
  lemma {:induction false} ItemsAdd(w: World, p: Pack, items: seq<Item>)
    requires SubmitItems(w, p, items).Some?
    ensures var w' := SubmitItems(w, p, items).value;
            AddsFromPack(w.jobs, w'.jobs, p, items)
  {
    if items != [] {
      var front, it := items[..|items| - 1], items[|items| - 1];
      ItemsAdd(w, p, front);
      var w1, w' := SubmitItems(w, p, front).value, SubmitItems(w, p, items).value;
      forall k | |w.jobs| <= k < |w'.jobs| ensures FromPack(w'.jobs[k], p, items) {
        if k < |w1.jobs| {
          var x :| x in front && FreshJob(w1.jobs[k], p.user, ItemKey(p, x), p.price(x.slug), p.stages, false);
          assert x in items;
        } else {
          assert it in items && FreshJob(w'.jobs[k], p.user, ItemKey(p, it), p.price(it.slug), p.stages, false);
        }
      }
    }
  }

  /** The jobs that a pack request returns, in the order of its loops: for every style and variant a job
      under their key. */
  ghost predicate ListsPack(jobs: seq<Job>, p: Pack, slugs: seq<string>, variants: nat, out: seq<nat>) {
    && |out| == |slugs| * variants
    && forall i, v :: 0 <= i < |slugs| && 0 <= v < variants ==>
         && Turn(i, v, variants) < |out| && out[Turn(i, v, variants)] < |jobs|
         && jobs[out[Turn(i, v, variants)]].key == PackItemKey(p.id, slugs[i], v)
  }

  lemma PackIsListed(jobs: seq<Job>, p: Pack, slugs: seq<string>, variants: nat, out: seq<nat>)
    requires var items := PackItems(slugs, variants);
             && |out| == |items|
             && forall k :: 0 <= k < |out| ==> out[k] < |jobs| && jobs[out[k]].key == ItemKey(p, items[k])
    ensures ListsPack(jobs, p, slugs, variants, out)
  {
    PackItemsCount(slugs, variants);
    forall i, v | 0 <= i < |slugs| && 0 <= v < variants
      ensures Turn(i, v, variants) < |out| && out[Turn(i, v, variants)] < |jobs|
      ensures jobs[out[Turn(i, v, variants)]].key == PackItemKey(p.id, slugs[i], v)
    {
      PackItemAt(slugs, variants, i, v);
    }
  }

  datatype CancelError = NotFound | Conflict(status: Status)

  class JobService {
    const maxRetries: nat
    var books: map<UserId, Book>
    var jobs: seq<Job>

    function State(): World
      reads this
    {
      World(maxRetries, books, jobs)
    }

    constructor (maxRetries: nat)
      ensures State() == World(maxRetries, map[], [])
    {
      this.maxRetries, books, jobs := maxRetries, map[], [];
    }

    method FindJob(key: string) returns (found: Option<nat>)
      ensures found.Some? ==> found.value < |jobs| && jobs[found.value].key == key
      ensures found.None? ==> !KeyTaken(jobs, key)
    {
      for i := 0 to |jobs|
        invariant forall k :: 0 <= k < i ==> jobs[k].key != key
      {
        if jobs[i].key == key { return Some(i); }
      }
      found := None;
    }

    /** Return the job already submitted under this key, or hold its price and create it. A refused
        hold raises before anything is written. */
    method SubmitJob(u: UserId, key: string, cost: Pos, stages: Pos) returns (r: Result<nat, Error>)
      modifies this
      ensures State() == DoSubmit(old(State()), u, key, cost, stages)
      ensures old(jobs) <= jobs
      ensures r.Err? <==> HoldRefused(old(State()), u, key, cost)
      ensures r.Ok? ==> r.value < |jobs| && jobs[r.value].key == key
      ensures r.Err? || KeyTaken(old(jobs), key) ==> State() == old(State())
      ensures r.Ok? && !KeyTaken(old(jobs), key) ==>
                jobs == old(jobs) + [jobs[r.value]] && FreshJob(jobs[r.value], u, key, cost, stages, false)
      ensures var b, b' := BookAt(old(State()), u), BookAt(State(), u);
              !KeyTaken(old(jobs), key) && !HasKey(b.ledger, HoldKey(key)) && 0 <= b.acct.balance ==>
                && (r.Ok? <==> cost <= b.acct.balance - b.acct.held)
                && (r.Err? ==> r.error == PaymentRequired(cost, b.acct.balance - b.acct.held))
                && (r.Ok? ==>
                      && b'.acct.held == b.acct.held + cost && b'.acct.balance == b.acct.balance
                      && HasKey(b'.ledger, HoldKey(key)))
      ensures forall v :: v != u ==> BookAt(State(), v) == BookAt(old(State()), v)
    {
      var existing := FindJob(key);
      if existing.Some? {
        assert KeyTaken(jobs, key);
        return Ok(existing.value);
      }
      var hold := Exec(if u in books then books[u] else EMPTY, OpHold(cost, Some(HoldKey(key))));
      if hold.outcome.Rejected? { return Err(hold.outcome.error); }
      books := books[u := hold.book];
      jobs := jobs + [NewJob(u, key, cost, stages, false)];
      r := Ok(|jobs| - 1);
    }

    /** One request for a whole pack. A refused hold anywhere rolls the request back. */
    method SubmitPack(p: Pack, slugs: seq<string>, variants: nat) returns (r: Result<seq<nat>, Error>)
      modifies this
      ensures var after := SubmitItems(old(State()), p, PackItems(slugs, variants));
              && r.Ok? == after.Some?
              && State() == (if after.Some? then after.value else old(State()))
      ensures r.Ok? ==> Progressed(old(State()), p, PackItems(slugs, variants), r.value)
      ensures r.Ok? ==> ListsPack(jobs, p, slugs, variants, r.value)
      ensures r.Ok? ==> AddsFromPack(old(jobs), jobs, p, PackItems(slugs, variants))
      ensures r.Err? ==> State() == old(State())
      ensures Inv(old(State())) ==>
                var w, items := old(State()), PackItems(slugs, variants);
                && (r.Ok? <==> NewCost(w, p, items) == 0 || NewCost(w, p, items) <= Available(w, p.user))
                && (r.Ok? ==> Submitted(w, State(), p, items))
    {
      var savedBooks, savedJobs := books, jobs;
      ghost var w := State();
      if Inv(w) { PackAccounting(w, p, PackItems(slugs, variants)); }
      var out: seq<nat> := [];
      for s := 0 to |slugs|
        invariant Progressed(w, p, PackItems(slugs[..s], variants), out)
      {
        PackItemsStep(slugs, s, variants);
        var more := SubmitVariants(p, slugs[s], variants, out, w, PackItems(slugs[..s], variants));
        if more.Err? {
          books, jobs := savedBooks, savedJobs;
          ItemsRefused(w, p, slugs, variants, s + 1);
          return Err(more.error);
        }
        out := more.value;
      }
      assert slugs[..|slugs|] == slugs;
      PackIsListed(jobs, p, slugs, variants, out);
      ItemsAdd(w, p, PackItems(slugs, variants));
      r := Ok(out);
    }

    /** The inner loop: every variant of one style, appending to the jobs so far. */
    method SubmitVariants(p: Pack, slug: string, variants: nat, out0: seq<nat>, ghost w: World, ghost done: seq<Item>)
      returns (r: Result<seq<nat>, Error>)
      requires Progressed(w, p, done, out0)
      modifies this
      ensures r.Ok? ==> Progressed(w, p, done + Variants(slug, variants), r.value)
      ensures r.Ok? ==>
                && |r.value| == |out0| + variants
                && forall v :: 0 <= v < variants ==>
                     r.value[|out0| + v] < |jobs| && jobs[r.value[|out0| + v]].key == PackItemKey(p.id, slug, v)
      ensures r.Err? ==> SubmitItems(w, p, done + Variants(slug, variants)).None?
    {
      var out := out0;
      assert done + Variants(slug, 0) == done;
      for v := 0 to variants
        invariant Progressed(w, p, done + Variants(slug, v), out)
      {
        assert done + Variants(slug, v + 1) == done + Variants(slug, v) + [Item(slug, v)];
        var job := SubmitItem(p, Item(slug, v), out, w, done + Variants(slug, v));
        if job.Err? {
          VariantsRefused(w, p, done, slug, v + 1, variants);
          return Err(job.error);
        }
        out := job.value;
      }
      VariantsAt(slug, variants);
      r := Ok(out);
    }

    /** One turn of the loops. */
    method SubmitItem(p: Pack, it: Item, out: seq<nat>, ghost w: World, ghost done: seq<Item>)
      returns (r: Result<seq<nat>, Error>)
      requires Progressed(w, p, done, out)
      modifies this
      ensures r.Ok? ==> Progressed(w, p, done + [it], r.value)
      ensures r.Err? ==> SubmitItems(w, p, done + [it]).None?
    {
      assert (done + [it])[..|done|] == done;
      var job := SubmitJob(p.user, PackItemKey(p.id, it.slug, it.variant), p.price(it.slug), p.stages);
      if job.Err? { return Err(job.error); }
      r := Ok(out + [job.value]);
    }

    /** The items done so far led to this state, and `out` lists their jobs. */
    ghost predicate Progressed(w: World, p: Pack, done: seq<Item>, out: seq<nat>)
      reads this
    {
      && SubmitItems(w, p, done) == Some(State())
      && |out| == |done|
      && forall i :: 0 <= i < |out| ==> out[i] < |jobs| && jobs[out[i]].key == ItemKey(p, done[i])
    }

    /** Read the row and raise the flag; the first half of a cancel request. */
    method AcceptCancelRequest(j: nat, who: UserId, admin: bool, signalled: bool) returns (r: Result<bool, CancelError>)
      modifies this
      ensures State() == Next(old(State()), AcceptCancel(j, who, admin, signalled))
      ensures r == if j >= |old(jobs)| || (!admin && old(jobs)[j].user != who) then Err(NotFound)
                   else if Terminal(old(jobs)[j].status) then Err(Conflict(old(jobs)[j].status))
                   else Ok(Hidden(old(jobs)[j], signalled))
      ensures books == old(books)
      ensures r.Err? ==> jobs == old(jobs)
      ensures r.Ok? ==>
                && j < |old(jobs)| && jobs == old(jobs)[j := jobs[j]]
                && jobs[j] == old(jobs)[j].(flag := jobs[j].flag, seen := jobs[j].seen, unseen := jobs[j].unseen)
                && jobs[j].flag == (old(jobs)[j].flag || signalled)
                && jobs[j].seen == old(jobs)[j].seen + (if r.value then 0 else 1)
                && jobs[j].unseen == old(jobs)[j].unseen + (if r.value then 1 else 0)
    {
      if j >= |jobs| { return Err(NotFound); }
      var job := jobs[j];
      if !admin && job.user != who { return Err(NotFound); }
      if job.status.Completed? || job.status.Failed? || job.status.Cancelled? { return Err(Conflict(job.status)); }
      var hidden := Hidden(job, signalled);
      if signalled { job := job.(flag := true); }
      jobs := jobs[j := if hidden then job.(unseen := job.unseen + 1) else job.(seen := job.seen + 1)];
      r := Ok(hidden);
    }

    /** Write the status, refund the hold and commit; the second half. */
    method CommitCancelRequest(j: nat, hidden: bool) returns (ok: bool)
      requires j < |jobs| && HasPending(jobs[j], hidden)
      modifies this
      ensures State() == Next(old(State()), CommitCancel(j, hidden))
      ensures |jobs| == |old(jobs)| && jobs == old(jobs)[j := jobs[j]]
      ensures jobs[j].status == if ok then Cancelled else old(jobs)[j].status
      ensures jobs[j].attempts == old(jobs)[j].attempts && jobs[j].progress == old(jobs)[j].progress
      ensures jobs[j].results == old(jobs)[j].results && jobs[j].worker == old(jobs)[j].worker
      ensures jobs[j].seen == old(jobs)[j].seen - (if hidden then 0 else 1)
      ensures jobs[j].unseen == old(jobs)[j].unseen - (if hidden then 1 else 0)
      ensures var job := old(jobs)[j];
              var b, b' := BookAt(old(State()), job.user), BookAt(State(), job.user);
              0 <= b.acct.balance ==>
                && ok && HasKey(b'.ledger, RefundKey(job.key)) && b'.acct.balance == b.acct.balance
                && b'.acct.held == if HasKey(b.ledger, RefundKey(job.key)) then b.acct.held
                                   else Max(0, b.acct.held - job.cost)
      ensures forall v :: v != old(jobs)[j].user ==> BookAt(State(), v) == BookAt(old(State()), v)
    {
      var job, u := jobs[j], jobs[j].user;
      var refund := Exec(if u in books then books[u] else EMPTY, OpRefund(job.cost, Some(RefundKey(job.key))));
      ok := !refund.outcome.Rejected?;
      jobs := jobs[j := DropPending(job, hidden)];
      if ok {
        jobs := jobs[j := jobs[j].(status := Cancelled, late := job.late || hidden)];
        books := books[u := refund.book];
      }
    }

    /** A new attempt that charges nothing. */
    method RequeueJob(j: nat, key: string) returns (clone: Option<nat>)
      modifies this
      ensures State() == Next(old(State()), Requeue(j, key))
      ensures clone.Some? <==> j < |old(jobs)| && !KeyTaken(old(jobs), key)
      ensures books == old(books)
      ensures clone.None? ==> jobs == old(jobs)
      ensures clone.Some? ==>
                && clone.value == |old(jobs)| && jobs == old(jobs) + [jobs[clone.value]]
                && FreshJob(jobs[clone.value], jobs[j].user, key, 0, jobs[j].stages, true)
    {
      if j >= |jobs| { return None; }
      var taken := FindJob(key);
      if taken.Some? {
        assert KeyTaken(jobs, key);
        return None;
      }
      jobs := jobs + [NewJob(jobs[j].user, key, 0, jobs[j].stages, true)];
      clone := Some(|jobs| - 1);
    }
  }

  /** Once an item is refused, so is every longer list. */
  lemma {:induction false} RefusedStays(w: World, p: Pack, a: seq<Item>, b: seq<Item>)
    requires SubmitItems(w, p, a).None?
    ensures SubmitItems(w, p, a + b).None?
  {
    if b == [] {
      assert a + b == a;
    } else {
      assert (a + b)[..|a + b| - 1] == a + b[..|b| - 1];
      RefusedStays(w, p, a, b[..|b| - 1]);
    }
  }

  lemma {:induction false} VariantsRefused(w: World, p: Pack, done: seq<Item>, slug: string, v: nat, n: nat)
    requires v <= n && SubmitItems(w, p, done + Variants(slug, v)).None?
    ensures SubmitItems(w, p, done + Variants(slug, n)).None?
  {
    if v < n {
      VariantsRefused(w, p, done, slug, v, n - 1);
      RefusedStays(w, p, done + Variants(slug, n - 1), [Item(slug, n - 1)]);
      assert done + Variants(slug, n - 1) + [Item(slug, n - 1)] == done + Variants(slug, n);
    }
  }

  lemma PackItemsStep(slugs: seq<string>, s: nat, variants: nat)
    requires s < |slugs|
    ensures PackItems(slugs[..s + 1], variants) == PackItems(slugs[..s], variants) + Variants(slugs[s], variants)
  {
    assert slugs[..s + 1][..s] == slugs[..s];
  }

  lemma {:induction false} ItemsRefused(w: World, p: Pack, slugs: seq<string>, variants: nat, s: nat)
    requires s <= |slugs| && SubmitItems(w, p, PackItems(slugs[..s], variants)).None?
    ensures SubmitItems(w, p, PackItems(slugs, variants)).None?
    decreases |slugs| - s
  {
    if s < |slugs| {
      PackItemsStep(slugs, s, variants);
      RefusedStays(w, p, PackItems(slugs[..s], variants), Variants(slugs[s], variants));
      ItemsRefused(w, p, slugs, variants, s + 1);
    } else {
      assert slugs[..s] == slugs;
    }
  }
}
