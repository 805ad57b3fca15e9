/**
 The staged pipeline: the canonical stage order, the per-stage retry loop, and the image threaded
 through the stages. A call into a model is an input; everything around it is modelled.
 */
module StageRunner {
  import opened Wrappers

  datatype Stage = Generate | InstantId | ControlNet | Gfpgan | RealEsrgan | BgRemoval

  const ORDER: seq<Stage> := [Generate, InstantId, ControlNet, Gfpgan, RealEsrgan, BgRemoval]
  const STAGE_MAX_RETRIES := 2

  // ---------------------------------------------------------------------------------------------
  // Stage order
  // ---------------------------------------------------------------------------------------------

  /** A stage name as a job carries it. */
  datatype Requested = Known(stage: Stage) | Unknown(name: string)

  function Keep(order: seq<Stage>, wanted: set<Stage>): seq<Stage> {
    if order == [] then []
    else if order[0] in wanted then [order[0]] + Keep(order[1..], wanted)
    else Keep(order[1..], wanted)
  }

  function Wanted(requested: seq<Requested>): set<Stage> {
    (set r | r in requested && r.Known? :: r.stage) + {Generate}
  }

  function OrderedStages(requested: seq<Requested>): seq<Stage> { Keep(ORDER, Wanted(requested)) }

  /** `xs` lists elements of `order` at strictly increasing positions. */
  ghost predicate Subsequence(xs: seq<Stage>, order: seq<Stage>) {
    if xs == [] then true
    else exists i :: 0 <= i < |order| && order[i] == xs[0] && Subsequence(xs[1..], order[i + 1..])
  }

  ghost predicate NoDuplicates(xs: seq<Stage>) {
    forall i, j :: 0 <= i < j < |xs| ==> xs[i] != xs[j]
  }

  lemma {:induction false} KeepIsSubsequence(order: seq<Stage>, wanted: set<Stage>)
    requires NoDuplicates(order)
    ensures Subsequence(Keep(order, wanted), order)
    ensures NoDuplicates(Keep(order, wanted))
    ensures forall s :: s in Keep(order, wanted) <==> s in order && s in wanted
    ensures |Keep(order, wanted)| <= |order|
  {
    if order != [] {
      var tail := Keep(order[1..], wanted);
      KeepIsSubsequence(order[1..], wanted);
      if order[0] in wanted {
        assert Keep(order, wanted)[1..] == tail;
        assert order[0] !in order[1..];
        assert order[0] == Keep(order, wanted)[0] && Subsequence(tail, order[0 + 1..]);
      } else if tail != [] {
        var i :| 0 <= i < |order[1..]| && order[1..][i] == tail[0] && Subsequence(tail[1..], order[1..][i + 1..]);
        assert order[i + 1] == tail[0] && order[i + 1 + 1..] == order[1..][i + 1..];
      }
    }
  }

  function AsRequested(ss: seq<Stage>): seq<Requested> { seq(|ss|, i requires 0 <= i < |ss| => Known(ss[i])) }

  /** Whatever was requested, the stages that run are the known requested ones and "generate", in
      canonical order, once each, "generate" first; normalising again changes nothing. */
  lemma OrderedStagesAreCanonical(requested: seq<Requested>)
    ensures var ss := OrderedStages(requested);
            && 1 <= |ss| <= 6 && ss[0] == Generate
            && Subsequence(ss, ORDER) && NoDuplicates(ss)
            && (forall s :: s in ss <==> Known(s) in requested || s == Generate)
            && OrderedStages(AsRequested(ss)) == ss
  {
    OrderListsAll();
    KeepIsSubsequence(ORDER, Wanted(requested));
    KeepsFirst(ORDER, Wanted(requested));
    WantedAgain(requested);
  }

  lemma KeepsFirst(order: seq<Stage>, wanted: set<Stage>)
    requires order != [] && order[0] in wanted
    ensures Keep(order, wanted) != [] && Keep(order, wanted)[0] == order[0]
  {}

  lemma OrderListsAll()
    ensures NoDuplicates(ORDER) && |ORDER| == 6 && ORDER[0] == Generate
    ensures forall s :: s in ORDER
  {
    forall s ensures s in ORDER { InOrder(s); }
  }

  lemma WantedAgain(requested: seq<Requested>)
    requires forall s :: s in OrderedStages(requested) <==> s in Wanted(requested)
    ensures Wanted(AsRequested(OrderedStages(requested))) == Wanted(requested)
  {
    var ss := OrderedStages(requested);
    forall s ensures s in ss <==> Known(s) in AsRequested(ss) {
      if s in ss {
        var i :| 0 <= i < |ss| && ss[i] == s;
        assert AsRequested(ss)[i] == Known(s);
      }
    }
    forall s ensures s in Wanted(AsRequested(ss)) <==> s in Wanted(requested) {}
  }

  lemma InOrder(s: Stage)
    ensures s in ORDER
  {
    assert ORDER[0] == Generate && ORDER[1] == InstantId && ORDER[2] == ControlNet;
    assert ORDER[3] == Gfpgan && ORDER[4] == RealEsrgan && ORDER[5] == BgRemoval;
  }

  // ---------------------------------------------------------------------------------------------
  // One attempt at a stage
  // ---------------------------------------------------------------------------------------------

  type Image = nat

  /** What a foreign call did. A model that is not loaded makes a generating backend decline. */
  datatype Call = Returns(image: Image) | Declines | RaisesTransient | RaisesHard

  datatype Backend = SdTurbo | IdentitySdxl | ControlFlux | BaseFlux

  /** The answers of the outside world to one attempt at a stage. `restored` is what a restoring
      stage makes of the image, with its model or with its stand-in; None when it crashes. */
  datatype Answers = Answers(backends: Backend -> Call, restored: Option<Image>, controlOk: bool, referenceOk: bool)

  datatype Code =
    | ModelUnavailable | GenerationFailed | UnsupportedControl | MissingReference | InvalidReference
    | NoImage | StageCrashed

  datatype StageError = StageError(code: Code, transient: bool)

  datatype StageResult = Passed | Raised(error: StageError)

  /** What a delivery fixes before its first stage. */
  datatype Conditions = Conditions(stages: seq<Stage>, hasReference: bool, sdTurbo: bool)

  /** The images threaded through the stages: the working image, and the auxiliary outputs, of
      which the transparent variant is the only one. */
  datatype Images = Images(image: Option<Image>, extras: seq<Image>)

  datatype Ran = Ran(result: StageResult, images: Images)

  const NO_IMAGES := Images(None, [])
  const NO_IMAGE := Raised(StageError(NoImage, false))

  /** The generating backends that are asked, in order. */
  function Candidates(c: Conditions): seq<Backend> {
    if c.sdTurbo then [SdTurbo]
    else
      var instantId := if InstantId in c.stages && c.hasReference then [IdentitySdxl] else [];
      var controlNet := if ControlNet in c.stages && c.hasReference then [ControlFlux] else [];
      instantId + controlNet + [BaseFlux]
  }

  /** The answer of the first backend that does not decline. */
  function FirstAnswer(asked: seq<Backend>, answer: Backend -> Call): Call {
    if asked == [] then Declines
    else if answer(asked[0]).Declines? then FirstAnswer(asked[1..], answer)
    else answer(asked[0])
  }

  lemma FirstAnswerSkips(b: Backend, rest: seq<Backend>, answer: Backend -> Call)
    ensures FirstAnswer([b] + rest, answer) == if answer(b).Declines? then FirstAnswer(rest, answer) else answer(b)
  {
    assert ([b] + rest)[1..] == rest;
  }

  lemma CandidatesInOrder(c: Conditions, answer: Backend -> Call)
    ensures FirstAnswer(Candidates(c), answer)
         == CallThatCounts(c, answer)
  {
    FirstAnswerSkips(SdTurbo, [], answer);
    FirstAnswerSkips(BaseFlux, [], answer);
    FirstAnswerSkips(ControlFlux, [BaseFlux], answer);
    FirstAnswerSkips(IdentitySdxl, [ControlFlux] + [BaseFlux], answer);
    FirstAnswerSkips(IdentitySdxl, [BaseFlux], answer);
    assert [IdentitySdxl] + [ControlFlux] + [BaseFlux] == [IdentitySdxl] + ([ControlFlux] + [BaseFlux]);
    assert [] + [BaseFlux] == [BaseFlux] && [IdentitySdxl] + [] == [IdentitySdxl]
           && [] + [ControlFlux] == [ControlFlux];
    assert [SdTurbo] + [] == [SdTurbo] && [BaseFlux] + [] == [BaseFlux];
  }

  /** The call whose answer counts: of the backends that are asked, the first that does not decline. */
  function CallThatCounts(c: Conditions, answer: Backend -> Call): Call {
    if c.sdTurbo then answer(SdTurbo)
    else if InstantId in c.stages && c.hasReference && !answer(IdentitySdxl).Declines? then answer(IdentitySdxl)
    else if ControlNet in c.stages && c.hasReference && !answer(ControlFlux).Declines? then answer(ControlFlux)
    else answer(BaseFlux)
  }

  /** What becomes of that answer. An image is the result; an out-of-memory or CUDA error is worth another attempt,
      and neither any other error nor a model that is not loaded is. */
  predicate AnswerFits(call: Call, was: Images, r: Ran) {
    && (r.result.Passed? <==> call.Returns?)
    && r.images == (if call.Returns? then was.(image := Some(call.image)) else was)
    && (r.result.Raised? ==>
          && (r.result.error.transient <==> call.RaisesTransient?)
          && r.result.error.code == if call.Declines? then ModelUnavailable else GenerationFailed)
  }

  function Generated(call: Call, im: Images): Ran {
    match call
    case Returns(i) => Ran(Passed, im.(image := Some(i)))
    case Declines => Ran(Raised(StageError(ModelUnavailable, false)), im)
    case RaisesTransient => Ran(Raised(StageError(GenerationFailed, true)), im)
    case RaisesHard => Ran(Raised(StageError(GenerationFailed, false)), im)
  }

  /** The light validators: the conditioning was applied while generating. */
  function Validated(c: Conditions, im: Images, stage: Stage, a: Answers): Ran {
    if stage.ControlNet? && !a.controlOk then Ran(Raised(StageError(UnsupportedControl, false)), im)
    else if !c.hasReference then Ran(Raised(StageError(MissingReference, false)), im)
    else if !a.referenceOk then Ran(Raised(StageError(InvalidReference, false)), im)
    else Ran(Passed, im)
  }

  function Restored(im: Images, stage: Stage, a: Answers): Ran {
    if im.image.None? then Ran(NO_IMAGE, im)
    else match a.restored
      case None => Ran(Raised(StageError(StageCrashed, false)), im)
      case Some(i) => Ran(Passed, if stage.BgRemoval? then im.(extras := [i]) else im.(image := Some(i)))
  }

  function Attempt(c: Conditions, im: Images, stage: Stage, a: Answers): Ran {
    if stage.Generate? then Generated(FirstAnswer(Candidates(c), a.backends), im)
    else if stage.InstantId? || stage.ControlNet? then Validated(c, im, stage, a)
    else Restored(im, stage, a)
  }

  /** What one attempt does, stage by stage. A validator changes nothing and passes for known control
      modes, which "instantid" does not ask for, and a usable reference. A restoring stage needs an image;
      what it makes is the new image, except that "bg_removal" keeps the image and makes its result the one
      auxiliary output. Of all the errors only a generating backend's is ever worth another attempt. */
  predicate AttemptFits(c: Conditions, was: Images, stage: Stage, a: Answers, r: Ran) {
    match stage
    case Generate => AnswerFits(CallThatCounts(c, a.backends), was, r)
    case InstantId => ValidatorFits(true, c.hasReference, a.referenceOk, was, r)
    case ControlNet => ValidatorFits(a.controlOk, c.hasReference, a.referenceOk, was, r)
    case _ => RestorerFits(stage, a.restored, was, r)
  }

  predicate RaisedFor(r: StageResult, code: Code) { r.Raised? && r.error.code == code && !r.error.transient }

  predicate ValidatorFits(controlOk: bool, hasReference: bool, referenceOk: bool, was: Images, r: Ran) {
    && r.images == was
    && (r.result.Passed? <==> controlOk && hasReference && referenceOk)
    && (!controlOk ==> RaisedFor(r.result, UnsupportedControl))
    && (controlOk && !hasReference ==> RaisedFor(r.result, MissingReference))
    && (controlOk && hasReference && !referenceOk ==> RaisedFor(r.result, InvalidReference))
  }

  predicate RestorerFits(stage: Stage, restored: Option<Image>, was: Images, r: Ran) {
    && (r.result.Passed? <==> was.image.Some? && restored.Some?)
    && (was.image.None? ==> RaisedFor(r.result, NoImage))
    && (was.image.Some? && restored.None? ==> RaisedFor(r.result, StageCrashed))
    && (r.result.Raised? ==> r.images == was)
    && (r.result.Passed? ==>
          if stage.BgRemoval? then r.images.image == was.image && r.images.extras == [restored.value]
          else r.images.image == restored && r.images.extras == was.extras)
  }

  lemma AttemptsFit(c: Conditions, im: Images, stage: Stage, a: Answers)
    ensures AttemptFits(c, im, stage, a, Attempt(c, im, stage, a))
  {
    CandidatesInOrder(c, a.backends);
  }

  // ---------------------------------------------------------------------------------------------
  // The retry loop and the sequence of stages
  // ---------------------------------------------------------------------------------------------

  predicate Transient(r: StageResult) { r.Raised? && r.error.transient }

  /** The state after the n-th attempt at a stage, each made on what the one before left. */
  function AfterAttempts(c: Conditions, im: Images, stage: Stage, ask: nat -> Answers, n: nat): Ran
    requires 1 <= n
  {
    Attempt(c, if n == 1 then im else AfterAttempts(c, im, stage, ask, n - 1).images, stage, ask(n - 1))
  }

  /** `n` is the number of attempts made: all but the last failed transiently, and the last did not
      or was the last one allowed. */
  ghost predicate Tried(c: Conditions, im: Images, stage: Stage, ask: nat -> Answers, n: nat) {
    && 1 <= n <= STAGE_MAX_RETRIES + 1
    && (forall i :: 1 <= i < n ==> Transient(AfterAttempts(c, im, stage, ask, i).result))
    && (n <= STAGE_MAX_RETRIES ==> !Transient(AfterAttempts(c, im, stage, ask, n).result))
  }

  /** One stage with its retries; `n` attempts were made before. */
  function RetryFrom(c: Conditions, im: Images, stage: Stage, ask: nat -> Answers, n: nat): Ran
    decreases STAGE_MAX_RETRIES - n
  {
    var r := Attempt(c, im, stage, ask(n));
    if Transient(r.result) && n < STAGE_MAX_RETRIES then RetryFrom(c, r.images, stage, ask, n + 1) else r
  }

  function StageRun(c: Conditions, im: Images, stage: Stage, ask: nat -> Answers): Ran {
    RetryFrom(c, im, stage, ask, 0)
  }

  /** A stage ends as its last attempt does. */
  lemma StageRunIsLastTry(c: Conditions, im: Images, stage: Stage, ask: nat -> Answers, n: nat)
    requires Tried(c, im, stage, ask, n)
    ensures StageRun(c, im, stage, ask) == AfterAttempts(c, im, stage, ask, n)
  {
    RetryFromTried(c, im, stage, ask, n, 0);
  }

  lemma {:induction false} RetryFromTried(c: Conditions, im: Images, stage: Stage, ask: nat -> Answers, n: nat, k: nat)
    requires Tried(c, im, stage, ask, n) && k < n
    ensures RetryFrom(c, if k == 0 then im else AfterAttempts(c, im, stage, ask, k).images, stage, ask, k)
         == AfterAttempts(c, im, stage, ask, n)
    decreases n - k
  {
    if k + 1 < n {
      assert Transient(AfterAttempts(c, im, stage, ask, k + 1).result);
      RetryFromTried(c, im, stage, ask, n, k + 1);
    }
  }

  function CallAt(c: Conditions, ask: nat -> Answers, n: nat): Call
    requires 1 <= n
  {
    CallThatCounts(c, ask(n - 1).backends)
  }

  /** Attempt `n` at "generate" decides: the ones before failed transiently, and it did not or is the third. */
  ghost predicate Decides(c: Conditions, ask: nat -> Answers, n: nat) {
    && 1 <= n <= 3
    && (forall i :: 1 <= i < n ==> CallAt(c, ask, i).RaisesTransient?)
    && (n < 3 ==> !CallAt(c, ask, n).RaisesTransient?)
  }

  /** Attempts at "generate" that failed transiently leave the images alone. */
  lemma {:induction false} GenerateAttempts(c: Conditions, im: Images, ask: nat -> Answers, n: nat)
    requires 1 <= n && forall i :: 1 <= i < n ==> CallAt(c, ask, i).RaisesTransient?
    ensures AnswerFits(CallAt(c, ask, n), im, AfterAttempts(c, im, Generate, ask, n))
  {
    if 1 < n { GenerateAttempts(c, im, ask, n - 1); }
    AttemptsFit(c, im, Generate, ask(n - 1));
  }

  lemma {:induction false} TransientCalls(c: Conditions, im: Images, ask: nat -> Answers, n: nat)
    requires 1 <= n && forall i :: 1 <= i < n ==> Transient(AfterAttempts(c, im, Generate, ask, i).result)
    ensures forall i :: 1 <= i < n ==> CallAt(c, ask, i).RaisesTransient?
  {
    if 1 < n {
      TransientCalls(c, im, ask, n - 1);
      GenerateAttempts(c, im, ask, n - 1);
    }
  }

  /** "generate" makes the attempts that its answers call for, and ends as the deciding one does. In
      particular, when an attempt up to the third is the first that does not fail transiently and gets an
      image, the stage passes with that image. */
  lemma GenerateEndsAs(c: Conditions, im: Images, ask: nat -> Answers, n: nat)
    requires Decides(c, ask, n)
    ensures Tried(c, im, Generate, ask, n)
    ensures AnswerFits(CallAt(c, ask, n), im, StageRun(c, im, Generate, ask))
  {
    forall i | 1 <= i <= n ensures AnswerFits(CallAt(c, ask, i), im, AfterAttempts(c, im, Generate, ask, i)) {
      GenerateAttempts(c, im, ask, i);
    }
    StageRunIsLastTry(c, im, Generate, ask, n);
  }

  lemma TriedDecides(c: Conditions, im: Images, ask: nat -> Answers, n: nat)
    requires Tried(c, im, Generate, ask, n)
    ensures Decides(c, ask, n) && AnswerFits(CallAt(c, ask, n), im, AfterAttempts(c, im, Generate, ask, n))
  {
    TransientCalls(c, im, ask, n);
    GenerateAttempts(c, im, ask, n);
  }

  /** No other stage is ever attempted twice. */
  lemma TriedOnce(c: Conditions, im: Images, stage: Stage, ask: nat -> Answers, n: nat)
    requires !stage.Generate? && Tried(c, im, stage, ask, n)
    ensures n == 1 && AttemptFits(c, im, stage, ask(0), AfterAttempts(c, im, stage, ask, n))
  {
    AttemptsFit(c, im, stage, ask(0));
    assert !Transient(AfterAttempts(c, im, stage, ask, 1).result);
  }

  function ImagesAfter(rs: seq<Ran>): Images { if rs == [] then NO_IMAGES else rs[|rs| - 1].images }

  /** The first `n` of a sequence of stages, each run on what the one before left. */
  function FirstRuns(run: (Images, nat) -> Ran, n: nat): (rs: seq<Ran>)
    ensures |rs| == n
  {
    if n == 0 then []
    else
      var rs := FirstRuns(run, n - 1);
      rs + [run(ImagesAfter(rs), n - 1)]
  }

  lemma {:induction false} FirstRunsAt(run: (Images, nat) -> Ran, n: nat, i: nat)
    requires i < n
    ensures var rs := FirstRuns(run, n);
            rs[..i] == FirstRuns(run, i) && rs[i] == run(ImagesAfter(rs[..i]), i)
  {
    var rs, front := FirstRuns(run, n), FirstRuns(run, n - 1);
    assert rs[..n - 1] == front;
    if i < n - 1 {
      FirstRunsAt(run, n - 1, i);
      assert rs[..i] == front[..i];
    }
  }

  function StageOf(c: Conditions, ask: nat -> nat -> Answers): (Images, nat) -> Ran {
    (im: Images, i: nat) => if i < |c.stages| then StageRun(c, im, c.stages[i], ask(i)) else Ran(Passed, im)
  }

  /** All the stages of a delivery. */
  function StageRuns(c: Conditions, ask: nat -> nat -> Answers): (rs: seq<Ran>)
    ensures |rs| == |c.stages|
  {
    FirstRuns(StageOf(c, ask), |c.stages|)
  }

  lemma StageRunsAt(c: Conditions, ask: nat -> nat -> Answers, i: nat)
    requires i < |c.stages|
    ensures var rs := StageRuns(c, ask); rs[i] == StageRun(c, ImagesAfter(rs[..i]), c.stages[i], ask(i))
  {
    FirstRunsAt(StageOf(c, ask), |c.stages|, i);
  }

  ghost predicate PassedThrough(rs: seq<Ran>, n: nat)
    requires n <= |rs|
  {
    forall i :: 0 <= i < n ==> rs[i].result.Passed?
  }

  /** One attempt never loses the image; with an image it never reports a missing one; and a passing
      "generate" leaves an image. */
  lemma AttemptKeepsImage(c: Conditions, im: Images, stage: Stage, a: Answers)
    ensures var r := Attempt(c, im, stage, a);
            && (im.image.Some? ==> r.images.image.Some? && r.result != NO_IMAGE)
            && (stage.Generate? ==> r.result != NO_IMAGE && (r.result.Passed? ==> r.images.image.Some?))
  {}

  lemma {:induction false} RetriesKeepImage(c: Conditions, im: Images, stage: Stage, ask: nat -> Answers, n: nat)
    ensures var r := RetryFrom(c, im, stage, ask, n);
            && (im.image.Some? ==> r.images.image.Some? && r.result != NO_IMAGE)
            && (stage.Generate? ==> r.result != NO_IMAGE && (r.result.Passed? ==> r.images.image.Some?))
    decreases STAGE_MAX_RETRIES - n
  {
    var r := Attempt(c, im, stage, ask(n));
    AttemptKeepsImage(c, im, stage, ask(n));
    if Transient(r.result) && n < STAGE_MAX_RETRIES { RetriesKeepImage(c, r.images, stage, ask, n + 1); }
  }

  /** The image invariant, for every requested stage list and whatever the models answer: the image
      is there before and after every stage that follows "generate", and neither a stage nor the
      output step can find it missing. */
  lemma {:induction false} ImageAlwaysThere(requested: seq<Requested>, c: Conditions,
                                         ask: nat -> nat -> Answers, i: nat)
    requires c.stages == OrderedStages(requested) && i < |c.stages| && PassedThrough(StageRuns(c, ask), i)
    ensures var rs := StageRuns(c, ask);
            && (0 < i ==> ImagesAfter(rs[..i]).image.Some? && rs[i].images.image.Some?)
            && (rs[i].result.Passed? ==> rs[i].images.image.Some?)
            && rs[i].result != NO_IMAGE
  {
    var rs := StageRuns(c, ask);
    OrderedStagesAreCanonical(requested);
    if i > 0 {
      assert rs[i - 1].result.Passed? && rs[..i][i - 1] == rs[i - 1];
      ImageAlwaysThere(requested, c, ask, i - 1);
    }
    StageRunsAt(c, ask, i);
    RetriesKeepImage(c, ImagesAfter(rs[..i]), c.stages[i], ask(i), 0);
  }

  // ---------------------------------------------------------------------------------------------
  // The runner
  // ---------------------------------------------------------------------------------------------

  class StageContext {
    const c: Conditions
    var image: Option<Image>
    var extras: seq<Image>

    constructor (c: Conditions)
      ensures this.c == c && Value() == NO_IMAGES
    {
      this.c := c;
      image, extras := None, [];
    }

    function Value(): Images
      reads this
    {
      Images(image, extras)
    }

    /** The "generate" stage: the backends in priority order. */
    method RunGenerate(ask: Answers) returns (out: StageResult)
      modifies this`image
      ensures Ran(out, Value()) == Attempt(c, old(Value()), Generate, ask)
      ensures AnswerFits(CallThatCounts(c, ask.backends), old(Value()), Ran(out, Value()))
    {
      CandidatesInOrder(c, ask.backends);
      var answered;
      if c.sdTurbo {
        out, answered := TryBackend(ask.backends(SdTurbo));
        return;
      }
      if InstantId in c.stages && c.hasReference {
        out, answered := TryBackend(ask.backends(IdentitySdxl));
        if answered { return; }
      }
      if ControlNet in c.stages && c.hasReference {
        out, answered := TryBackend(ask.backends(ControlFlux));
        if answered { return; }
      }
      out, answered := TryBackend(ask.backends(BaseFlux));
    }

    method TryBackend(call: Call) returns (out: StageResult, answered: bool)
      modifies this`image
      ensures Ran(out, Value()) == Generated(call, old(Value()))
      ensures AnswerFits(call, old(Value()), Ran(out, Value()))
      ensures answered == !call.Declines?
    {
      match call
      case Returns(i) => image := Some(i); out, answered := Passed, true;
      case Declines => out, answered := Raised(StageError(ModelUnavailable, false)), false;
      case RaisesTransient => out, answered := Raised(StageError(GenerationFailed, true)), true;
      case RaisesHard => out, answered := Raised(StageError(GenerationFailed, false)), true;
    }

    /** One attempt at a stage. */
    method RunImpl(stage: Stage, ask: Answers) returns (out: StageResult)
      modifies this
      ensures Ran(out, Value()) == Attempt(c, old(Value()), stage, ask)
      ensures AttemptFits(c, old(Value()), stage, ask, Ran(out, Value()))
    {
      AttemptsFit(c, Value(), stage, ask);
      if stage.Generate? {
        out := RunGenerate(ask);
      } else if stage.InstantId? || stage.ControlNet? {
        if stage.ControlNet? && !ask.controlOk { return Raised(StageError(UnsupportedControl, false)); }
        if !c.hasReference { return Raised(StageError(MissingReference, false)); }
        if !ask.referenceOk { return Raised(StageError(InvalidReference, false)); }
        out := Passed;
      } else {
        if image.None? { return NO_IMAGE; }
        if ask.restored.None? { return Raised(StageError(StageCrashed, false)); }
        if stage.BgRemoval? { extras := [ask.restored.value]; } else { image := ask.restored; }
        out := Passed;
      }
    }

    /** The retry loop: transient errors are retried twice, everything else is raised at once. */
    method RunStage(stage: Stage, ask: nat -> Answers) returns (out: StageResult, tries: nat, slept: nat)
      modifies this
      ensures Tried(c, old(Value()), stage, ask, tries)
      ensures Ran(out, Value()) == AfterAttempts(c, old(Value()), stage, ask, tries)
              == StageRun(c, old(Value()), stage, ask)
      ensures slept == (if tries == 1 then 0 else if tries == 2 then 1 else 3)
      ensures stage.Generate? ==>
                Decides(c, ask, tries) && AnswerFits(CallAt(c, ask, tries), old(Value()), Ran(out, Value()))
      ensures !stage.Generate? ==> tries == 1 && AttemptFits(c, old(Value()), stage, ask(0), Ran(out, Value()))
    {
      tries, slept := 0, 0;
      ghost var im := Value();
      while true
        invariant 0 <= tries <= STAGE_MAX_RETRIES
        invariant slept == (if tries == 0 then 0 else if tries == 1 then 1 else 3)
        invariant Value() == if tries == 0 then im else AfterAttempts(c, im, stage, ask, tries).images
        invariant forall i :: 1 <= i <= tries ==> Transient(AfterAttempts(c, im, stage, ask, i).result)
        decreases STAGE_MAX_RETRIES - tries
      {
        out := RunImpl(stage, ask(tries));
        tries := tries + 1;
        if !Transient(out) || tries > STAGE_MAX_RETRIES {
          StageRunIsLastTry(c, im, stage, ask, tries);
          if stage.Generate? { TriedDecides(c, im, ask, tries); } else { TriedOnce(c, im, stage, ask, tries); }
          return;
        }
        slept := slept + if tries == 1 then 1 else 2;
      }
    }
  }
}
