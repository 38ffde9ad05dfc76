/** The virtual visual servoing (VVS) loop of the hybrid tracker as a state machine: one `Step`
    is one pass of the `while` loop of computeVVS and `Run` iterates it until the residue settles,
    the iteration budget is spent or an exception leaves the loop. The numerical kernels (the
    moving-edge and KLT interaction rows, the Tukey M-estimator, the pseudo-inverse solve, the
    exponential map and pose products, the weighted residue norm) are parameters. */
module Vvs {
  import opened Common
  import opened Primitives
  import opened Klt

  /** The tracker settings the loop reads. `thresholdMbt` and `thresholdKlt` are already divided
      by the camera's px, as the loop hands them to the M-estimators. */
  datatype Config = Config(lm: bool, isoJoIdentity: bool, maxIter: nat, lambda: real,
                           thresholdMbt: real, thresholdKlt: real)

  /** What the pose solve sees: the stacked rows, the stacked unweighted error, the fused
      weights, the damping, the solver choices and the current pose (for the twist cVo). */
  datatype SolveInput = SolveInput(L: seq<seq<real>>, R: seq<real>, w: seq<real>, mu: real,
                                   lm: bool, isoJoIdentity: bool, lambda: real, cMo: Pose)

  /** The numerical collaborators. `tukey(r, iter, threshold)` is the Tukey M-estimator,
      `residue(w, r)` is sqrt(sum w[i] r[i]^2 / sum w[i]), `solve` yields the velocity v,
      `expInverse(v)` is `vpExponentialMap::direct(v).inverse()` and `times` the pose product. */
  datatype Numerics = Numerics(
    contourAt: Interaction,
    kltAt: KltInteraction,
    tukey: (seq<real>, nat, real) -> seq<real>,
    residue: (seq<real>, seq<real>) -> real,
    solve: SolveInput -> seq<real>,
    expInverse: seq<real> -> Pose,
    times: (Pose, Pose) -> Pose)

  /** Everything the loop holds fixed: the primitives of the level (lines, cylinders, circles),
      the KLT polygons and cylinders, the row counts after the minimum-data rule, the factor
      vector of the first loop and the pose c0Mo the increments are applied to. */
  datatype Ctx = Ctx(cfg: Config, num: Numerics, prims: seq<Prim>,
                     polys: seq<KltGroup>, cyls: seq<KltGroup>,
                     nbrow: nat, nbInfos: nat, factor: seq<real>, c0Mo: Pose)

  /** The collaborators give blocks of the advertised size and one weight per residual. */
  ghost predicate NumericsFitFor(num: Numerics, prims: seq<Prim>, polys: seq<KltGroup>, cyls: seq<KltGroup>) {
    && (forall q :: FitsAt(num.contourAt, q, prims))
    && (forall q :: KltFitsAt(num.kltAt, q, polys, false))
    && (forall q :: KltFitsAt(num.kltAt, q, cyls, true))
    && (forall r, k, t :: |num.tukey(r, k, t)| == |r|)
  }

  ghost predicate NumericsFit(ctx: Ctx) {
    NumericsFitFor(ctx.num, ctx.prims, ctx.polys, ctx.cyls)
  }

  /** What computeVVS has established before the loop: the contour rows are either dropped
      (nbrow = 0) or at least four and exactly the rows of the level's tracked primitives, at
      least one modality has four rows, the factor vector is the first loop's and the KLT groups
      hold 2 * nbInfos rows. */
  ghost predicate CtxValid(ctx: Ctx) {
    && AllWellFormed(ctx.prims)
    && (ctx.nbrow == 0 || (ctx.nbrow >= 4 && ctx.nbrow == TrackedRows(ctx.prims) && ctx.factor == FactorVector(ctx.prims)))
    && (ctx.nbrow >= 4 || ctx.nbInfos >= 4)
    && (ctx.nbInfos >= 4 ==> KltRows(ctx.polys, false) + KltRows(ctx.cyls, true) == 2 * ctx.nbInfos)
    && NumericsFit(ctx)
  }

  /** What the decision of a pass needs of the context: some rows, a factor per contour row
      and one Tukey weight per residual. */
  ghost predicate Shaped(ctx: Ctx) {
    && ctx.nbrow + 2 * ctx.nbInfos > 0
    && |ctx.factor| >= ctx.nbrow
    && forall r, k, t :: |ctx.num.tukey(r, k, t)| == |r|
  }

  /** The modality shares: 0.35 for the contours and 0.65 for the points, and a modality whose
      partner has fewer than four rows gets the whole share. */
  function Shares(nbrow: nat, nbInfos: nat): (r: (real, real))
    ensures InUnit(r.0) && InUnit(r.1)
    ensures nbrow >= 4 && nbInfos >= 4 ==> r.0 + r.1 == 1.0
    ensures nbrow < 4 ==> r.1 == 1.0
    ensures nbInfos < 4 ==> r.0 == 1.0
  {
    (if nbInfos < 4 then 1.0 else 0.35, if nbrow < 4 then 1.0 else 0.65)
  }

  /** The fused weight vector m_w: contour rows first, then KLT rows. */
  function Fused(wMbt: seq<real>, factor: seq<real>, wKlt: seq<real>, nbrow: nat, nbInfos: nat,
                 factorMbt: real, factorKlt: real): (r: seq<real>)
    requires |wMbt| >= nbrow && |factor| >= nbrow && |wKlt| >= 2 * nbInfos
    ensures |r| == nbrow + 2 * nbInfos
  {
    seq(nbrow + 2 * nbInfos, i requires 0 <= i < nbrow + 2 * nbInfos =>
      if i < nbrow then wMbt[i] * factor[i] * factorMbt else wKlt[i - nbrow] * factorKlt)
  }

  /** The `cpt` loop of computeVVS that writes m_w. */
  method FuseWeights(wMbt: seq<real>, factor: seq<real>, wKlt: seq<real>, nbrow: nat, nbInfos: nat,
                     factorMbt: real, factorKlt: real) returns (m: seq<real>)
    requires |wMbt| >= nbrow && |factor| >= nbrow && |wKlt| >= 2 * nbInfos
    ensures |m| == nbrow + 2 * nbInfos
    ensures forall i :: 0 <= i < nbrow ==> m[i] == wMbt[i] * factor[i] * factorMbt
    ensures forall i :: nbrow <= i < nbrow + 2 * nbInfos ==> m[i] == wKlt[i - nbrow] * factorKlt
    ensures m == Fused(wMbt, factor, wKlt, nbrow, nbInfos, factorMbt, factorKlt)
  {
    ghost var spec := Fused(wMbt, factor, wKlt, nbrow, nbInfos, factorMbt, factorKlt);
    var a := new real[nbrow + 2 * nbInfos];
    var cpt := 0;
    while cpt < nbrow + 2 * nbInfos
      invariant 0 <= cpt <= nbrow + 2 * nbInfos
      invariant forall i :: 0 <= i < cpt ==> a[i] == spec[i]
    {
      if cpt < nbrow {
        a[cpt] := wMbt[cpt] * factor[cpt] * factorMbt;
      } else {
        a[cpt] := wKlt[cpt - nbrow] * factorKlt;
      }
      cpt := cpt + 1;
    }
    m := a[..];
    assert m == spec;
  }

  predicate InUnit(x: real) { 0.0 <= x <= 1.0 }

  predicate AllInUnit(ws: seq<real>, n: nat) {
    n <= |ws| && forall i :: 0 <= i < n ==> InUnit(ws[i])
  }

  lemma MulInUnit(a: real, b: real)
    requires InUnit(a) && InUnit(b)
    ensures InUnit(a * b)
  {
    assert 0.0 <= a * b;
    assert a * b <= a by {
      assert a * (1.0 - b) >= 0.0;
    }
  }

  /** When the M-estimator weights and the shares are in [0, 1] and the factors are those of the
      first loop, every fused weight is in [0, 1]. */
  lemma FusedInUnit(wMbt: seq<real>, factor: seq<real>, wKlt: seq<real>, nbrow: nat, nbInfos: nat,
                    factorMbt: real, factorKlt: real)
    requires AllInUnit(wMbt, nbrow) && AllInUnit(wKlt, 2 * nbInfos) && |factor| >= nbrow
    requires forall i :: 0 <= i < nbrow ==> IsFactor(factor[i])
    requires InUnit(factorMbt) && InUnit(factorKlt)
    ensures AllInUnit(Fused(wMbt, factor, wKlt, nbrow, nbInfos, factorMbt, factorKlt), nbrow + 2 * nbInfos)
  {
    var r := Fused(wMbt, factor, wKlt, nbrow, nbInfos, factorMbt, factorKlt);
    forall i | 0 <= i < nbrow + 2 * nbInfos ensures InUnit(r[i]) {
      if i < nbrow {
        assert InUnit(factor[i]);
        MulInUnit(wMbt[i], factor[i]);
        MulInUnit(wMbt[i] * factor[i], factorMbt);
      } else {
        MulInUnit(wKlt[i - nbrow], factorKlt);
      }
    }
  }

  // ---------------------------------------------------------------------------------------------
  // Loop state and the stopping rule

  /** The variables one pass of the loop reads and writes: its counters and damping, the pose
      and incremental pose, their snapshots, m_error/m_error_prev, m_w/m_w_prev, w_mbt and w_klt. */
  datatype VvsState = VvsState(iter: nat, mu: real, residu: real, residu1: real,
                               cMo: Pose, ctTc0: Pose, cMoPrev: Pose, ctTc0Prev: Pose,
                               error: seq<real>, errorPrev: seq<real>,
                               w: seq<real>, wPrev: seq<real>,
                               wMbt: seq<real>, wKlt: seq<real>)

  /** The state before the first pass: residu = 0, residu_1 = -1, mu = 0.01, default-constructed
      snapshots of the poses and zero snapshots of the error and weights. */
  function Start(ctx: Ctx, cMo: Pose, ctTc0: Pose, error: seq<real>, w: seq<real>,
                 wMbt: seq<real>, wKlt: seq<real>): (s: VvsState)
    ensures s.iter == 0 && s.residu - s.residu1 == 1.0
  {
    var n := ctx.nbrow + 2 * ctx.nbInfos;
    VvsState(0, 0.01, 0.0, -1.0, cMo, ctTc0, Identity, Identity,
             error, Constant(n, 0.0), w, Constant(n, 0.0), wMbt, wKlt)
  }

  /** Once a pass has been accepted, w_mbt and w_klt are long enough for the fusion. */
  predicate Inv(ctx: Ctx, s: VvsState) {
    s.iter > 0 ==> |s.wMbt| >= ctx.nbrow && |s.wKlt| >= 2 * ctx.nbInfos
  }

  /** The C++ `(int)` cast of a double: truncation toward zero. */
  function TruncToInt(x: real): int {
    if x >= 0.0 then x.Floor else -((-x).Floor)
  }

  /** The loop condition. */
  predicate Continue(ctx: Ctx, s: VvsState) {
    TruncToInt((s.residu - s.residu1) * 100000000.0) != 0 && s.iter < ctx.cfg.maxIter
  }

  /** The residue test amounts to: the residue moved by less than 1e-8 in either direction. */
  lemma ConvergedIff(residu: real, residu1: real)
    ensures TruncToInt((residu - residu1) * 100000000.0) == 0 <==>
      -1.0 / 100000000.0 < residu - residu1 < 1.0 / 100000000.0
  {
    var x := (residu - residu1) * 100000000.0;
    if x >= 0.0 {
      assert TruncToInt(x) == 0 <==> x < 1.0;
    } else {
      assert (-x).Floor == 0 <==> -x < 1.0;
    }
  }

  // ---------------------------------------------------------------------------------------------
  // One pass

  /** The freshly computed rows of one pass: the contour block (trackSecondLoop) and the KLT block. */
  datatype Fills = Fills(mbt: Block, klt: Block)

  /** Both modalities' rows at the current poses, or the exception a KLT group raises. A modality
      with fewer than four rows is not filled. */
  function Fill(ctx: Ctx, s: VvsState): (r: Result<Fills>)
    requires CtxValid(ctx)
    ensures r.Ok? ==> BlockFits(r.value.mbt, ctx.nbrow)
    ensures r.Ok? ==> BlockFits(r.value.klt, if ctx.nbInfos >= 4 then 2 * ctx.nbInfos else 0)
    ensures ctx.nbInfos < 4 ==> r.Ok?
  {
    assert FitsAt(ctx.num.contourAt, s.cMo, ctx.prims);
    var mbt := if ctx.nbrow >= 4
      then Block(LRows(ctx.prims, ctx.num.contourAt, s.cMo), ErrorRows(ctx.prims, ctx.num.contourAt, s.cMo))
      else Block([], []);
    if ctx.nbInfos >= 4 then
      assert KltFitsAt(ctx.num.kltAt, s.ctTc0, ctx.polys, false);
      assert KltFitsAt(ctx.num.kltAt, s.ctTc0, ctx.cyls, true);
      match KltStack(ctx.polys, ctx.cyls, ctx.num.kltAt, s.ctTc0)
      case Err(e) => Err(e)
      case Ok(b) => Ok(Fills(mbt, b))
    else Ok(Fills(mbt, Block([], [])))
  }

  function MeanSquare(e: seq<real>, d: nat): real
    requires d > 0
  {
    SumSquare(e) / (d as real)
  }

  /** Which error vector the Levenberg-Marquardt test compares with m_error_prev: the member
      m_error, as the code does, or the error of this pass, as the rollback branch evidently
      intends. */
  datatype LmTest = AsWritten | Intended

  /** The Levenberg-Marquardt rejection test; `d` is 2 * nbInfos + nbrow. */
  predicate RejectsWith(lm: bool, d: nat, s: VvsState, current: seq<real>, test: LmTest)
    requires d > 0
  {
    s.iter != 0 && lm &&
    MeanSquare(if test == AsWritten then s.error else current, d) > MeanSquare(s.errorPrev, d)
  }

  /** A rejected pass restores the pose, the error, the weights and the incremental pose
      from their snapshots. */
  function Rollback(s: VvsState, mu: real): VvsState {
    s.(iter := s.iter + 1, mu := mu, cMo := s.cMoPrev, error := s.errorPrev, w := s.wPrev,
       ctTc0 := s.ctTc0Prev)
  }

  /** An accepted pass: reweight both modalities, fuse, solve, snapshot and update the poses. */
  function Accept(ctx: Ctx, s: VvsState, fills: Fills): (r: VvsState)
    requires Shaped(ctx) && Inv(ctx, s)
    requires BlockFits(fills.mbt, ctx.nbrow)
    requires BlockFits(fills.klt, if ctx.nbInfos >= 4 then 2 * ctx.nbInfos else 0)
    ensures r.iter == s.iter + 1 && Inv(ctx, r)
  {
    var wMbt0 := if s.iter == 0 && ctx.nbrow != 0 then Constant(ctx.nbrow, 1.0) else s.wMbt;
    var wKlt0 := if s.iter == 0 && ctx.nbInfos != 0 then Constant(2 * ctx.nbInfos, 1.0) else s.wKlt;
    var wMbt := if ctx.nbrow > 3 then ctx.num.tukey(fills.mbt.error, s.iter, ctx.cfg.thresholdMbt) else wMbt0;
    var wKlt := if ctx.nbInfos > 3 then ctx.num.tukey(fills.klt.error, s.iter, ctx.cfg.thresholdKlt) else wKlt0;
    var shares := Shares(ctx.nbrow, ctx.nbInfos);
    var w := Fused(wMbt, ctx.factor, wKlt, ctx.nbrow, ctx.nbInfos, shares.0, shares.1);
    var current := fills.mbt.error + fills.klt.error;
    var v := ctx.num.solve(SolveInput(fills.mbt.L + fills.klt.L, current, w, s.mu, ctx.cfg.lm,
                                      ctx.cfg.isoJoIdentity, ctx.cfg.lambda, s.cMo));
    var ctTc0 := ctx.num.times(ctx.num.expInverse(v), s.ctTc0);
    VvsState(s.iter + 1,
             if ctx.cfg.lm && s.iter != 0 then s.mu / 10.0 else s.mu,
             ctx.num.residue(w, current), s.residu,
             ctx.num.times(ctTc0, ctx.c0Mo), ctTc0, s.cMo, s.ctTc0,
             current, if ctx.cfg.lm then current else s.errorPrev,
             w, if ctx.cfg.lm then w else s.wPrev,
             wMbt, wKlt)
  }

  datatype StepResult = Next(s: VvsState) | Stop(error: TrackError)

  /** The rest of a pass once the rows are in: the rejection test, the divergence check and
      the rollback, or the accepted pass. */
  function Decide(ctx: Ctx, s: VvsState, fills: Fills, test: LmTest): (r: StepResult)
    requires Shaped(ctx) && Inv(ctx, s)
    requires BlockFits(fills.mbt, ctx.nbrow)
    requires BlockFits(fills.klt, if ctx.nbInfos >= 4 then 2 * ctx.nbInfos else 0)
    ensures r.Next? ==> r.s.iter == s.iter + 1 && Inv(ctx, r.s)
  {
    var current := fills.mbt.error + fills.klt.error;
    if RejectsWith(ctx.cfg.lm, ctx.nbrow + 2 * ctx.nbInfos, s, current, test) then
      if s.mu * 10.0 > 1.0 then Stop(Diverged) else Next(Rollback(s, s.mu * 10.0))
    else Next(Accept(ctx, s, fills))
  }

  /** One pass of the loop with a chosen rejection test. */
  function StepWith(ctx: Ctx, s: VvsState, test: LmTest): (r: StepResult)
    requires CtxValid(ctx) && Inv(ctx, s)
    ensures r.Next? ==> r.s.iter == s.iter + 1 && Inv(ctx, r.s)
  {
    match Fill(ctx, s)
    case Err(e) => Stop(e)
    case Ok(fills) => Decide(ctx, s, fills, test)
  }

  /** One pass of the loop as the model runs it: with the intended rejection test. */
  function Step(ctx: Ctx, s: VvsState): (r: StepResult)
    requires CtxValid(ctx) && Inv(ctx, s)
    ensures r.Next? ==> r.s.iter == s.iter + 1 && Inv(ctx, r.s)
  {
    StepWith(ctx, s, Intended)
  }

  /** How the loop ends: its last state, and the exception that left it, if any. */
  datatype Exit = Exit(s: VvsState, error: Option<TrackError>)

  function Run(ctx: Ctx, s: VvsState): Exit
    requires CtxValid(ctx) && Inv(ctx, s)
    decreases ctx.cfg.maxIter - s.iter
  {
    if !Continue(ctx, s) then Exit(s, None)
    else
      match Step(ctx, s)
      case Stop(e) => Exit(s, Some(e))
      case Next(t) => Run(ctx, t)
  }

  /** The loop ends normally once its condition fails. */
  lemma RunDone(ctx: Ctx, s: VvsState)
    requires CtxValid(ctx) && Inv(ctx, s) && !Continue(ctx, s)
    ensures Run(ctx, s) == Exit(s, None)
  {
  }

  /** A pass that raises ends the loop in the state before it. */
  lemma RunStop(ctx: Ctx, s: VvsState, e: TrackError)
    requires CtxValid(ctx) && Inv(ctx, s) && Continue(ctx, s) && Step(ctx, s) == Stop(e)
    ensures Run(ctx, s) == Exit(s, Some(e))
  {
  }

  /** A pass that completes hands the loop on to the next state. */
  lemma RunNext(ctx: Ctx, s: VvsState, t: VvsState)
    requires CtxValid(ctx) && Inv(ctx, s) && Continue(ctx, s) && Step(ctx, s) == Next(t)
    ensures Inv(ctx, t) && Run(ctx, s) == Run(ctx, t)
  {
  }

  /** The pass raises what the fill raises. */
  lemma StepFillFails(ctx: Ctx, s: VvsState)
    requires CtxValid(ctx) && Inv(ctx, s) && Fill(ctx, s).Err?
    ensures Step(ctx, s) == Stop(Fill(ctx, s).error)
  {
  }

  /** Once the rows are in, the pass is decided on them. */
  lemma StepDecides(ctx: Ctx, s: VvsState)
    requires CtxValid(ctx) && Inv(ctx, s) && Fill(ctx, s).Ok?
    ensures Step(ctx, s) == Decide(ctx, s, Fill(ctx, s).value, Intended)
  {
  }

  // ---------------------------------------------------------------------------------------------
  // What the loop guarantees

  /** The loop ends normally only when the residue has settled or the budget is spent, ends with
      an exception only on a pass that raises it, and never runs past maxIter passes. */
  lemma {:induction false} RunExits(ctx: Ctx, s: VvsState)
    requires CtxValid(ctx) && Inv(ctx, s)
    ensures var x := Run(ctx, s);
      && s.iter <= x.s.iter
      && (x.s.iter <= s.iter || x.s.iter <= ctx.cfg.maxIter)
      && (x.error.None? ==> !Continue(ctx, x.s))
      && (x.error.Some? ==> Continue(ctx, x.s) && Inv(ctx, x.s) && Step(ctx, x.s) == Stop(x.error.value))
    decreases ctx.cfg.maxIter - s.iter
  {
    if Continue(ctx, s) {
      match Step(ctx, s)
      case Stop(e) =>
      case Next(t) => RunExits(ctx, t);
    }
  }

  /** The damping stays in (0, 1]: it is divided by 10 on accepted passes, multiplied by 10 on
      rejected ones, and a rejection that would push it past 1 ends the loop instead. */
  lemma {:induction false} RunMuInRange(ctx: Ctx, s: VvsState)
    requires CtxValid(ctx) && Inv(ctx, s) && 0.0 < s.mu <= 1.0
    ensures 0.0 < Run(ctx, s).s.mu <= 1.0
    decreases ctx.cfg.maxIter - s.iter
  {
    if Continue(ctx, s) {
      match Step(ctx, s)
      case Stop(e) =>
      case Next(t) =>
        assert 0.0 < t.mu <= 1.0;
        RunMuInRange(ctx, t);
    }
  }

  /** cMo = ctTc0 * c0Mo, and the same for the snapshots once a pass has been accepted. */
  predicate Composed(ctx: Ctx, s: VvsState) {
    && s.cMo == ctx.num.times(s.ctTc0, ctx.c0Mo)
    && (s.iter > 0 ==> s.cMoPrev == ctx.num.times(s.ctTc0Prev, ctx.c0Mo))
  }

  lemma StepComposed(ctx: Ctx, s: VvsState)
    requires CtxValid(ctx) && Inv(ctx, s) && Composed(ctx, s)
    ensures Step(ctx, s).Next? ==> Composed(ctx, Step(ctx, s).s)
  {
  }

  /** Every pose the loop leaves behind, accepted or rolled back, is the incremental pose
      applied to c0Mo. */
  lemma {:induction false} RunComposed(ctx: Ctx, s: VvsState)
    requires CtxValid(ctx) && Inv(ctx, s) && Composed(ctx, s)
    ensures Composed(ctx, Run(ctx, s).s)
    decreases ctx.cfg.maxIter - s.iter
  {
    if Continue(ctx, s) {
      StepComposed(ctx, s);
      match Step(ctx, s)
      case Stop(e) =>
      case Next(t) => RunComposed(ctx, t);
    }
  }

  /** The Tukey weights are in [0, 1]. */
  ghost predicate TukeyInUnit(num: Numerics) {
    forall r, k, t :: AllInUnit(num.tukey(r, k, t), |num.tukey(r, k, t)|)
  }

  /** Once a pass has been accepted, the per-modality weights, m_w and (under LM) m_w_prev are
      all in [0, 1]. */
  predicate WeightsInUnit(ctx: Ctx, s: VvsState) {
    s.iter > 0 ==>
      && AllInUnit(s.wMbt, ctx.nbrow) && AllInUnit(s.wKlt, 2 * ctx.nbInfos)
      && AllInUnit(s.w, |s.w|)
      && (ctx.cfg.lm ==> AllInUnit(s.wPrev, |s.wPrev|))
  }

  /** An accepted pass leaves every weight in [0, 1]. */
  lemma AcceptWeightsInUnit(ctx: Ctx, s: VvsState, fills: Fills)
    requires Shaped(ctx) && Inv(ctx, s) && TukeyInUnit(ctx.num) && WeightsInUnit(ctx, s)
    requires BlockFits(fills.mbt, ctx.nbrow)
    requires BlockFits(fills.klt, if ctx.nbInfos >= 4 then 2 * ctx.nbInfos else 0)
    requires forall i :: 0 <= i < ctx.nbrow ==> IsFactor(ctx.factor[i])
    ensures WeightsInUnit(ctx, Accept(ctx, s, fills))
  {
    var t := Accept(ctx, s, fills);
    var shares := Shares(ctx.nbrow, ctx.nbInfos);
    assert AllInUnit(t.wMbt, ctx.nbrow) by {
      if ctx.nbrow > 3 {
        assert t.wMbt == ctx.num.tukey(fills.mbt.error, s.iter, ctx.cfg.thresholdMbt);
      }
    }
    assert AllInUnit(t.wKlt, 2 * ctx.nbInfos) by {
      if ctx.nbInfos > 3 {
        assert t.wKlt == ctx.num.tukey(fills.klt.error, s.iter, ctx.cfg.thresholdKlt);
      }
    }
    FusedInUnit(t.wMbt, ctx.factor, t.wKlt, ctx.nbrow, ctx.nbInfos, shares.0, shares.1);
  }

  lemma StepWeightsInUnit(ctx: Ctx, s: VvsState)
    requires CtxValid(ctx) && Inv(ctx, s) && TukeyInUnit(ctx.num) && WeightsInUnit(ctx, s)
    ensures Step(ctx, s).Next? ==> WeightsInUnit(ctx, Step(ctx, s).s)
  {
    if Fill(ctx, s).Ok? {
      var fills := Fill(ctx, s).value;
      StepDecides(ctx, s);
      FactorVectorRange(ctx.prims);
      var current := fills.mbt.error + fills.klt.error;
      if !RejectsWith(ctx.cfg.lm, ctx.nbrow + 2 * ctx.nbInfos, s, current, Intended) {
        AcceptWeightsInUnit(ctx, s, fills);
      }
    }
  }

  /** Every weight the loop leaves in m_w is in [0, 1]. */
  lemma {:induction false} RunWeightsInUnit(ctx: Ctx, s: VvsState)
    requires CtxValid(ctx) && Inv(ctx, s) && TukeyInUnit(ctx.num) && WeightsInUnit(ctx, s)
    ensures WeightsInUnit(ctx, Run(ctx, s).s)
    decreases ctx.cfg.maxIter - s.iter
  {
    if Continue(ctx, s) {
      StepWeightsInUnit(ctx, s);
      match Step(ctx, s)
      case Stop(e) =>
      case Next(t) => RunWeightsInUnit(ctx, t);
    }
  }

  // ---------------------------------------------------------------------------------------------
  // The Levenberg-Marquardt test as written

  /** Under LM, after the first pass m_error and m_error_prev hold the same vector: an accepted
      pass stores the same error in both, a rejected one copies the snapshot back. */
  predicate SnapshotsAgree(ctx: Ctx, s: VvsState) {
    ctx.cfg.lm && s.iter > 0 ==> s.error == s.errorPrev
  }

  /** The code's test compares two equal vectors, so no pass is ever rejected: every pass whose
      rows can be computed is accepted, and the agreement is kept. */
  lemma AsWrittenNeverRejects(ctx: Ctx, s: VvsState)
    requires CtxValid(ctx) && Inv(ctx, s) && SnapshotsAgree(ctx, s)
    ensures Fill(ctx, s).Ok? ==> StepWith(ctx, s, AsWritten) == Next(Accept(ctx, s, Fill(ctx, s).value))
    ensures StepWith(ctx, s, AsWritten).Next? ==> SnapshotsAgree(ctx, StepWith(ctx, s, AsWritten).s)
    ensures StepWith(ctx, s, AsWritten) != Stop(Diverged)
  {
    if Fill(ctx, s).Ok? {
      var fills := Fill(ctx, s).value;
      var current := fills.mbt.error + fills.klt.error;
      assert !RejectsWith(ctx.cfg.lm, ctx.nbrow + 2 * ctx.nbInfos, s, current, AsWritten);
    } else {
      assert Fill(ctx, s).error != Diverged by {
        KltFillFails(ctx.polys, false, ctx.num.kltAt, s.ctTc0);
        KltFillFails(ctx.cyls, true, ctx.num.kltAt, s.ctTc0);
      }
    }
  }

  /** With the corrected test, an LM pass after the first is rolled back (or diverges) exactly
      when its fresh rows have a worse mean square than the snapshot's, and accepted otherwise. */
  lemma IntendedRejectsWorse(ctx: Ctx, s: VvsState)
    requires CtxValid(ctx) && Inv(ctx, s) && Fill(ctx, s).Ok? && ctx.cfg.lm && s.iter != 0
    ensures var fills := Fill(ctx, s).value;
      var d := ctx.nbrow + 2 * ctx.nbInfos;
      var worse := MeanSquare(fills.mbt.error + fills.klt.error, d) > MeanSquare(s.errorPrev, d);
      && (worse && s.mu * 10.0 > 1.0 ==> Step(ctx, s) == Stop(Diverged))
      && (worse && s.mu * 10.0 <= 1.0 ==> Step(ctx, s) == Next(Rollback(s, s.mu * 10.0)))
      && (!worse ==> Step(ctx, s) == Next(Accept(ctx, s, fills)))
  {
    StepDecides(ctx, s);
  }

  /** When the contour rows are dropped (nbrow = 0), no pass writes w_mbt. */
  lemma StepKeepsDroppedContourWeights(ctx: Ctx, s: VvsState)
    requires CtxValid(ctx) && Inv(ctx, s) && ctx.nbrow == 0
    ensures Step(ctx, s).Next? ==> Step(ctx, s).s.wMbt == s.wMbt
  {
    if Fill(ctx, s).Ok? {
      StepDecides(ctx, s);
    }
  }

  /** So the loop hands back the w_mbt it was given. */
  lemma {:induction false} RunKeepsDroppedContourWeights(ctx: Ctx, s: VvsState)
    requires CtxValid(ctx) && Inv(ctx, s) && ctx.nbrow == 0
    ensures Run(ctx, s).s.wMbt == s.wMbt
    decreases ctx.cfg.maxIter - s.iter
  {
    if Continue(ctx, s) {
      StepKeepsDroppedContourWeights(ctx, s);
      match Step(ctx, s)
      case Stop(e) =>
      case Next(t) => RunKeepsDroppedContourWeights(ctx, t);
    }
  }

  /** The corrected test keeps the same agreement, so the two differ only in the comparison. */
  lemma StepKeepsSnapshotsAgree(ctx: Ctx, s: VvsState)
    requires CtxValid(ctx) && Inv(ctx, s) && SnapshotsAgree(ctx, s)
    ensures Step(ctx, s).Next? ==> SnapshotsAgree(ctx, Step(ctx, s).s)
  {
  }

  /** The first pass is never rejected, so every run that gets past it starts its second pass
      with iter = 1, mu still 0.01 and (under LM) m_error = m_error_prev, whichever test is used. */
  lemma FirstPassShape(ctx: Ctx, s: VvsState, test: LmTest)
    requires CtxValid(ctx) && Inv(ctx, s) && s.iter == 0 && s.mu == 0.01
    ensures var r := StepWith(ctx, s, test);
      r.Next? ==> r.s.iter == 1 && r.s.mu == 0.01 && SnapshotsAgree(ctx, r.s)
  {
    if Fill(ctx, s).Ok? {
      var fills := Fill(ctx, s).value;
      var current := fills.mbt.error + fills.klt.error;
      assert !RejectsWith(ctx.cfg.lm, ctx.nbrow + 2 * ctx.nbInfos, s, current, test);
      assert StepWith(ctx, s, test) == Next(Accept(ctx, s, fills));
    }
  }

  /** An LM state of the shape FirstPassShape gives every second pass (iter = 1, mu = 0.01,
      m_error = m_error_prev) whose current error is twice the previous one: the written test
      accepts the worse pass, the intended one rejects it. */
  lemma AsWrittenAcceptsWorsePass()
    ensures var s := VvsState(1, 0.01, 0.5, 0.0, Identity, Identity, Identity, Identity,
                              [1.0, 0.0, 0.0, 0.0], [1.0, 0.0, 0.0, 0.0],
                              [1.0, 1.0, 1.0, 1.0], [1.0, 1.0, 1.0, 1.0],
                              [1.0, 1.0, 1.0, 1.0], []);
      && !RejectsWith(true, 4, s, [2.0, 0.0, 0.0, 0.0], AsWritten)
      && RejectsWith(true, 4, s, [2.0, 0.0, 0.0, 0.0], Intended)
  {
    assert SumSquare([1.0, 0.0, 0.0, 0.0]) == 1.0 by {
      assert [1.0, 0.0, 0.0, 0.0][..3] == [1.0, 0.0, 0.0];
      assert [1.0, 0.0, 0.0][..2] == [1.0, 0.0];
      assert [1.0, 0.0][..1] == [1.0];
      assert [1.0][..0] == [];
    }
    assert SumSquare([2.0, 0.0, 0.0, 0.0]) == 4.0 by {
      assert [2.0, 0.0, 0.0, 0.0][..3] == [2.0, 0.0, 0.0];
      assert [2.0, 0.0, 0.0][..2] == [2.0, 0.0];
      assert [2.0, 0.0][..1] == [2.0];
      assert [2.0][..0] == [];
    }
  }
}
