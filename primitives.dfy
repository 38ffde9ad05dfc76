/** Contour primitives (lines, cylinders, circles) and the row layout the edge part of the
    hybrid tracker gives them: how many rows each one owns, where its rows sit in the flat
    buffers, which reliability factor each row gets and how final weights are fed back. */
module Primitives {
  import opened Common

  /** State of a moving-edge site (vpMeSite); only NoSuppression and MEstimator matter here. */
  datatype SiteState = NoSuppression | Contrast | Threshold | MEstimator | TooNear | Unknown

  /** One moving-edge list `meline[a]` of a line: whether it exists, `nbFeature[a]` and its sites. */
  datatype MeSegment = MeSegment(present: bool, nbFeature: nat, sites: seq<SiteState>)

  /** A contour primitive at one pyramid level. `faceAppearing` holds, in `Lindex_polygon` order,
      whether each face the line belongs to is appearing; `nearBorder` is `closeToImageBorder(I, 10)`. */
  datatype Prim =
    | Line(tracked: bool, visible: bool, segments: seq<MeSegment>, nbFeatureTotal: nat,
           faceAppearing: seq<bool>, nearBorder: bool, meanWeight: real, reinit: bool)
    | Cylinder(tracked: bool, visible: bool, nbFeature: nat, nbFeaturel1: nat, nbFeaturel2: nat,
               sites1: seq<SiteState>, sites2: seq<SiteState>,
               meanWeight1: real, meanWeight2: real, reinit: bool)
    | Circle(tracked: bool, visible: bool, nbFeature: nat, sites: seq<SiteState>,
             meanWeight: real, reinit: bool)

  /** The lists `lines[lvl]`, `cylinders[lvl]` and `circles[lvl]` of one pyramid level. */
  datatype Level = Level(lines: seq<Prim>, cylinders: seq<Prim>, circles: seq<Prim>) {
    /** Every pass walks lines, then cylinders, then circles. */
    function All(): seq<Prim> { lines + cylinders + circles }
  }

  /** The number of rows the primitive owns: `nbFeatureTotal` for a line, `nbFeature` otherwise. */
  function Count(p: Prim): nat {
    if p.Line? then p.nbFeatureTotal else p.nbFeature
  }

  function SegFeatures(segs: seq<MeSegment>): nat {
    if segs == [] then 0 else SegFeatures(segs[..|segs| - 1]) + segs[|segs| - 1].nbFeature
  }

  lemma {:induction false} SegFeaturesPrefix(segs: seq<MeSegment>, s: nat)
    requires s < |segs|
    ensures SegFeatures(segs[..s + 1]) == SegFeatures(segs[..s]) + segs[s].nbFeature
    ensures SegFeatures(segs[..s + 1]) <= SegFeatures(segs)
  {
    assert segs[..s + 1][..s] == segs[..s];
    if s + 1 < |segs| {
      SegFeaturesPrefix(segs[..|segs| - 1], s);
      assert segs[..|segs| - 1][..s + 1] == segs[..s + 1];
      assert segs[..|segs| - 1][..s] == segs[..s];
    } else {
      assert segs[..s + 1] == segs;
    }
  }

  /** A moving-edge list holds at least `nbFeature[a]` sites; a missing list has no feature. */
  predicate SegmentsWellFormed(segs: seq<MeSegment>) {
    forall a :: 0 <= a < |segs| ==>
      segs[a].nbFeature <= |segs[a].sites| && (!segs[a].present ==> segs[a].nbFeature == 0)
  }

  /** What the moving-edge collaborator guarantees of the counts it maintains. */
  predicate WellFormed(p: Prim) {
    match p
    case Line(_, _, segs, total, _, _, _, _) => SegmentsWellFormed(segs) && total == SegFeatures(segs)
    case Cylinder(_, _, nb, l1, l2, s1, s2, _, _, _) => nb == l1 + l2 && l1 <= |s1| && l2 <= |s2|
    case Circle(_, _, nb, s, _, _) => nb <= |s|
  }

  predicate AllWellFormed(ps: seq<Prim>) {
    forall k :: 0 <= k < |ps| ==> WellFormed(ps[k])
  }

  /** The sites a line's rows come from, list after list, skipping missing lists. */
  function SegStates(segs: seq<MeSegment>): (r: seq<SiteState>)
    requires SegmentsWellFormed(segs)
    ensures |r| == SegFeatures(segs)
  {
    if segs == [] then []
    else
      var last := segs[|segs| - 1];
      SegStates(segs[..|segs| - 1]) + (if last.present then last.sites[..last.nbFeature] else [])
  }

  /** The rows a moving-edge list adds to its line. */
  function SegTail(seg: MeSegment): seq<SiteState>
    requires seg.nbFeature <= |seg.sites|
  {
    if seg.present then seg.sites[..seg.nbFeature] else []
  }

  /** Walking the lists of a line in order, each list appends its rows. */
  lemma SegStatesStep(segs: seq<MeSegment>, s: nat)
    requires SegmentsWellFormed(segs) && s < |segs|
    ensures SegmentsWellFormed(segs[..s]) && SegmentsWellFormed(segs[..s + 1])
    ensures SegStates(segs[..s + 1]) == SegStates(segs[..s]) + SegTail(segs[s])
    ensures SegFeatures(segs[..s + 1]) == SegFeatures(segs[..s]) + segs[s].nbFeature
    ensures SegFeatures(segs[..s + 1]) <= SegFeatures(segs)
  {
    assert segs[..s + 1][..s] == segs[..s];
    SegFeaturesPrefix(segs, s);
  }

  /** The state of the site behind each row of the primitive, in row order. */
  function RowStates(p: Prim): (r: seq<SiteState>)
    requires WellFormed(p)
    ensures |r| == Count(p)
  {
    match p
    case Line(_, _, segs, _, _, _, _, _) => SegStates(segs)
    case Cylinder(_, _, _, l1, l2, s1, s2, _, _, _) => s1[..l1] + s2[..l2]
    case Circle(_, _, nb, s, _, _) => s[..nb]
  }

  // ---------------------------------------------------------------------------------------------
  // Row counts and offsets

  function TrackedCount(p: Prim): nat { if p.tracked then Count(p) else 0 }

  function VisibleCount(p: Prim): nat { if p.tracked && p.visible then Count(p) else 0 }

  /** Rows of the tracked primitives: how far the running offset `n` of the three passes advances. */
  function TrackedRows(ps: seq<Prim>): nat {
    if ps == [] then 0 else TrackedRows(ps[..|ps| - 1]) + TrackedCount(ps[|ps| - 1])
  }

  /** Rows of the primitives that are visible and tracked: what `initMbtTracking` counts. */
  function VisibleRows(ps: seq<Prim>): nat {
    if ps == [] then 0 else VisibleRows(ps[..|ps| - 1]) + VisibleCount(ps[|ps| - 1])
  }

  /** The first row of primitive k in the flat buffers. */
  function Offset(ps: seq<Prim>, k: nat): nat
    requires k <= |ps|
  {
    TrackedRows(ps[..k])
  }

  /** Tracked primitives that are not visible carry no rows. */
  predicate HiddenTrackedEmpty(ps: seq<Prim>) {
    forall k :: 0 <= k < |ps| && ps[k].tracked && !ps[k].visible ==> Count(ps[k]) == 0
  }

  /** The count of `initMbtTracking` and the offsets of the later passes agree exactly when
      no tracked primitive outside the visible set owns rows. */
  lemma {:induction false} RowCountsAgree(ps: seq<Prim>)
    ensures VisibleRows(ps) <= TrackedRows(ps)
    ensures VisibleRows(ps) == TrackedRows(ps) <==> HiddenTrackedEmpty(ps)
  {
    if ps != [] {
      var init := ps[..|ps| - 1];
      RowCountsAgree(init);
      if HiddenTrackedEmpty(ps) {
        assert HiddenTrackedEmpty(init) by {
          forall k | 0 <= k < |init| && init[k].tracked && !init[k].visible
            ensures Count(init[k]) == 0
          {
            assert init[k] == ps[k];
          }
        }
      }
      if VisibleRows(ps) == TrackedRows(ps) {
        forall k | 0 <= k < |ps| && ps[k].tracked && !ps[k].visible
          ensures Count(ps[k]) == 0
        {
          if k < |init| { assert init[k] == ps[k]; }
        }
      }
    }
  }

  lemma {:induction false} TrackedRowsAppend(a: seq<Prim>, b: seq<Prim>)
    ensures TrackedRows(a + b) == TrackedRows(a) + TrackedRows(b)
  {
    if b != [] {
      assert (a + b)[..|a + b| - 1] == a + b[..|b| - 1];
      TrackedRowsAppend(a, b[..|b| - 1]);
    } else {
      assert a + b == a;
    }
  }

  lemma {:induction false} VisibleRowsAppend(a: seq<Prim>, b: seq<Prim>)
    ensures VisibleRows(a + b) == VisibleRows(a) + VisibleRows(b)
  {
    if b != [] {
      assert (a + b)[..|a + b| - 1] == a + b[..|b| - 1];
      VisibleRowsAppend(a, b[..|b| - 1]);
    } else {
      assert a + b == a;
    }
  }

  /** Walking one primitive further moves the offset by that primitive's tracked count. */
  lemma OffsetStep(ps: seq<Prim>, k: nat)
    requires k < |ps|
    ensures Offset(ps, k + 1) == Offset(ps, k) + TrackedCount(ps[k])
  {
    assert ps[..k + 1][..k] == ps[..k];
  }

  lemma {:induction false} OffsetBound(ps: seq<Prim>, k: nat)
    requires k < |ps|
    ensures Offset(ps, k) + TrackedCount(ps[k]) <= TrackedRows(ps)
  {
    if k < |ps| - 1 {
      var init := ps[..|ps| - 1];
      assert init[..k] == ps[..k];
      assert init[k] == ps[k];
      OffsetBound(init, k);
    } else {
      assert ps[..k] == ps[..|ps| - 1];
    }
  }

  // ---------------------------------------------------------------------------------------------
  // Attenuation factors (the first loop)

  /** The base factor of a line: its faces are visited in `Lindex_polygon` order; an appearing
      face gives 0.2, otherwise a line near the image border gives 0.1; either stops the walk. */
  function BaseFactor(faces: seq<bool>, nearBorder: bool): real {
    if faces == [] then 1.0
    else if faces[0] then 0.2
    else if nearBorder then 0.1
    else BaseFactor(faces[1..], nearBorder)
  }

  /** What the walk amounts to: only the first face decides when the line is near the border;
      otherwise any appearing face gives 0.2. */
  lemma {:induction false} BaseFactorClosedForm(faces: seq<bool>, nearBorder: bool)
    ensures BaseFactor(faces, nearBorder) ==
      if faces == [] then 1.0
      else if faces[0] then 0.2
      else if nearBorder then 0.1
      else if true in faces then 0.2
      else 1.0
  {
    if faces != [] && !faces[0] && !nearBorder {
      BaseFactorClosedForm(faces[1..], nearBorder);
      assert faces == [faces[0]] + faces[1..];
      assert (true in faces) == (true in faces[1..]);
    }
  }

  /** A row takes the primitive's base factor unless its site was already suppressed. */
  function SiteFactor(base: real, s: SiteState): real {
    if s != NoSuppression then 0.2 else base
  }

  function Factors(base: real, states: seq<SiteState>): (r: seq<real>)
    ensures |r| == |states|
  {
    seq(|states|, i requires 0 <= i < |states| => SiteFactor(base, states[i]))
  }

  /** Cylinders and circles start from 1. */
  function PrimBase(p: Prim): real {
    if p.Line? then BaseFactor(p.faceAppearing, p.nearBorder) else 1.0
  }

  function RowFactors(p: Prim): (r: seq<real>)
    requires WellFormed(p)
    ensures |r| == Count(p)
  {
    Factors(PrimBase(p), RowStates(p))
  }

  /** The factor vector the first loop writes: the rows of the tracked primitives, in order. */
  function FactorVector(ps: seq<Prim>): (r: seq<real>)
    requires AllWellFormed(ps)
    ensures |r| == TrackedRows(ps)
  {
    if ps == [] then []
    else
      var last := ps[|ps| - 1];
      FactorVector(ps[..|ps| - 1]) + (if last.tracked then RowFactors(last) else [])
  }

  /** The values the first loop can write. */
  predicate IsFactor(x: real) { x == 1.0 || x == 0.2 || x == 0.1 }

  lemma {:induction false} BaseFactorIsFactor(faces: seq<bool>, nearBorder: bool)
    ensures IsFactor(BaseFactor(faces, nearBorder))
  {
    if faces != [] && !faces[0] && !nearBorder {
      BaseFactorIsFactor(faces[1..], nearBorder);
    }
  }

  /** Every entry of the factor vector is 1, 0.2 or 0.1. */
  lemma {:induction false} FactorVectorRange(ps: seq<Prim>)
    requires AllWellFormed(ps)
    ensures forall r :: 0 <= r < |FactorVector(ps)| ==> IsFactor(FactorVector(ps)[r])
  {
    if ps != [] {
      var init := ps[..|ps| - 1];
      var last := ps[|ps| - 1];
      FactorVectorRange(init);
      if last.Line? { BaseFactorIsFactor(last.faceAppearing, last.nearBorder); }
    }
  }

  /** Row i of tracked primitive k sits at `Offset(ps, k) + i` of the factor vector, and its
      factor is 0.2 for a suppressed site and the primitive's base factor otherwise. */
  lemma {:induction false} FactorAt(ps: seq<Prim>, k: nat, i: nat)
    requires AllWellFormed(ps) && k < |ps| && ps[k].tracked && i < Count(ps[k])
    ensures Offset(ps, k) + i < |FactorVector(ps)|
    ensures FactorVector(ps)[Offset(ps, k) + i] == SiteFactor(PrimBase(ps[k]), RowStates(ps[k])[i])
  {
    var init := ps[..|ps| - 1];
    if k == |ps| - 1 {
      assert ps[..k] == init;
    } else {
      assert init[..k] == ps[..k];
      assert init[k] == ps[k];
      FactorAt(init, k, i);
    }
  }

  /** Walking a list in order, each tracked primitive appends its factors. */
  lemma FactorVectorStep(ps: seq<Prim>, k: nat)
    requires AllWellFormed(ps) && k < |ps|
    ensures AllWellFormed(ps[..k]) && AllWellFormed(ps[..k + 1])
    ensures TrackedRows(ps[..k + 1]) == TrackedRows(ps[..k]) + TrackedCount(ps[k])
    ensures TrackedRows(ps[..k + 1]) <= TrackedRows(ps)
    ensures FactorVector(ps[..k + 1]) == FactorVector(ps[..k]) + (if ps[k].tracked then RowFactors(ps[k]) else [])
  {
    assert ps[..k + 1][..k] == ps[..k];
    OffsetBound(ps, k);
    OffsetStep(ps, k);
  }

  /** The factor vector of a level: lines, then cylinders, then circles. */
  lemma FactorVectorLevel(lv: Level)
    requires LevelWellFormed(lv)
    ensures AllWellFormed(lv.lines + lv.cylinders) && AllWellFormed(lv.All())
    ensures FactorVector(lv.All()) == FactorVector(lv.lines) + FactorVector(lv.cylinders) + FactorVector(lv.circles)
  {
    AllWellFormedAppend(lv.lines, lv.cylinders);
    AllWellFormedAppend(lv.lines + lv.cylinders, lv.circles);
    FactorVectorAppend(lv.lines, lv.cylinders);
    FactorVectorAppend(lv.lines + lv.cylinders, lv.circles);
  }

  /** The sites behind a cylinder's rows: the first `nbFeaturel1` from `meline1`, then `meline2`. */
  lemma CylinderRowStates(p: Prim, i: nat)
    requires p.Cylinder? && WellFormed(p) && i < p.nbFeature
    ensures RowStates(p)[i] == if i < p.nbFeaturel1 then p.sites1[i] else p.sites2[i - p.nbFeaturel1]
  {
  }

  lemma {:induction false} FactorVectorAppend(a: seq<Prim>, b: seq<Prim>)
    requires AllWellFormed(a) && AllWellFormed(b)
    ensures AllWellFormed(a + b)
    ensures FactorVector(a + b) == FactorVector(a) + FactorVector(b)
  {
    if b != [] {
      assert (a + b)[..|a + b| - 1] == a + b[..|b| - 1];
      FactorVectorAppend(a, b[..|b| - 1]);
    } else {
      assert a + b == a;
    }
  }

  // ---------------------------------------------------------------------------------------------
  // Interaction rows (the second loop)

  /** `computeInteractionMatrixError` of a primitive at a pose, a numerical collaborator. */
  type Interaction = (Pose, Prim) -> Block

  /** Each tracked primitive's block has exactly its count of rows. */
  predicate FitsAt(f: Interaction, q: Pose, ps: seq<Prim>) {
    forall k :: 0 <= k < |ps| && ps[k].tracked ==> BlockFits(f(q, ps[k]), Count(ps[k]))
  }

  lemma FitsAtSplit(f: Interaction, q: Pose, a: seq<Prim>, b: seq<Prim>)
    ensures FitsAt(f, q, a + b) <==> FitsAt(f, q, a) && FitsAt(f, q, b)
  {
    if FitsAt(f, q, a) && FitsAt(f, q, b) {
      forall k | 0 <= k < |a + b| && (a + b)[k].tracked
        ensures BlockFits(f(q, (a + b)[k]), Count((a + b)[k]))
      {
        if k >= |a| { assert (a + b)[k] == b[k - |a|]; }
      }
    }
    if FitsAt(f, q, a + b) {
      forall k | 0 <= k < |b| && b[k].tracked ensures BlockFits(f(q, b[k]), Count(b[k])) {
        assert (a + b)[|a| + k] == b[k];
      }
      forall k | 0 <= k < |a| && a[k].tracked ensures BlockFits(f(q, a[k]), Count(a[k])) {
        assert (a + b)[k] == a[k];
      }
    }
  }

  /** The error entries the second loop copies, tracked primitive after tracked primitive. */
  function ErrorRows(ps: seq<Prim>, f: Interaction, q: Pose): (r: seq<real>)
    requires FitsAt(f, q, ps)
    ensures |r| == TrackedRows(ps)
  {
    if ps == [] then []
    else
      var last := ps[|ps| - 1];
      assert FitsAt(f, q, ps[..|ps| - 1]) by { FitsAtSplit(f, q, ps[..|ps| - 1], [last]); assert ps == ps[..|ps| - 1] + [last]; }
      ErrorRows(ps[..|ps| - 1], f, q) + (if last.tracked then f(q, last).error else [])
  }

  /** The interaction-matrix rows the second loop copies. */
  function LRows(ps: seq<Prim>, f: Interaction, q: Pose): (r: seq<seq<real>>)
    requires FitsAt(f, q, ps)
    ensures |r| == TrackedRows(ps)
    ensures forall i :: 0 <= i < |r| ==> |r[i]| == 6
  {
    if ps == [] then []
    else
      var last := ps[|ps| - 1];
      assert FitsAt(f, q, ps[..|ps| - 1]) by { FitsAtSplit(f, q, ps[..|ps| - 1], [last]); assert ps == ps[..|ps| - 1] + [last]; }
      LRows(ps[..|ps| - 1], f, q) + (if last.tracked then f(q, last).L else [])
  }

  /** Row i of tracked primitive k lands at flat row `Offset(ps, k) + i`. */
  lemma {:induction false} ErrorRowsAt(ps: seq<Prim>, f: Interaction, q: Pose, k: nat, i: nat)
    requires FitsAt(f, q, ps) && k < |ps| && ps[k].tracked && i < Count(ps[k])
    ensures Offset(ps, k) + i < |ErrorRows(ps, f, q)|
    ensures ErrorRows(ps, f, q)[Offset(ps, k) + i] == f(q, ps[k]).error[i]
    ensures LRows(ps, f, q)[Offset(ps, k) + i] == f(q, ps[k]).L[i]
  {
    var init := ps[..|ps| - 1];
    assert ps == init + [ps[|ps| - 1]];
    FitsAtSplit(f, q, init, [ps[|ps| - 1]]);
    if k == |ps| - 1 {
      assert ps[..k] == init;
    } else {
      assert init[..k] == ps[..k];
      assert init[k] == ps[k];
      ErrorRowsAt(init, f, q, k, i);
    }
  }

  /** Walking a list in order, each tracked primitive appends its block. */
  lemma RowsStep(ps: seq<Prim>, f: Interaction, q: Pose, k: nat)
    requires FitsAt(f, q, ps) && k < |ps|
    ensures FitsAt(f, q, ps[..k]) && FitsAt(f, q, ps[..k + 1])
    ensures TrackedRows(ps[..k + 1]) == TrackedRows(ps[..k]) + TrackedCount(ps[k])
    ensures TrackedRows(ps[..k + 1]) <= TrackedRows(ps)
    ensures ErrorRows(ps[..k + 1], f, q) ==
      ErrorRows(ps[..k], f, q) + (if ps[k].tracked then f(q, ps[k]).error else [])
    ensures LRows(ps[..k + 1], f, q) == LRows(ps[..k], f, q) + (if ps[k].tracked then f(q, ps[k]).L else [])
  {
    assert ps == ps[..k + 1] + ps[k + 1..];
    FitsAtSplit(f, q, ps[..k + 1], ps[k + 1..]);
    assert ps[..k + 1] == ps[..k] + [ps[k]];
    FitsAtSplit(f, q, ps[..k], [ps[k]]);
    assert ps[..k + 1][..k] == ps[..k];
    OffsetBound(ps, k);
    OffsetStep(ps, k);
  }

  lemma {:induction false} ErrorRowsAppend(a: seq<Prim>, b: seq<Prim>, f: Interaction, q: Pose)
    requires FitsAt(f, q, a) && FitsAt(f, q, b)
    ensures FitsAt(f, q, a + b)
    ensures ErrorRows(a + b, f, q) == ErrorRows(a, f, q) + ErrorRows(b, f, q)
    ensures LRows(a + b, f, q) == LRows(a, f, q) + LRows(b, f, q)
  {
    FitsAtSplit(f, q, a, b);
    if b != [] {
      var binit := b[..|b| - 1];
      assert b == binit + [b[|b| - 1]];
      FitsAtSplit(f, q, binit, [b[|b| - 1]]);
      assert (a + b)[..|a + b| - 1] == a + binit;
      ErrorRowsAppend(a, binit, f, q);
    } else {
      assert a + b == a;
    }
  }

  // ---------------------------------------------------------------------------------------------
  // Weight feedback (postTrackingMbt)

  /** Sites whose weight is below 0.5 become MEstimator; the others and the sites past the
      weights keep their state. */
  function Flag(sites: seq<SiteState>, ws: seq<real>): (r: seq<SiteState>)
    requires |ws| <= |sites|
    ensures |r| == |sites|
  {
    seq(|sites|, i requires 0 <= i < |sites| => if i < |ws| && ws[i] < 0.5 then MEstimator else sites[i])
  }

  /** The relabelling of a row-state sequence by the weights of the same rows. */
  function Relabel(states: seq<SiteState>, ws: seq<real>): (r: seq<SiteState>)
    requires |ws| == |states|
    ensures |r| == |states|
  {
    seq(|states|, i requires 0 <= i < |states| => if ws[i] < 0.5 then MEstimator else states[i])
  }

  function FlagSegments(segs: seq<MeSegment>, ws: seq<real>): (r: seq<MeSegment>)
    requires SegmentsWellFormed(segs) && |ws| == SegFeatures(segs)
    ensures |r| == |segs|
  {
    if segs == [] then []
    else
      var init := segs[..|segs| - 1];
      var last := segs[|segs| - 1];
      var m := SegFeatures(init);
      FlagSegments(init, ws[..m]) + [last.(sites := Flag(last.sites, ws[m..]))]
  }

  /** List a of a line is flagged by the weights of its own rows, which start where the rows of
      the lists before it end. */
  lemma {:induction false} FlagSegmentsAt(segs: seq<MeSegment>, ws: seq<real>, a: nat)
    requires SegmentsWellFormed(segs) && |ws| == SegFeatures(segs) && a < |segs|
    ensures SegFeatures(segs[..a]) + segs[a].nbFeature <= |ws|
    ensures var o := SegFeatures(segs[..a]);
      FlagSegments(segs, ws)[a] == segs[a].(sites := Flag(segs[a].sites, ws[o..o + segs[a].nbFeature]))
  {
    SegFeaturesPrefix(segs, a);
    var init := segs[..|segs| - 1];
    var m := SegFeatures(init);
    var o := SegFeatures(segs[..a]);
    if a == |segs| - 1 {
      assert segs[..a] == init;
      assert ws[m..] == ws[o..o + segs[a].nbFeature];
    } else {
      assert init[..a] == segs[..a];
      assert init[a] == segs[a];
      SegFeaturesPrefix(init, a);
      FlagSegmentsAt(init, ws[..m], a);
      assert ws[..m][o..o + segs[a].nbFeature] == ws[o..o + segs[a].nbFeature];
    }
  }

  /** Two moving-edge lists with the same existence, feature count and number of sites. */
  predicate SameShape(x: MeSegment, y: MeSegment) {
    x.present == y.present && x.nbFeature == y.nbFeature && |x.sites| == |y.sites|
  }

  lemma {:induction false} SameShapeCounts(xs: seq<MeSegment>, ys: seq<MeSegment>)
    requires |xs| == |ys| && forall a :: 0 <= a < |xs| ==> SameShape(xs[a], ys[a])
    ensures SegFeatures(xs) == SegFeatures(ys)
    ensures SegmentsWellFormed(xs) <==> SegmentsWellFormed(ys)
  {
    if xs != [] {
      SameShapeCounts(xs[..|xs| - 1], ys[..|ys| - 1]);
    }
  }

  lemma {:induction false} FlagSegmentsShape(segs: seq<MeSegment>, ws: seq<real>)
    requires SegmentsWellFormed(segs) && |ws| == SegFeatures(segs)
    ensures forall a :: 0 <= a < |segs| ==> SameShape(FlagSegments(segs, ws)[a], segs[a])
    ensures SegmentsWellFormed(FlagSegments(segs, ws))
    ensures SegFeatures(FlagSegments(segs, ws)) == SegFeatures(segs)
  {
    var r := FlagSegments(segs, ws);
    if segs != [] {
      var init := segs[..|segs| - 1];
      var m := SegFeatures(init);
      FlagSegmentsShape(init, ws[..m]);
      forall a | 0 <= a < |segs| ensures SameShape(r[a], segs[a]) {
        if a < |segs| - 1 {
          assert r[a] == FlagSegments(init, ws[..m])[a];
          assert segs[a] == init[a];
        }
      }
    }
    SameShapeCounts(r, segs);
  }

  lemma RelabelAppend(a: seq<SiteState>, b: seq<SiteState>, ws: seq<real>)
    requires |ws| == |a| + |b|
    ensures Relabel(a + b, ws) == Relabel(a, ws[..|a|]) + Relabel(b, ws[|a|..])
  {
  }

  lemma FlagPrefix(sites: seq<SiteState>, ws: seq<real>, nb: nat)
    requires |ws| == nb <= |sites|
    ensures Flag(sites, ws)[..nb] == Relabel(sites[..nb], ws)
  {
  }

  /** Flagging the lists of a line relabels its rows by their weights. */
  lemma {:induction false} SegStatesFlag(segs: seq<MeSegment>, ws: seq<real>)
    requires SegmentsWellFormed(segs) && |ws| == SegFeatures(segs)
    ensures SegmentsWellFormed(FlagSegments(segs, ws))
    ensures SegStates(FlagSegments(segs, ws)) == Relabel(SegStates(segs), ws)
  {
    FlagSegmentsShape(segs, ws);
    if segs != [] {
      var init := segs[..|segs| - 1];
      var last := segs[|segs| - 1];
      var m := SegFeatures(init);
      var r := FlagSegments(segs, ws);
      var rinit := FlagSegments(init, ws[..m]);
      SegStatesFlag(init, ws[..m]);
      assert r[..|r| - 1] == rinit;
      var newLast := last.(sites := Flag(last.sites, ws[m..]));
      assert r[|r| - 1] == newLast;
      var tail := if last.present then last.sites[..last.nbFeature] else [];
      var newTail := if newLast.present then newLast.sites[..newLast.nbFeature] else [];
      if last.present { FlagPrefix(last.sites, ws[m..], last.nbFeature); }
      assert newTail == Relabel(tail, ws[m..]);
      assert SegStates(r) == SegStates(rinit) + newTail;
      assert SegStates(segs) == SegStates(init) + tail;
      RelabelAppend(SegStates(init), tail, ws);
      assert ws[..m] == ws[..|SegStates(init)|];
    }
  }

  /** The mean weight of a primitive's rows, 1 when it has none. */
  function Mean(ws: seq<real>): real {
    if |ws| == 0 then 1.0 else Sum(ws) / (|ws| as real)
  }

  /** The feedback postTrackingMbt gives one tracked primitive from the weights of its rows. */
  function Feedback(p: Prim, ws: seq<real>): (r: Prim)
    requires WellFormed(p) && |ws| == Count(p)
  {
    match p
    case Line(_, _, segs, _, _, _, _, _) =>
      var m := Mean(ws);
      p.(segments := FlagSegments(segs, ws), meanWeight := m, reinit := p.reinit || m < 0.8)
    case Cylinder(_, _, _, l1, _, s1, s2, _, _, _) =>
      var m1 := Mean(ws[..l1]);
      var m2 := Mean(ws[l1..]);
      p.(sites1 := Flag(s1, ws[..l1]), sites2 := Flag(s2, ws[l1..]),
         meanWeight1 := m1, meanWeight2 := m2, reinit := p.reinit || m1 < 0.8 || m2 < 0.8)
    case Circle(_, _, _, s, _, _) =>
      var m := Mean(ws);
      p.(sites := Flag(s, ws), meanWeight := m, reinit := p.reinit || m < 0.8)
  }

  /** What feedback does: the layout stays, each row's site becomes MEstimator exactly when its
      weight is below 0.5, the mean weights are those of the rows and Reinit is only ever set. */
  lemma FeedbackEffect(p: Prim, ws: seq<real>)
    requires WellFormed(p) && |ws| == Count(p)
    ensures var r := Feedback(p, ws);
      && WellFormed(r) && Count(r) == Count(p)
      && r.tracked == p.tracked && r.visible == p.visible
      && RowStates(r) == Relabel(RowStates(p), ws)
      && (p.reinit ==> r.reinit)
      && (r.Line? || r.Circle? ==> r.meanWeight == Mean(ws) && (r.reinit <==> p.reinit || Mean(ws) < 0.8))
      && (r.Cylinder? ==>
            r.meanWeight1 == Mean(ws[..p.nbFeaturel1]) && r.meanWeight2 == Mean(ws[p.nbFeaturel1..]) &&
            (r.reinit <==> p.reinit || r.meanWeight1 < 0.8 || r.meanWeight2 < 0.8))
  {
    var r := Feedback(p, ws);
    match p
    case Line(_, _, segs, _, _, _, _, _) =>
      FlagSegmentsShape(segs, ws);
      SegStatesFlag(segs, ws);
    case Cylinder(_, _, _, l1, l2, s1, s2, _, _, _) =>
      assert RowStates(r) == Flag(s1, ws[..l1])[..l1] + Flag(s2, ws[l1..])[..l2];
      assert Relabel(RowStates(p), ws) == Relabel(s1[..l1], ws[..l1]) + Relabel(s2[..l2], ws[l1..]);
    case Circle(_, _, nb, s, _, _) =>
      assert RowStates(r) == Flag(s, ws)[..nb];
  }

  /** postTrackingMbt over one list: tracked primitives get the weights at their offsets. */
  function FeedbackList(ps: seq<Prim>, w: seq<real>): (r: seq<Prim>)
    requires AllWellFormed(ps) && TrackedRows(ps) <= |w|
    ensures |r| == |ps|
  {
    if ps == [] then []
    else
      var init := ps[..|ps| - 1];
      var last := ps[|ps| - 1];
      var n := TrackedRows(init);
      FeedbackList(init, w) + [if last.tracked then Feedback(last, w[n..n + Count(last)]) else last]
  }

  /** Primitive k gets exactly the slice of weights at its own offset; untracked ones are left alone. */
  lemma {:induction false} FeedbackListAt(ps: seq<Prim>, w: seq<real>, k: nat)
    requires AllWellFormed(ps) && TrackedRows(ps) <= |w| && k < |ps|
    ensures Offset(ps, k) + TrackedCount(ps[k]) <= |w|
    ensures FeedbackList(ps, w)[k] ==
      if ps[k].tracked then Feedback(ps[k], w[Offset(ps, k)..Offset(ps, k) + Count(ps[k])]) else ps[k]
  {
    OffsetBound(ps, k);
    var init := ps[..|ps| - 1];
    if k == |ps| - 1 {
      assert ps[..k] == init;
    } else {
      assert init[..k] == ps[..k];
      assert init[k] == ps[k];
      FeedbackListAt(init, w, k);
    }
  }

  /** Two lists whose primitives agree on the flags and counts that decide the row layout. */
  predicate SameLayout(xs: seq<Prim>, ys: seq<Prim>) {
    |xs| == |ys| &&
    forall k :: 0 <= k < |xs| ==>
      xs[k].tracked == ys[k].tracked && xs[k].visible == ys[k].visible && Count(xs[k]) == Count(ys[k])
  }

  lemma {:induction false} SameLayoutRows(xs: seq<Prim>, ys: seq<Prim>)
    requires SameLayout(xs, ys)
    ensures TrackedRows(xs) == TrackedRows(ys) && VisibleRows(xs) == VisibleRows(ys)
  {
    if xs != [] {
      SameLayoutRows(xs[..|xs| - 1], ys[..|ys| - 1]);
    }
  }

  /** Feedback keeps the layout: well-formedness, flags and row counts of every primitive. */
  lemma FeedbackListLayout(ps: seq<Prim>, w: seq<real>)
    requires AllWellFormed(ps) && TrackedRows(ps) <= |w|
    ensures AllWellFormed(FeedbackList(ps, w))
    ensures SameLayout(FeedbackList(ps, w), ps)
    ensures TrackedRows(FeedbackList(ps, w)) == TrackedRows(ps)
    ensures VisibleRows(FeedbackList(ps, w)) == VisibleRows(ps)
  {
    var r := FeedbackList(ps, w);
    forall k | 0 <= k < |ps|
      ensures WellFormed(r[k]) && r[k].tracked == ps[k].tracked && r[k].visible == ps[k].visible
      ensures Count(r[k]) == Count(ps[k])
    {
      FeedbackListAt(ps, w, k);
      if ps[k].tracked {
        FeedbackEffect(ps[k], w[Offset(ps, k)..Offset(ps, k) + Count(ps[k])]);
      }
    }
    SameLayoutRows(r, ps);
  }

  lemma AllWellFormedAppend(a: seq<Prim>, b: seq<Prim>)
    requires AllWellFormed(a) && AllWellFormed(b)
    ensures AllWellFormed(a + b)
  {
    forall k | 0 <= k < |a + b| ensures WellFormed((a + b)[k]) {
      if k < |a| { assert (a + b)[k] == a[k]; } else { assert (a + b)[k] == b[k - |a|]; }
    }
  }

  /** The rows of a level: those of its lines, then its cylinders, then its circles. */
  lemma LevelRows(lv: Level, f: Interaction, q: Pose)
    requires FitsAt(f, q, lv.All())
    ensures FitsAt(f, q, lv.lines) && FitsAt(f, q, lv.cylinders) && FitsAt(f, q, lv.circles)
    ensures TrackedRows(lv.All()) == TrackedRows(lv.lines) + TrackedRows(lv.cylinders) + TrackedRows(lv.circles)
    ensures ErrorRows(lv.All(), f, q) == ErrorRows(lv.lines, f, q) + ErrorRows(lv.cylinders, f, q) + ErrorRows(lv.circles, f, q)
    ensures LRows(lv.All(), f, q) == LRows(lv.lines, f, q) + LRows(lv.cylinders, f, q) + LRows(lv.circles, f, q)
  {
    TrackedRowsAppend(lv.lines, lv.cylinders);
    TrackedRowsAppend(lv.lines + lv.cylinders, lv.circles);
    FitsAtSplit(f, q, lv.lines + lv.cylinders, lv.circles);
    FitsAtSplit(f, q, lv.lines, lv.cylinders);
    ErrorRowsAppend(lv.lines, lv.cylinders, f, q);
    ErrorRowsAppend(lv.lines + lv.cylinders, lv.circles, f, q);
  }

  /** What the moving-edge collaborator guarantees of every list of a level. */
  predicate LevelWellFormed(lv: Level) {
    AllWellFormed(lv.lines) && AllWellFormed(lv.cylinders) && AllWellFormed(lv.circles)
  }

  lemma LevelAllWellFormed(lv: Level)
    requires LevelWellFormed(lv)
    ensures AllWellFormed(lv.All())
    ensures TrackedRows(lv.All()) == TrackedRows(lv.lines) + TrackedRows(lv.cylinders) + TrackedRows(lv.circles)
    ensures VisibleRows(lv.All()) == VisibleRows(lv.lines) + VisibleRows(lv.cylinders) + VisibleRows(lv.circles)
  {
    var ab := lv.lines + lv.cylinders;
    AllWellFormedAppend(lv.lines, lv.cylinders);
    AllWellFormedAppend(ab, lv.circles);
    TrackedRowsAppend(lv.lines, lv.cylinders);
    TrackedRowsAppend(ab, lv.circles);
    VisibleRowsAppend(lv.lines, lv.cylinders);
    VisibleRowsAppend(ab, lv.circles);
  }

  /** postTrackingMbt on a level: lines, then cylinders, then circles, with one running offset. */
  function FeedbackLevel(lv: Level, w: seq<real>): (r: Level)
    requires LevelWellFormed(lv) && TrackedRows(lv.All()) <= |w|
  {
    LevelAllWellFormed(lv);
    var n1 := TrackedRows(lv.lines);
    var n2 := n1 + TrackedRows(lv.cylinders);
    Level(FeedbackList(lv.lines, w), FeedbackList(lv.cylinders, w[n1..]), FeedbackList(lv.circles, w[n2..]))
  }

  /** Feedback on a level keeps each list's layout, so the row counts of the next frame's
      passes agree with this frame's. */
  lemma FeedbackLevelLayout(lv: Level, w: seq<real>)
    requires LevelWellFormed(lv) && TrackedRows(lv.All()) <= |w|
    ensures TrackedRows(lv.lines) + TrackedRows(lv.cylinders) + TrackedRows(lv.circles) <= |w|
    ensures var r := FeedbackLevel(lv, w);
      && LevelWellFormed(r)
      && SameLayout(r.lines, lv.lines) && SameLayout(r.cylinders, lv.cylinders) && SameLayout(r.circles, lv.circles)
      && TrackedRows(r.All()) == TrackedRows(lv.All()) && VisibleRows(r.All()) == VisibleRows(lv.All())
  {
    LevelAllWellFormed(lv);
    var n1 := TrackedRows(lv.lines);
    var n2 := n1 + TrackedRows(lv.cylinders);
    FeedbackListLayout(lv.lines, w);
    FeedbackListLayout(lv.cylinders, w[n1..]);
    FeedbackListLayout(lv.circles, w[n2..]);
    LevelAllWellFormed(FeedbackLevel(lv, w));
  }

  /** The weights postTrackingMbt reads: w itself when it covers the n tracked rows, otherwise
      w followed by ones for the rows it misses, the weight every row has before the
      M-estimator runs. */
  function PadWeights(w: seq<real>, n: nat): (r: seq<real>)
    ensures |r| == if n <= |w| then |w| else n
    ensures forall i :: 0 <= i < |w| ==> r[i] == w[i]
    ensures forall i :: |w| <= i < |r| ==> r[i] == 1.0
    ensures n <= |w| ==> r == w
  {
    if n <= |w| then w else w + Constant(n - |w|, 1.0)
  }

  /** Same primitives with the same site states and the same Reinit requests. */
  predicate SameStates(xs: seq<Prim>, ys: seq<Prim>) {
    && AllWellFormed(xs) && AllWellFormed(ys) && |xs| == |ys|
    && forall k :: 0 <= k < |xs| ==> RowStates(xs[k]) == RowStates(ys[k]) && xs[k].reinit == ys[k].reinit
  }

  lemma MeanOnes(ws: seq<real>)
    requires forall i :: 0 <= i < |ws| ==> ws[i] == 1.0
    ensures Mean(ws) == 1.0
  {
    SumOnes(ws);
  }

  lemma RelabelOnes(states: seq<SiteState>, ws: seq<real>)
    requires |ws| == |states| && forall i :: 0 <= i < |ws| ==> ws[i] == 1.0
    ensures Relabel(states, ws) == states
  {
  }

  /** Weights of 1 flag no site and request no reinit. */
  lemma FeedbackUnitWeights(p: Prim, ws: seq<real>)
    requires WellFormed(p) && |ws| == Count(p)
    requires forall i :: 0 <= i < |ws| ==> ws[i] == 1.0
    ensures WellFormed(Feedback(p, ws))
    ensures RowStates(Feedback(p, ws)) == RowStates(p) && Feedback(p, ws).reinit == p.reinit
  {
    FeedbackEffect(p, ws);
    RelabelOnes(RowStates(p), ws);
    if p.Cylinder? {
      MeanOnes(ws[..p.nbFeaturel1]);
      MeanOnes(ws[p.nbFeaturel1..]);
    } else {
      MeanOnes(ws);
    }
  }

  lemma FeedbackSliceUnit(p: Prim, w: seq<real>, o: nat)
    requires WellFormed(p) && o + Count(p) <= |w|
    requires forall i :: 0 <= i < |w| ==> w[i] == 1.0
    ensures WellFormed(Feedback(p, w[o..o + Count(p)]))
    ensures RowStates(Feedback(p, w[o..o + Count(p)])) == RowStates(p)
    ensures Feedback(p, w[o..o + Count(p)]).reinit == p.reinit
  {
    FeedbackUnitWeights(p, w[o..o + Count(p)]);
  }

  lemma FeedbackListUnitAt(ps: seq<Prim>, w: seq<real>, k: nat)
    requires AllWellFormed(ps) && TrackedRows(ps) <= |w| && k < |ps|
    requires forall i :: 0 <= i < |w| ==> w[i] == 1.0
    ensures WellFormed(FeedbackList(ps, w)[k])
    ensures RowStates(FeedbackList(ps, w)[k]) == RowStates(ps[k])
    ensures FeedbackList(ps, w)[k].reinit == ps[k].reinit
  {
    var o := Offset(ps, k);
    OffsetBound(ps, k);
    var q := FeedbackList(ps, w)[k];
    FeedbackListAt(ps, w, k);
    if ps[k].tracked {
      FeedbackSliceUnit(ps[k], w, o);
      UnitTracked(q, ps[k], w[o..o + Count(ps[k])]);
    } else {
      assert q == ps[k];
    }
  }

  lemma UnitTracked(q: Prim, p: Prim, ws: seq<real>)
    requires WellFormed(p) && |ws| == Count(p) && q == Feedback(p, ws)
    requires WellFormed(Feedback(p, ws)) && RowStates(Feedback(p, ws)) == RowStates(p)
    requires Feedback(p, ws).reinit == p.reinit
    ensures WellFormed(q) && RowStates(q) == RowStates(p) && q.reinit == p.reinit
  {
  }

  lemma FeedbackListUnitWeights(ps: seq<Prim>, w: seq<real>)
    requires AllWellFormed(ps) && TrackedRows(ps) <= |w|
    requires forall i :: 0 <= i < |w| ==> w[i] == 1.0
    ensures SameStates(FeedbackList(ps, w), ps)
  {
    var r := FeedbackList(ps, w);
    FeedbackListLayout(ps, w);
    forall k | 0 <= k < |ps| ensures RowStates(r[k]) == RowStates(ps[k]) && r[k].reinit == ps[k].reinit {
      FeedbackListUnitAt(ps, w, k);
    }
  }

  lemma UnitSuffix(w: seq<real>, n: nat)
    requires n <= |w| && forall i :: 0 <= i < |w| ==> w[i] == 1.0
    ensures forall i :: 0 <= i < |w[n..]| ==> w[n..][i] == 1.0
  {
  }

  /** Feedback from weights that are all 1 (the padding of an empty w) leaves every site state
      and every Reinit flag of the level as it was. */
  lemma FeedbackLevelUnitWeights(lv: Level, w: seq<real>)
    requires LevelWellFormed(lv) && TrackedRows(lv.All()) <= |w|
    requires forall i :: 0 <= i < |w| ==> w[i] == 1.0
    ensures var r := FeedbackLevel(lv, w);
      && SameStates(r.lines, lv.lines) && SameStates(r.cylinders, lv.cylinders)
      && SameStates(r.circles, lv.circles)
  {
    LevelAllWellFormed(lv);
    var n1 := TrackedRows(lv.lines);
    var n2 := n1 + TrackedRows(lv.cylinders);
    var r := FeedbackLevel(lv, w);
    FeedbackListUnitWeights(lv.lines, w);
    assert r.lines == FeedbackList(lv.lines, w);
    UnitSuffix(w, n1);
    FeedbackListUnitWeights(lv.cylinders, w[n1..]);
    assert r.cylinders == FeedbackList(lv.cylinders, w[n1..]);
    UnitSuffix(w, n2);
    FeedbackListUnitWeights(lv.circles, w[n2..]);
    assert r.circles == FeedbackList(lv.circles, w[n2..]);
  }
}
