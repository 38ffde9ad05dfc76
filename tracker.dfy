/** The hybrid edge + KLT tracker object (vpMbEdgeKltTracker): its contour passes over the
    flat buffers, the VVS pose loop that fuses both modalities, and the weight feedback to the
    moving-edge sites. */
module Tracker {
  import opened Common
  import opened Primitives
  import opened Klt
  import opened Vvs

  // ---------------------------------------------------------------------------------------------
  // Loops over one list of primitives

  /** One list's share of the initMbtTracking count. */
  method CountVisibleRows(ps: seq<Prim>) returns (n: nat)
    ensures n == VisibleRows(ps)
  {
    n := 0;
    var k := 0;
    while k < |ps|
      invariant 0 <= k <= |ps|
      invariant n == VisibleRows(ps[..k])
    {
      assert ps[..k + 1][..k] == ps[..k];
      if ps[k].visible && ps[k].tracked {
        n := n + Count(ps[k]);
      }
      k := k + 1;
    }
    assert ps[..k] == ps;
  }

  /** The walk over a line's faces that picks its base factor. */
  method LineBaseFactor(faces: seq<bool>, nearBorder: bool) returns (fac: real)
    ensures fac == BaseFactor(faces, nearBorder)
  {
    fac := 1.0;
    var i := 0;
    while i < |faces|
      invariant 0 <= i <= |faces|
      invariant fac == 1.0 && BaseFactor(faces, nearBorder) == BaseFactor(faces[i..], nearBorder)
    {
      if faces[i] {
        fac := 0.2;
        break;
      }
      if nearBorder {
        fac := 0.1;
        break;
      }
      assert faces[i..][1..] == faces[i + 1..];
      i := i + 1;
    }
  }

  /** Writes the factor of each of `count` rows from `base` and the states of their sites. */
  method WriteSiteFactors(a: array<real>, n: nat, base: real, sites: seq<SiteState>, count: nat)
    requires count <= |sites| && n + count <= a.Length
    modifies a
    ensures forall r :: n <= r < n + count ==> a[r] == SiteFactor(base, sites[r - n])
    ensures forall r :: 0 <= r < a.Length && !(n <= r < n + count) ==> a[r] == old(a[r])
  {
    var i := 0;
    while i < count
      invariant 0 <= i <= count
      invariant forall r :: n <= r < n + i ==> a[r] == SiteFactor(base, sites[r - n])
      invariant forall r :: 0 <= r < a.Length && !(n <= r < n + i) ==> a[r] == old(a[r])
    {
      a[n + i] := base;
      if sites[i] != NoSuppression {
        a[n + i] := 0.2;
      }
      i := i + 1;
    }
  }

  /** One list of a line: a present list writes the factors of its sites at row m. */
  method WriteSegmentFactors(a: array<real>, n: nat, m: nat, fac: real, seg: MeSegment, ghost done: seq<SiteState>)
    returns (m': nat, ghost done': seq<SiteState>)
    requires seg.nbFeature <= |seg.sites| && m == n + |done| && m + |SegTail(seg)| <= a.Length
    requires forall r :: n <= r < m ==> a[r] == SiteFactor(fac, done[r - n])
    modifies a
    ensures done' == done + SegTail(seg) && m' == n + |done'|
    ensures forall r :: n <= r < m' ==> a[r] == SiteFactor(fac, done'[r - n])
    ensures forall r :: 0 <= r < a.Length && !(m <= r < m') ==> a[r] == old(a[r])
  {
    m', done' := m, done + SegTail(seg);
    if seg.present {
      WriteSiteFactors(a, m, fac, seg.sites, seg.nbFeature);
      m' := m + seg.nbFeature;
      forall r | m <= r < m'
        ensures a[r] == SiteFactor(fac, done'[r - n])
      {
        assert done'[r - n] == seg.sites[r - m];
      }
    }
  }

  /** The first loop's work on one tracked line: the base factor, then list after list. */
  method WriteLineFactors(a: array<real>, n: nat, p: Prim)
    requires p.Line? && WellFormed(p) && n + Count(p) <= a.Length
    modifies a
    ensures forall r :: n <= r < n + Count(p) ==> a[r] == RowFactors(p)[r - n]
    ensures forall r :: 0 <= r < n ==> a[r] == old(a[r])
  {
    var fac := LineBaseFactor(p.faceAppearing, p.nearBorder);
    var segs := p.segments;
    var m := n;
    var s := 0;
    ghost var done: seq<SiteState> := [];
    while s < |segs|
      invariant 0 <= s <= |segs|
      invariant SegmentsWellFormed(segs[..s]) && done == SegStates(segs[..s])
      invariant m == n + |done| && SegFeatures(segs[..s]) <= SegFeatures(segs)
      invariant forall r :: n <= r < m ==> a[r] == SiteFactor(fac, done[r - n])
      invariant forall r :: 0 <= r < n ==> a[r] == old(a[r])
    {
      SegStatesStep(segs, s);
      m, done := WriteSegmentFactors(a, n, m, fac, segs[s], done);
      s := s + 1;
    }
    assert segs[..s] == segs;
  }

  /** The first loop's work on one tracked cylinder or circle. */
  method WriteContourFactors(a: array<real>, n: nat, p: Prim)
    requires !p.Line? && WellFormed(p) && n + Count(p) <= a.Length
    modifies a
    ensures forall r :: n <= r < n + Count(p) ==> a[r] == RowFactors(p)[r - n]
    ensures forall r :: 0 <= r < n ==> a[r] == old(a[r])
  {
    var fac := 1.0;
    if p.Cylinder? {
      var i := 0;
      while i < p.nbFeature
        invariant 0 <= i <= p.nbFeature
        invariant forall r :: n <= r < n + i ==> a[r] == RowFactors(p)[r - n]
        invariant forall r :: 0 <= r < n ==> a[r] == old(a[r])
      {
        var site := if i < p.nbFeaturel1 then p.sites1[i] else p.sites2[i - p.nbFeaturel1];
        CylinderRowStates(p, i);
        a[n + i] := fac;
        if site != NoSuppression {
          a[n + i] := 0.2;
        }
        i := i + 1;
      }
    } else {
      WriteSiteFactors(a, n, fac, p.sites, p.nbFeature);
    }
  }

  /** The first loop's work on one tracked primitive, at row n. */
  method WritePrimFactors(a: array<real>, n: nat, p: Prim)
    requires WellFormed(p) && n + Count(p) <= a.Length
    modifies a
    ensures forall r :: n <= r < n + Count(p) ==> a[r] == RowFactors(p)[r - n]
    ensures forall r :: 0 <= r < n ==> a[r] == old(a[r])
  {
    if p.Line? {
      WriteLineFactors(a, n, p);
    } else {
      WriteContourFactors(a, n, p);
    }
  }

  /** A buffer holding x, then y right after it, holds x + y. */
  lemma WrittenAppend(a: array<real>, x: seq<real>, y: seq<real>)
    requires |x| + |y| <= a.Length
    requires forall r :: 0 <= r < |x| ==> a[r] == x[r]
    requires forall r :: |x| <= r < |x| + |y| ==> a[r] == y[r - |x|]
    ensures forall r :: 0 <= r < |x| + |y| ==> a[r] == (x + y)[r]
  {
  }

  /** One turn of the first loop: a tracked primitive writes its factors at offset n. */
  method WriteNextFactors(a: array<real>, p: Prim, n: nat, ghost done: seq<real>)
    returns (n': nat, ghost done': seq<real>)
    requires WellFormed(p) && n == |done| && n + TrackedCount(p) <= a.Length
    requires forall r :: 0 <= r < n ==> a[r] == done[r]
    modifies a
    ensures n' == n + TrackedCount(p) && done' == done + (if p.tracked then RowFactors(p) else [])
    ensures forall r :: 0 <= r < n' ==> a[r] == done'[r]
  {
    if p.tracked {
      ghost var rows := RowFactors(p);
      WritePrimFactors(a, n, p);
      WrittenAppend(a, done, rows);
      n', done' := n + Count(p), done + rows;
    } else {
      n', done' := n, done;
    }
  }

  /** The first loop: tracked primitives write their factors at the running offset. */
  method WriteListFactors(a: array<real>, ps: seq<Prim>) returns (n: nat)
    requires AllWellFormed(ps) && TrackedRows(ps) <= a.Length
    modifies a
    ensures n == TrackedRows(ps)
    ensures forall r :: 0 <= r < n ==> a[r] == FactorVector(ps)[r]
  {
    n := 0;
    var k := 0;
    ghost var done: seq<real> := [];
    while k < |ps|
      invariant 0 <= k <= |ps|
      invariant AllWellFormed(ps[..k]) && done == FactorVector(ps[..k])
      invariant n == |done| && |done| <= TrackedRows(ps)
      invariant forall r :: 0 <= r < n ==> a[r] == done[r]
    {
      FactorVectorStep(ps, k);
      n, done := WriteNextFactors(a, ps[k], n, done);
      k := k + 1;
    }
    assert ps[..k] == ps;
  }

  /** Copies a block of `count` rows into the flat buffers at row n, entry by entry. */
  method CopyBlock(L: array2<real>, err: array<real>, n: nat, b: Block, count: nat)
    requires BlockFits(b, count) && n + count <= err.Length && err.Length == L.Length0 && L.Length1 == 6
    modifies L, err
    ensures forall r :: n <= r < n + count ==> err[r] == b.error[r - n]
    ensures forall r, j :: n <= r < n + count && 0 <= j < 6 ==> L[r, j] == b.L[r - n][j]
    ensures forall r :: 0 <= r < err.Length && !(n <= r < n + count) ==> err[r] == old(err[r])
    ensures forall r, j :: 0 <= r < L.Length0 && 0 <= j < 6 && !(n <= r < n + count) ==> L[r, j] == old(L[r, j])
  {
    var i := 0;
    while i < count
      invariant 0 <= i <= count
      invariant forall r :: n <= r < n + i ==> err[r] == b.error[r - n]
      invariant forall r, j :: n <= r < n + i && 0 <= j < 6 ==> L[r, j] == b.L[r - n][j]
      invariant forall r :: 0 <= r < err.Length && !(n <= r < n + i) ==> err[r] == old(err[r])
      invariant forall r, j :: 0 <= r < L.Length0 && 0 <= j < 6 && !(n <= r < n + i) ==> L[r, j] == old(L[r, j])
    {
      var j := 0;
      while j < 6
        invariant 0 <= j <= 6
        invariant forall r :: n <= r < n + i ==> err[r] == b.error[r - n]
        invariant j > 0 ==> err[n + i] == b.error[i]
        invariant forall r, j' :: n <= r < n + i && 0 <= j' < 6 ==> L[r, j'] == b.L[r - n][j']
        invariant forall j' :: 0 <= j' < j ==> L[n + i, j'] == b.L[i][j']
        invariant forall r :: 0 <= r < err.Length && !(n <= r < n + i + 1) ==> err[r] == old(err[r])
        invariant j == 0 ==> err[n + i] == old(err[n + i])
        invariant forall r, j' :: 0 <= r < L.Length0 && 0 <= j' < 6 && !(n <= r < n + i) && !(r == n + i && j' < j) ==>
          L[r, j'] == old(L[r, j'])
      {
        L[n + i, j] := b.L[i][j];
        err[n + i] := b.error[i];
        j := j + 1;
      }
      i := i + 1;
    }
  }

  /** Appends a block behind the rows already placed from row n0 on. */
  method PlaceRows(L: array2<real>, err: array<real>, n0: nat, n: nat, ghost doneL: seq<seq<real>>,
                   ghost doneE: seq<real>, b: Block, count: nat)
    requires BlockFits(b, count) && n + count <= err.Length && err.Length == L.Length0 && L.Length1 == 6
    requires n == n0 + |doneE| && |doneL| == |doneE| && forall i :: 0 <= i < |doneL| ==> |doneL[i]| == 6
    requires forall r :: n0 <= r < n ==> err[r] == doneE[r - n0]
    requires forall r, j :: n0 <= r < n && 0 <= j < 6 ==> L[r, j] == doneL[r - n0][j]
    modifies L, err
    ensures forall r :: n0 <= r < n + count ==> err[r] == (doneE + b.error)[r - n0]
    ensures forall r, j :: n0 <= r < n + count && 0 <= j < 6 ==> L[r, j] == (doneL + b.L)[r - n0][j]
    ensures forall r :: 0 <= r < err.Length && !(n <= r < n + count) ==> err[r] == old(err[r])
    ensures forall r, j :: 0 <= r < L.Length0 && 0 <= j < 6 && !(n <= r < n + count) ==> L[r, j] == old(L[r, j])
  {
    CopyBlock(L, err, n, b, count);
  }

  /** The second loop over one list: tracked primitives copy their rows at the running offset. */
  method CopyListRows(L: array2<real>, err: array<real>, n0: nat, ps: seq<Prim>, f: Interaction, q: Pose)
    returns (n: nat)
    requires FitsAt(f, q, ps) && n0 + TrackedRows(ps) <= err.Length && err.Length == L.Length0 && L.Length1 == 6
    modifies L, err
    ensures n == n0 + TrackedRows(ps)
    ensures forall r :: n0 <= r < n ==> err[r] == ErrorRows(ps, f, q)[r - n0]
    ensures forall r, j :: n0 <= r < n && 0 <= j < 6 ==> L[r, j] == LRows(ps, f, q)[r - n0][j]
    ensures forall r :: 0 <= r < err.Length && !(n0 <= r < n) ==> err[r] == old(err[r])
    ensures forall r, j :: 0 <= r < L.Length0 && 0 <= j < 6 && !(n0 <= r < n) ==> L[r, j] == old(L[r, j])
  {
    n := n0;
    var k := 0;
    ghost var doneE: seq<real> := [];
    ghost var doneL: seq<seq<real>> := [];
    while k < |ps|
      invariant 0 <= k <= |ps|
      invariant FitsAt(f, q, ps[..k]) && doneE == ErrorRows(ps[..k], f, q) && doneL == LRows(ps[..k], f, q)
      invariant n == n0 + |doneE| && |doneE| <= TrackedRows(ps) && |doneL| == |doneE|
      invariant forall r :: n0 <= r < n ==> err[r] == doneE[r - n0]
      invariant forall r, j :: n0 <= r < n && 0 <= j < 6 ==> L[r, j] == doneL[r - n0][j]
      invariant forall r :: 0 <= r < err.Length && !(n0 <= r < n) ==> err[r] == old(err[r])
      invariant forall r, j :: 0 <= r < L.Length0 && 0 <= j < 6 && !(n0 <= r < n) ==> L[r, j] == old(L[r, j])
    {
      RowsStep(ps, f, q, k);
      if ps[k].tracked {
        PlaceRows(L, err, n0, n, doneL, doneE, f(q, ps[k]), Count(ps[k]));
        n := n + Count(ps[k]);
        doneE := doneE + f(q, ps[k]).error;
        doneL := doneL + f(q, ps[k]).L;
      }
      k := k + 1;
    }
    assert ps[..k] == ps;
  }

  /** The KLT fill over one list of groups: each taking-part group writes 2 * nbPoints rows at
      the running shift; the first group that raises ends the fill with the list's error. */
  method FillKltRows(L: array2<real>, R: array<real>, gs: seq<KltGroup>, cylinder: bool,
                     f: KltInteraction, q: Pose, shift0: nat) returns (failure: Option<TrackError>, shift: nat)
    requires KltFitsAt(f, q, gs, cylinder)
    requires shift0 + KltRows(gs, cylinder) <= R.Length && R.Length == L.Length0 && L.Length1 == 6
    modifies L, R
    ensures failure.None? <==> KltFill(gs, cylinder, f, q).Ok?
    ensures failure.Some? ==> failure.value == KltFill(gs, cylinder, f, q).error
    ensures failure.None? ==> shift == shift0 + KltRows(gs, cylinder)
    ensures failure.None? ==> forall r :: shift0 <= r < shift ==>
      R[r] == KltFill(gs, cylinder, f, q).value.error[r - shift0]
    ensures failure.None? ==> forall r, j :: shift0 <= r < shift && 0 <= j < 6 ==>
      L[r, j] == KltFill(gs, cylinder, f, q).value.L[r - shift0][j]
    ensures forall r :: 0 <= r < shift0 ==> R[r] == old(R[r])
    ensures forall r, j :: 0 <= r < shift0 && 0 <= j < 6 ==> L[r, j] == old(L[r, j])
  {
    failure := None;
    shift := shift0;
    var k := 0;
    ghost var doneE: seq<real> := [];
    ghost var doneL: seq<seq<real>> := [];
    while k < |gs|
      invariant 0 <= k <= |gs|
      invariant KltFitsAt(f, q, gs[..k], cylinder) && KltFill(gs[..k], cylinder, f, q) == Ok(Block(doneL, doneE))
      invariant shift == shift0 + |doneE| && |doneE| <= KltRows(gs, cylinder)
      invariant forall r :: shift0 <= r < shift ==> R[r] == doneE[r - shift0]
      invariant forall r, j :: shift0 <= r < shift && 0 <= j < 6 ==> L[r, j] == doneL[r - shift0][j]
      invariant forall r :: 0 <= r < shift0 ==> R[r] == old(R[r])
      invariant forall r, j :: 0 <= r < shift0 && 0 <= j < 6 ==> L[r, j] == old(L[r, j])
    {
      KltFillStep(gs, cylinder, f, q, k);
      var g := gs[k];
      if Active(g, cylinder) {
        var blk := f(q, g);
        if blk.Raised? {
          failure := Some(RaisedError(cylinder));
          return;
        }
        PlaceRows(L, R, shift0, shift, doneL, doneE, blk.block, 2 * g.nbPoints);
        shift := shift + 2 * g.nbPoints;
        doneE := doneE + blk.block.error;
        doneL := doneL + blk.block.L;
      }
      assert KltFill(gs[..k + 1], cylinder, f, q) == Ok(Block(doneL, doneE));
      k := k + 1;
    }
    assert gs[..k] == gs;
  }

  /** The sites of a list after feedback and the sum of their weights. */
  method FlagAndSum(sites: seq<SiteState>, ws: seq<real>) returns (flagged: seq<SiteState>, total: real)
    requires |ws| <= |sites|
    ensures flagged == Flag(sites, ws) && total == Sum(ws)
  {
    flagged := sites;
    total := 0.0;
    var i := 0;
    while i < |ws|
      invariant 0 <= i <= |ws| && |flagged| == |sites|
      invariant forall j :: 0 <= j < i ==> flagged[j] == if ws[j] < 0.5 then MEstimator else sites[j]
      invariant forall j :: i <= j < |sites| ==> flagged[j] == sites[j]
      invariant total == Sum(ws[..i])
    {
      assert ws[..i + 1][..i] == ws[..i];
      total := total + ws[i];
      if ws[i] < 0.5 {
        flagged := flagged[i := MEstimator];
      }
      i := i + 1;
    }
    assert ws[..i] == ws;
    assert flagged == Flag(sites, ws);
  }

  /** The mean postTrackingMbt stores: the total over the count, or 1 when there is no row. */
  method MeanOf(total: real, count: nat, ghost ws: seq<real>) returns (m: real)
    requires |ws| == count && total == Sum(ws)
    ensures m == Mean(ws)
  {
    if count != 0 {
      m := total / (count as real);
    } else {
      m := 1.0;
    }
  }

  /** The first loop over a level: a buffer of one factor per tracked row, lines first, then
      cylinders, then circles, in one walk with one running offset. */
  method LevelFactors(lv: Level) returns (factor: seq<real>)
    requires LevelWellFormed(lv)
    ensures factor == FactorVector(lv.All())
  {
    LevelAllWellFormed(lv);
    var a := new real[TrackedRows(lv.All())](_ => 1.0);
    var n := WriteListFactors(a, lv.All());
    factor := a[..];
  }

  /** The second loop over a level: the rows of its tracked primitives at pose q, lines first,
      then cylinders, then circles, in one walk with one running offset; the rows past them are
      left alone. */
  method CopyLevelRows(L: array2<real>, err: array<real>, lv: Level, f: Interaction, q: Pose)
    requires FitsAt(f, q, lv.All())
    requires TrackedRows(lv.All()) <= err.Length && err.Length == L.Length0 && L.Length1 == 6
    modifies L, err
    ensures forall r :: 0 <= r < TrackedRows(lv.All()) ==> err[r] == ErrorRows(lv.All(), f, q)[r]
    ensures forall r, j :: 0 <= r < TrackedRows(lv.All()) && 0 <= j < 6 ==> L[r, j] == LRows(lv.All(), f, q)[r][j]
    ensures forall r :: TrackedRows(lv.All()) <= r < err.Length ==> err[r] == old(err[r])
    ensures forall r, j :: TrackedRows(lv.All()) <= r < L.Length0 && 0 <= j < 6 ==> L[r, j] == old(L[r, j])
  {
    var n := CopyListRows(L, err, 0, lv.All(), f, q);
  }

  /** postTrackingMbt's walk over the moving-edge lists of a line: each list is flagged by
      the weights of its rows and their sum is accumulated. */
  method FlagLine(segs: seq<MeSegment>, ws: seq<real>) returns (out: seq<MeSegment>, wsum: real)
    requires SegmentsWellFormed(segs) && |ws| == SegFeatures(segs)
    ensures out == FlagSegments(segs, ws) && wsum == Sum(ws)
  {
    out := [];
    wsum := 0.0;
    var idx := 0;
    var a := 0;
    ghost var all := FlagSegments(segs, ws);
    while a < |segs|
      invariant 0 <= a <= |segs| && |out| == a
      invariant idx == SegFeatures(segs[..a]) && idx <= |ws|
      invariant forall i :: 0 <= i < a ==> out[i] == all[i]
      invariant wsum == Sum(ws[..idx])
    {
      var seg;
      seg, idx, wsum := FlagNextSegment(segs, ws, a, idx, wsum);
      out := out + [seg];
      a := a + 1;
    }
    assert segs[..a] == segs && ws[..idx] == ws;
    assert out == all;
  }

  /** One segment of a line: its sites flagged from the next weights, which are added to the sum. */
  method FlagNextSegment(segs: seq<MeSegment>, ws: seq<real>, a: nat, idx: nat, wsum: real)
    returns (seg: MeSegment, idx': nat, wsum': real)
    requires SegmentsWellFormed(segs) && |ws| == SegFeatures(segs) && a < |segs|
    requires idx == SegFeatures(segs[..a]) && idx <= |ws| && wsum == Sum(ws[..idx])
    ensures seg == FlagSegments(segs, ws)[a]
    ensures idx' == SegFeatures(segs[..a + 1]) && idx' <= |ws| && wsum' == Sum(ws[..idx'])
  {
    FlagSegmentsAt(segs, ws, a);
    SegFeaturesPrefix(segs, a);
    idx' := idx + segs[a].nbFeature;
    var flagged, s := FlagAndSum(segs[a].sites, ws[idx..idx']);
    assert ws[..idx'] == ws[..idx] + ws[idx..idx'];
    SumAppend(ws[..idx], ws[idx..idx']);
    seg := segs[a].(sites := flagged);
    wsum' := wsum + s;
  }

  /** postTrackingMbt's work on one tracked primitive, given the weights of its rows. */
  method FeedbackPrim(p: Prim, ws: seq<real>) returns (r: Prim)
    requires WellFormed(p) && |ws| == Count(p)
    ensures r == Feedback(p, ws)
  {
    match p
    case Line(_, _, segs, total, _, _, _, _) =>
      var out, wsum := FlagLine(segs, ws);
      var m := MeanOf(wsum, total, ws);
      r := p.(segments := out, meanWeight := m, reinit := p.reinit || m < 0.8);
    case Cylinder(_, _, nb, l1, l2, s1, s2, _, _, _) =>
      var flagged1, sum1 := FlagAndSum(s1, ws[..l1]);
      var m1 := MeanOf(sum1, l1, ws[..l1]);
      var flagged2, sum2 := FlagAndSum(s2, ws[l1..nb]);
      assert ws[l1..nb] == ws[l1..];
      var m2 := MeanOf(sum2, l2, ws[l1..]);
      r := p.(sites1 := flagged1, sites2 := flagged2, meanWeight1 := m1, meanWeight2 := m2,
              reinit := p.reinit || m1 < 0.8 || m2 < 0.8);
    case Circle(_, _, nb, s, _, _) =>
      var flagged, wsum := FlagAndSum(s, ws);
      var m := MeanOf(wsum, nb, ws);
      r := p.(sites := flagged, meanWeight := m, reinit := p.reinit || m < 0.8);
  }

  /** postTrackingMbt over one list, reading the weights from row n0 on. */
  method FeedbackPass(ps: seq<Prim>, w: seq<real>, n0: nat) returns (out: seq<Prim>, n: nat)
    requires AllWellFormed(ps) && n0 + TrackedRows(ps) <= |w|
    ensures n == n0 + TrackedRows(ps)
    ensures out == FeedbackList(ps, w[n0..])
  {
    out := [];
    n := n0;
    var k := 0;
    ghost var wn := w[n0..];
    ghost var all := FeedbackList(ps, wn);
    while k < |ps|
      invariant 0 <= k <= |ps| && |out| == k
      invariant n == n0 + Offset(ps, k) && Offset(ps, k) <= TrackedRows(ps)
      invariant forall i :: 0 <= i < k ==> out[i] == all[i]
    {
      FeedbackListAt(ps, wn, k);
      OffsetStep(ps, k);
      OffsetBound(ps, k);
      ghost var t := Offset(ps, k);
      var q := ps[k];
      if ps[k].tracked {
        assert wn[t..t + Count(ps[k])] == w[n..n + Count(ps[k])];
        q := FeedbackPrim(ps[k], w[n..n + Count(ps[k])]);
        n := n + Count(ps[k]);
      }
      out := out + [q];
      k := k + 1;
    }
    if k == 0 { assert ps[..0] == []; } else { assert ps[..k] == ps; }
    assert out == all;
  }

  /** postTrackingMbt over a level: lines, then cylinders, then circles, with one running row. */
  method FeedbackLevelPass(lv: Level, w: seq<real>) returns (r: Level)
    requires LevelWellFormed(lv) && TrackedRows(lv.All()) <= |w|
    ensures r == FeedbackLevel(lv, w)
  {
    LevelAllWellFormed(lv);
    FeedbackLevelLayout(lv, w);
    var lines, cylinders, circles;
    var n := 0;
    lines, n := FeedbackPass(lv.lines, w, n);
    assert w[0..] == w;
    cylinders, n := FeedbackPass(lv.cylinders, w, n);
    circles, n := FeedbackPass(lv.circles, w, n);
    r := Level(lines, cylinders, circles);
  }

  // Reading a buffer back as a value, so that a method's result can be compared with the
  // function that specifies it. The C++ code uses its matrices in place and has no counterpart.

  /** The rows of a matrix as a sequence of rows. */
  method RowsOf(M: array2<real>) returns (rows: seq<seq<real>>)
    ensures |rows| == M.Length0
    ensures forall i :: 0 <= i < M.Length0 ==> |rows[i]| == M.Length1
    ensures forall i, j :: 0 <= i < M.Length0 && 0 <= j < M.Length1 ==> rows[i][j] == M[i, j]
  {
    rows := [];
    var i := 0;
    while i < M.Length0
      invariant 0 <= i <= M.Length0 && |rows| == i
      invariant forall i' :: 0 <= i' < i ==> |rows[i']| == M.Length1
      invariant forall i', j :: 0 <= i' < i && 0 <= j < M.Length1 ==> rows[i'][j] == M[i', j]
    {
      var row := seq(M.Length1, j requires 0 <= j < M.Length1 reads M => M[i, j]);
      rows := rows + [row];
      i := i + 1;
    }
  }

  lemma RowsExtensional(a: seq<seq<real>>, b: seq<seq<real>>)
    requires |a| == |b| && forall i :: 0 <= i < |a| ==> |a[i]| == |b[i]|
    requires forall i, j :: 0 <= i < |a| && 0 <= j < |a[i]| ==> a[i][j] == b[i][j]
    ensures a == b
  {
    forall i | 0 <= i < |a| ensures a[i] == b[i] {
    }
  }

  /** The flat buffers as a block, once they hold exactly the rows of `want`. */
  method BlockOf(L: array2<real>, R: array<real>, ghost want: Block) returns (b: Block)
    requires L.Length0 == R.Length && L.Length1 == 6 && BlockFits(want, R.Length)
    requires forall r :: 0 <= r < R.Length ==> R[r] == want.error[r]
    requires forall r, j :: 0 <= r < R.Length && 0 <= j < 6 ==> L[r, j] == want.L[r][j]
    ensures b == want
  {
    var rows := RowsOf(L);
    RowsExtensional(rows, want.L);
    assert R[..] == want.error;
    b := Block(rows, R[..]);
  }

  /** The KLT part of a pass: the polygons' rows from shift 0, then the cylinders' rows; the
      first group that raises ends the pass with its error. */
  method FillKltStack(L: array2<real>, R: array<real>, polys: seq<KltGroup>, cyls: seq<KltGroup>,
                      f: KltInteraction, q: Pose) returns (r: Result<Block>)
    requires KltFitsAt(f, q, polys, false) && KltFitsAt(f, q, cyls, true)
    requires R.Length == KltRows(polys, false) + KltRows(cyls, true) && L.Length0 == R.Length && L.Length1 == 6
    modifies L, R
    ensures r == KltStack(polys, cyls, f, q)
  {
    var failure, shift := FillKltRows(L, R, polys, false, f, q, 0);
    if failure.Some? {
      return Err(failure.value);
    }
    ghost var a := KltFill(polys, false, f, q).value;
    var n1 := shift;
    failure, shift := FillKltRows(L, R, cyls, true, f, q, shift);
    if failure.Some? {
      return Err(failure.value);
    }
    ghost var b := KltFill(cyls, true, f, q).value;
    ghost var want := KltStack(polys, cyls, f, q).value;
    assert want == Block(a.L + b.L, a.error + b.error);
    forall i | 0 <= i < R.Length ensures R[i] == want.error[i] {
      if i < n1 { assert want.error[i] == a.error[i]; } else { assert want.error[i] == b.error[i - n1]; }
    }
    forall i, j | 0 <= i < R.Length && 0 <= j < 6 ensures L[i, j] == want.L[i][j] {
      if i < n1 { assert want.L[i] == a.L[i]; } else { assert want.L[i] == b.L[i - n1]; }
    }
    var blk := BlockOf(L, R, want);
    r := Ok(blk);
  }

  // ---------------------------------------------------------------------------------------------
  // The tracker

  // The pass methods below spell Vvs.Accept, Vvs.Decide and Vvs.Rollback out as imperative
  // steps, each proved equal to its function, so that each proof obligation stays small.

  /** An accepted pass of computeVVS: the weights reset on the first pass, the Tukey weights of
      each modality with at least four rows, the fused m_w with the shares factorMbt and factorKlt,
      the residue, the solve, the Levenberg-Marquardt damping and snapshots, and the pose update. */
  method AcceptPass(ctx: Ctx, s: VvsState, fills: Fills, factorMbt: real, factorKlt: real)
    returns (t: VvsState)
    requires Shaped(ctx) && Inv(ctx, s)
    requires BlockFits(fills.mbt, ctx.nbrow)
    requires BlockFits(fills.klt, if ctx.nbInfos >= 4 then 2 * ctx.nbInfos else 0)
    requires (factorMbt, factorKlt) == Shares(ctx.nbrow, ctx.nbInfos)
    ensures t == Accept(ctx, s, fills)
  {
    var nbrow, nbInfos, num, cfg := ctx.nbrow, ctx.nbInfos, ctx.num, ctx.cfg;
    var wMbt, wKlt := s.wMbt, s.wKlt;
    if s.iter == 0 {
      if nbrow != 0 {
        wMbt := Constant(nbrow, 1.0);
      }
      if nbInfos != 0 {
        wKlt := Constant(2 * nbInfos, 1.0);
      }
    }
    if nbrow > 3 {
      wMbt := num.tukey(fills.mbt.error, s.iter, cfg.thresholdMbt);
    }
    if nbInfos > 3 {
      wKlt := num.tukey(fills.klt.error, s.iter, cfg.thresholdKlt);
    }
    var w := FuseWeights(wMbt, ctx.factor, wKlt, nbrow, nbInfos, factorMbt, factorKlt);
    var current := fills.mbt.error + fills.klt.error;
    var residu := num.residue(w, current);
    var v := num.solve(SolveInput(fills.mbt.L + fills.klt.L, current, w, s.mu, cfg.lm,
                                  cfg.isoJoIdentity, cfg.lambda, s.cMo));
    var mu, errorPrev, wPrev := s.mu, s.errorPrev, s.wPrev;
    if cfg.lm {
      if s.iter != 0 {
        mu := mu / 10.0;
      }
      errorPrev, wPrev := current, w;
    }
    var ctTc0 := num.times(num.expInverse(v), s.ctTc0);
    t := VvsState(s.iter + 1, mu, residu, s.residu, num.times(ctTc0, ctx.c0Mo), ctTc0, s.cMo, s.ctTc0,
                  current, errorPrev, w, wPrev, wMbt, wKlt);
  }

  /** The Levenberg-Marquardt test of a pass on its fresh rows: a worse mean squared error
      than the snapshot's rejects the pass, and a pass that is not rejected is accepted. */
  method DecidePass(ctx: Ctx, s: VvsState, fills: Fills, factorMbt: real, factorKlt: real)
    returns (r: StepResult)
    requires Shaped(ctx) && Inv(ctx, s)
    requires BlockFits(fills.mbt, ctx.nbrow)
    requires BlockFits(fills.klt, if ctx.nbInfos >= 4 then 2 * ctx.nbInfos else 0)
    requires (factorMbt, factorKlt) == Shares(ctx.nbrow, ctx.nbInfos)
    ensures r == Decide(ctx, s, fills, Intended)
  {
    var current := fills.mbt.error + fills.klt.error;
    var d := 2 * ctx.nbInfos + ctx.nbrow;
    if s.iter != 0 && ctx.cfg.lm && SumSquare(current) / (d as real) > SumSquare(s.errorPrev) / (d as real) {
      r := RejectPass(ctx, s, fills);
    } else {
      DecideAccepted(ctx, s, fills);
      var t := AcceptPass(ctx, s, fills, factorMbt, factorKlt);
      r := Next(t);
    }
  }

  /** What the decision of a rejected pass is: Diverged when ten times the damping exceeds 1,
      otherwise the rollback with that damping. */
  lemma DecideRejected(ctx: Ctx, s: VvsState, fills: Fills)
    requires Shaped(ctx) && Inv(ctx, s)
    requires BlockFits(fills.mbt, ctx.nbrow)
    requires BlockFits(fills.klt, if ctx.nbInfos >= 4 then 2 * ctx.nbInfos else 0)
    requires RejectsWith(ctx.cfg.lm, ctx.nbrow + 2 * ctx.nbInfos, s, fills.mbt.error + fills.klt.error, Intended)
    ensures s.mu * 10.0 > 1.0 ==> Decide(ctx, s, fills, Intended) == Stop(Diverged)
    ensures s.mu * 10.0 <= 1.0 ==> Decide(ctx, s, fills, Intended) == Next(Rollback(s, s.mu * 10.0))
  {
  }

  /** A pass that is not rejected is decided as accepted. */
  lemma DecideAccepted(ctx: Ctx, s: VvsState, fills: Fills)
    requires Shaped(ctx) && Inv(ctx, s)
    requires BlockFits(fills.mbt, ctx.nbrow)
    requires BlockFits(fills.klt, if ctx.nbInfos >= 4 then 2 * ctx.nbInfos else 0)
    requires !RejectsWith(ctx.cfg.lm, ctx.nbrow + 2 * ctx.nbInfos, s, fills.mbt.error + fills.klt.error, Intended)
    ensures Decide(ctx, s, fills, Intended) == Next(Accept(ctx, s, fills))
  {
  }

  /** A rejected pass multiplies the damping by 10, raises when it passes 1 and otherwise
      restores the pose, the error, the weights and the incremental pose from their snapshots. */
  method RejectPass(ctx: Ctx, s: VvsState, fills: Fills) returns (r: StepResult)
    requires Shaped(ctx) && Inv(ctx, s)
    requires BlockFits(fills.mbt, ctx.nbrow)
    requires BlockFits(fills.klt, if ctx.nbInfos >= 4 then 2 * ctx.nbInfos else 0)
    requires RejectsWith(ctx.cfg.lm, ctx.nbrow + 2 * ctx.nbInfos, s, fills.mbt.error + fills.klt.error, Intended)
    ensures r == Decide(ctx, s, fills, Intended)
  {
    DecideRejected(ctx, s, fills);
    var mu := s.mu * 10.0;
    if mu > 1.0 {
      return Stop(Diverged);
    }
    r := Next(s.(iter := s.iter + 1, mu := mu, cMo := s.cMoPrev, error := s.errorPrev,
                 w := s.wPrev, ctTc0 := s.ctTc0Prev));
  }

  class EdgeKltTracker {
    /** Which pyramid levels are in use, and the contour primitives of each level. */
    var scales: seq<bool>
    var levels: seq<Level>
    /** The KLT polygons and cylinders. */
    var kltPolygons: seq<KltGroup>
    var kltCylinders: seq<KltGroup>
    /** The pose, the pose at the start of the solve and the pose increment since then. */
    var cMo: Pose
    var c0Mo: Pose
    var ctTc0: Pose
    /** m_error and m_w. */
    var error: seq<real>
    var weights: seq<real>
    /** Solver settings: Levenberg-Marquardt or Gauss-Newton, whether oJo is the identity, the
        iteration budget, the gain and the M-estimator thresholds in pixels. */
    var lm: bool
    var isoJoIdentity: bool
    var maxIter: nat
    var lambda: real
    var thresholdMbt: real
    var thresholdKlt: real
    /** The camera's px, by which the thresholds are divided. */
    var px: real

    ghost predicate Valid()
      reads this
    {
      |levels| == |scales| && px > 0.0 &&
      forall l :: 0 <= l < |levels| ==> LevelWellFormed(levels[l])
    }

    /** The `lvl not used` test of every pass. */
    predicate UsedLevel(lvl: nat)
      reads this
    {
      lvl < |scales| && scales[lvl]
    }

    /** The tracker with its default gain 0.8, thresholds 2 and iteration budget 200. */
    constructor (scales: seq<bool>, levels: seq<Level>, kltPolygons: seq<KltGroup>,
                 kltCylinders: seq<KltGroup>, px: real, lm: bool, isoJoIdentity: bool)
      requires |levels| == |scales| && px > 0.0
      requires forall l :: 0 <= l < |levels| ==> LevelWellFormed(levels[l])
      ensures Valid()
      ensures this.lambda == 0.8 && thresholdKlt == 2.0 && thresholdMbt == 2.0 && maxIter == 200
      ensures this.scales == scales && this.levels == levels && this.px == px
      ensures this.kltPolygons == kltPolygons && this.kltCylinders == kltCylinders
      ensures this.lm == lm && this.isoJoIdentity == isoJoIdentity
      ensures cMo == Identity && c0Mo == Identity && ctTc0 == Identity && error == [] && weights == []
    {
      this.scales := scales;
      this.levels := levels;
      this.kltPolygons := kltPolygons;
      this.kltCylinders := kltCylinders;
      this.px := px;
      this.lm := lm;
      this.isoJoIdentity := isoJoIdentity;
      lambda := 0.8;
      thresholdKlt := 2.0;
      thresholdMbt := 2.0;
      maxIter := 200;
      cMo := Identity;
      c0Mo := Identity;
      ctTc0 := Identity;
      error := [];
      weights := [];
    }

    /** The number of contour rows: the features of the visible, tracked primitives. */
    method InitMbtTracking(lvl: nat) returns (r: Result<nat>)
      requires Valid()
      ensures !UsedLevel(lvl) ==> r == Err(DimensionError)
      ensures UsedLevel(lvl) ==> r == Ok(VisibleRows(levels[lvl].All()))
    {
      if !(lvl < |scales| && scales[lvl]) {
        return Err(DimensionError);
      }
      var lv := levels[lvl];
      LevelAllWellFormed(lv);
      var n1 := CountVisibleRows(lv.lines);
      var n2 := CountVisibleRows(lv.cylinders);
      var n3 := CountVisibleRows(lv.circles);
      r := Ok(n1 + n2 + n3);
    }

    /** The contour row count and the factor vector. With no row the vector is left alone. */
    method TrackFirstLoop(lvl: nat, factorIn: seq<real>) returns (r: Result<nat>, factor: seq<real>)
      requires Valid()
      requires UsedLevel(lvl) ==> HiddenTrackedEmpty(levels[lvl].All())
      ensures !UsedLevel(lvl) ==> r == Err(DimensionError) && factor == factorIn
      ensures UsedLevel(lvl) ==> r == Ok(VisibleRows(levels[lvl].All()))
      ensures UsedLevel(lvl) && r.value == 0 ==> factor == factorIn
      ensures UsedLevel(lvl) && r.value != 0 ==> factor == FactorVector(levels[lvl].All())
    {
      factor := factorIn;
      if !(lvl < |scales| && scales[lvl]) {
        return Err(DimensionError), factor;
      }
      r := InitMbtTracking(lvl);
      var nbrow := r.value;
      if nbrow == 0 {
        return;
      }
      var lv := levels[lvl];
      LevelAllWellFormed(lv);
      RowCountsAgree(lv.All());
      factor := LevelFactors(lv);
    }

    /** The contour rows at pose q into L and error, tracked primitive after tracked primitive;
        the rows past them are left alone. */
    method TrackSecondLoop(L: array2<real>, err: array<real>, q: Pose, lvl: nat, f: Interaction)
      requires Valid() && lvl < |levels| && FitsAt(f, q, levels[lvl].All())
      requires TrackedRows(levels[lvl].All()) <= err.Length && err.Length == L.Length0 && L.Length1 == 6
      modifies L, err
      ensures forall r :: 0 <= r < TrackedRows(levels[lvl].All()) ==>
        err[r] == ErrorRows(levels[lvl].All(), f, q)[r]
      ensures forall r, j :: 0 <= r < TrackedRows(levels[lvl].All()) && 0 <= j < 6 ==>
        L[r, j] == LRows(levels[lvl].All(), f, q)[r][j]
      ensures forall r :: TrackedRows(levels[lvl].All()) <= r < err.Length ==> err[r] == old(err[r])
      ensures forall r, j :: TrackedRows(levels[lvl].All()) <= r < L.Length0 && 0 <= j < 6 ==>
        L[r, j] == old(L[r, j])
    {
      CopyLevelRows(L, err, levels[lvl], f, q);
    }

    /** The weight feedback: M-estimator flags, mean weights and Reinit requests on every
        tracked primitive of the level, from the weights at its rows. A row past the end of w
        reads weight 1 (see DroppedContourRowsLeaveShortWeights for the call that needs it). */
    method PostTrackingMbt(w: seq<real>, lvl: nat) returns (failure: Option<TrackError>)
      requires Valid()
      modifies this`levels
      ensures Valid()
      ensures !UsedLevel(lvl) ==> failure == Some(DimensionError) && levels == old(levels)
      ensures UsedLevel(lvl) ==>
        && failure == None
        && levels == old(levels)[lvl := FeedbackLevel(old(levels[lvl]), PadWeights(w, TrackedRows(old(levels[lvl]).All())))]
    {
      if !(lvl < |scales| && scales[lvl]) {
        return Some(DimensionError);
      }
      var ws := PadWeights(w, TrackedRows(levels[lvl].All()));
      FeedbackLevelLayout(levels[lvl], ws);
      var r := FeedbackLevelPass(levels[lvl], ws);
      levels := levels[lvl := r];
      failure := None;
    }

    /** `track` hands computeVVS an empty w_mbt. With one to three contour rows and enough KLT
        rows the entry checks pass, the loop drops the contour rows and, however it ends, never
        resizes w_mbt. When it ends without an exception, postTrackingMbt gets that empty vector
        while the level still has tracked rows to read weights for. */
    lemma DroppedContourRowsLeaveShortWeights(nbInfos: nat, lvl: nat, num: Numerics, wKlt: seq<real>)
      requires Valid() && VvsReady(nbInfos, lvl, num) && UsedLevel(lvl)
      requires 1 <= VisibleRows(levels[lvl].All()) < 4 && nbInfos >= 4
      ensures VvsOutcome(nbInfos, lvl, num, [], wKlt).Ok?
      ensures VvsOutcome(nbInfos, lvl, num, [], wKlt).value.s.wMbt == []
      ensures TrackedRows(levels[lvl].All()) > 0
    {
      var ctx := VvsContext(nbInfos, lvl, num);
      LevelAllWellFormed(levels[lvl]);
      RowCountsAgree(levels[lvl].All());
      assert CtxValid(ctx);
      RunKeepsDroppedContourWeights(ctx, Start(ctx, cMo, ctTc0, error, weights, [], wKlt));
    }

    /** What computeVVS may rely on: the level's hidden tracked primitives own no row, the
        collaborators give blocks of the advertised sizes, and nbInfos counts the KLT rows. */
    ghost predicate VvsReady(nbInfos: nat, lvl: nat, num: Numerics)
      reads this
    {
      UsedLevel(lvl) && lvl < |levels| ==>
        && HiddenTrackedEmpty(levels[lvl].All())
        && NumericsFitFor(num, levels[lvl].All(), kltPolygons, kltCylinders)
        && (nbInfos >= 4 ==> KltRows(kltPolygons, false) + KltRows(kltCylinders, true) == 2 * nbInfos)
    }

    /** The loop's fixed context at level lvl. */
    function VvsContext(nbInfos: nat, lvl: nat, num: Numerics): Ctx
      reads this
      requires Valid() && lvl < |levels|
    {
      var all := levels[lvl].All();
      var nbrow := VisibleRows(all);
      LevelAllWellFormed(levels[lvl]);
      Ctx(Config(lm, isoJoIdentity, maxIter, lambda, thresholdMbt / px, thresholdKlt / px), num, all,
          kltPolygons, kltCylinders, if nbrow < 4 then 0 else nbrow, nbInfos,
          if nbrow == 0 then [] else FactorVector(all), c0Mo)
    }

    /** What computeVVS ends with: the exception raised before the loop, or how the loop ends. */
    ghost function VvsOutcome(nbInfos: nat, lvl: nat, num: Numerics, wMbt: seq<real>, wKlt: seq<real>): Result<Exit>
      reads this
      requires Valid() && VvsReady(nbInfos, lvl, num)
    {
      if !UsedLevel(lvl) then Err(DimensionError)
      else if VisibleRows(levels[lvl].All()) < 4 && nbInfos < 4 then Err(NotEnoughPoints)
      else
        var ctx := VvsContext(nbInfos, lvl, num);
        LevelAllWellFormed(levels[lvl]);
        RowCountsAgree(levels[lvl].All());
        assert CtxValid(ctx);
        Ok(Run(ctx, Start(ctx, cMo, ctTc0, error, weights, wMbt, wKlt)))
    }

    /** The VVS pose loop. It changes the pose, the incremental pose, m_error and m_w exactly as
        `Run` does from the start state, and on an exception before the loop changes nothing. */
    method ComputeVVS(nbInfos: nat, wMbtIn: seq<real>, wKltIn: seq<real>, lvl: nat, num: Numerics)
      returns (failure: Option<TrackError>, wMbt: seq<real>, wKlt: seq<real>)
      requires Valid() && VvsReady(nbInfos, lvl, num)
      modifies this`cMo, this`ctTc0, this`error, this`weights
      ensures Valid()
      ensures old(VvsOutcome(nbInfos, lvl, num, wMbtIn, wKltIn)).Err? ==>
        && failure == Some(old(VvsOutcome(nbInfos, lvl, num, wMbtIn, wKltIn)).error)
        && cMo == old(cMo) && ctTc0 == old(ctTc0) && error == old(error) && weights == old(weights)
        && wMbt == wMbtIn && wKlt == wKltIn
      ensures old(VvsOutcome(nbInfos, lvl, num, wMbtIn, wKltIn)).Ok? ==>
        var x := old(VvsOutcome(nbInfos, lvl, num, wMbtIn, wKltIn)).value;
        && failure == x.error
        && cMo == x.s.cMo && ctTc0 == x.s.ctTc0 && error == x.s.error && weights == x.s.w
        && wMbt == x.s.wMbt && wKlt == x.s.wKlt
    {
      ghost var outcome := VvsOutcome(nbInfos, lvl, num, wMbtIn, wKltIn);
      wMbt, wKlt := wMbtIn, wKltIn;
      var first, factor := TrackFirstLoop(lvl, []);
      if first.Err? {
        assert outcome == Err(DimensionError);
        failure := Some(first.error);
        return;
      }
      var nbrow := first.value;
      if nbrow < 4 && nbInfos < 4 {
        assert outcome == Err(NotEnoughPoints);
        failure := Some(NotEnoughPoints);
        return;
      } else if nbrow < 4 {
        nbrow := 0;
      }
      var ctx := VvsContext(nbInfos, lvl, num);
      assert ctx.nbrow == nbrow && ctx.factor == factor;
      LevelAllWellFormed(levels[lvl]);
      RowCountsAgree(levels[lvl].All());
      assert CtxValid(ctx);
      assert outcome == Ok(Run(ctx, Start(ctx, cMo, ctTc0, error, weights, wMbt, wKlt)));
      failure, wMbt, wKlt := VvsFromStart(ctx, lvl, wMbt, wKlt);
    }

    /** The loop from its start state: the residues, the damping 0.01 and the zero snapshots
        m_error_prev and m_w_prev, then the poses, m_error and m_w as the loop leaves them. */
    method VvsFromStart(ctx: Ctx, lvl: nat, wMbtIn: seq<real>, wKltIn: seq<real>)
      returns (failure: Option<TrackError>, wMbt: seq<real>, wKlt: seq<real>)
      requires Valid() && CtxValid(ctx) && lvl < |levels|
      requires ctx.prims == levels[lvl].All() && ctx.polys == kltPolygons && ctx.cyls == kltCylinders
      requires ctx.cfg.maxIter == maxIter
      modifies this`cMo, this`ctTc0, this`error, this`weights
      ensures Valid()
      ensures var x := Run(ctx, Start(ctx, old(cMo), old(ctTc0), old(error), old(weights), wMbtIn, wKltIn));
        && failure == x.error
        && cMo == x.s.cMo && ctTc0 == x.s.ctTc0 && error == x.s.error && weights == x.s.w
        && wMbt == x.s.wMbt && wKlt == x.s.wKlt
    {
      var n := 2 * ctx.nbInfos + ctx.nbrow;
      var s0 := VvsState(0, 0.01, 0.0, -1.0, cMo, ctTc0, Identity, Identity,
                         error, Constant(n, 0.0), weights, Constant(n, 0.0), wMbtIn, wKltIn);
      assert s0 == Start(ctx, cMo, ctTc0, error, weights, wMbtIn, wKltIn);
      var last;
      failure, last := VvsLoop(ctx, s0, lvl);
      cMo, ctTc0, error, weights, wMbt, wKlt := last.cMo, last.ctTc0, last.error, last.w, last.wMbt, last.wKlt;
    }

    /** The `while` loop of computeVVS from the state s0, the exceptions it raises included.
        The pose, the incremental pose, m_error and m_w live in the loop state and are written
        back to the tracker once the loop is left. */
    method VvsLoop(ctx: Ctx, s0: VvsState, lvl: nat) returns (failure: Option<TrackError>, last: VvsState)
      requires Valid() && CtxValid(ctx) && Inv(ctx, s0) && lvl < |levels|
      requires ctx.prims == levels[lvl].All() && ctx.polys == kltPolygons && ctx.cyls == kltCylinders
      requires ctx.cfg.maxIter == maxIter
      ensures Run(ctx, s0) == Exit(last, failure)
    {
      var nbrow, nbInfos := ctx.nbrow, ctx.nbInfos;
      var Lmbt := new real[nbrow, 6];
      var Rmbt := new real[nbrow];
      var Lklt := new real[2 * nbInfos, 6];
      var Rklt := new real[2 * nbInfos];
      var factorMbt := 0.35;
      var factorKlt := 0.65;
      if nbrow < 4 {
        factorKlt := 1.0;
      }
      if nbInfos < 4 {
        factorMbt := 1.0;
      }
      var s := s0;
      while TruncToInt((s.residu - s.residu1) * 100000000.0) != 0 && s.iter < maxIter
        invariant Inv(ctx, s) && Run(ctx, s) == Run(ctx, s0)
        decreases maxIter - s.iter
      {
        var step := VvsPass(ctx, s, lvl, factorMbt, factorKlt, Lmbt, Rmbt, Lklt, Rklt);
        if step.Stop? {
          RunStop(ctx, s, step.error);
          return Some(step.error), s;
        }
        RunNext(ctx, s, step.s);
        s := step.s;
      }
      RunDone(ctx, s);
      failure, last := None, s;
    }

    /** One pass of the loop: the rows, the Levenberg-Marquardt test with its rollback or its
        divergence, or the accepted pass. */
    method VvsPass(ctx: Ctx, s: VvsState, lvl: nat, factorMbt: real, factorKlt: real,
                   Lmbt: array2<real>, Rmbt: array<real>, Lklt: array2<real>, Rklt: array<real>)
      returns (r: StepResult)
      requires Valid() && CtxValid(ctx) && Inv(ctx, s) && lvl < |levels|
      requires ctx.prims == levels[lvl].All() && ctx.polys == kltPolygons && ctx.cyls == kltCylinders
      requires (factorMbt, factorKlt) == Shares(ctx.nbrow, ctx.nbInfos)
      requires Lmbt.Length0 == ctx.nbrow && Lmbt.Length1 == 6 && Rmbt.Length == ctx.nbrow
      requires Lklt.Length0 == 2 * ctx.nbInfos && Lklt.Length1 == 6 && Rklt.Length == 2 * ctx.nbInfos
      modifies Lmbt, Rmbt, Lklt, Rklt
      ensures r == Step(ctx, s)
    {
      var fills := StepFill(ctx, s, lvl, Lmbt, Rmbt, Lklt, Rklt);
      if fills.Err? {
        StepFillFails(ctx, s);
        return Stop(fills.error);
      }
      StepDecides(ctx, s);
      r := DecidePass(ctx, s, fills.value, factorMbt, factorKlt);
    }

    /** The rows of one pass: the second loop into the contour buffers when there are at least
        four contour rows, then the KLT polygons and cylinders into the KLT buffers. */
    method StepFill(ctx: Ctx, s: VvsState, lvl: nat,
                    Lmbt: array2<real>, Rmbt: array<real>, Lklt: array2<real>, Rklt: array<real>)
      returns (r: Result<Fills>)
      requires Valid() && CtxValid(ctx) && lvl < |levels| && ctx.prims == levels[lvl].All()
      requires ctx.polys == kltPolygons && ctx.cyls == kltCylinders
      requires Lmbt.Length0 == ctx.nbrow && Lmbt.Length1 == 6 && Rmbt.Length == ctx.nbrow
      requires Lklt.Length0 == 2 * ctx.nbInfos && Lklt.Length1 == 6 && Rklt.Length == 2 * ctx.nbInfos
      modifies Lmbt, Rmbt, Lklt, Rklt
      ensures r == Fill(ctx, s)
    {
      var num := ctx.num;
      var mbt := Block([], []);
      if ctx.nbrow >= 4 {
        TrackSecondLoop(Lmbt, Rmbt, s.cMo, lvl, num.contourAt);
        mbt := BlockOf(Lmbt, Rmbt, Block(LRows(ctx.prims, num.contourAt, s.cMo), ErrorRows(ctx.prims, num.contourAt, s.cMo)));
      }
      if ctx.nbInfos >= 4 {
        var klt := FillKltStack(Lklt, Rklt, kltPolygons, kltCylinders, num.kltAt, s.ctTc0);
        if klt.Err? {
          return Err(klt.error);
        }
        r := Ok(Fills(mbt, klt.value));
      } else {
        r := Ok(Fills(mbt, Block([], [])));
      }
    }
  }
}
