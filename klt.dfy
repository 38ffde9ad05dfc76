/** The point (KLT) side of the hybrid loop as the pose loop sees it: every usable group of
    tracked points contributes twice its point count of rows, at a running shift, polygons first
    and cylinders after; a cylinder that cannot compute its rows re-raises a fatal error. */
module Klt {
  import opened Common

  /** A KLT polygon (vpMbtDistanceKltPoints) or KLT cylinder (vpMbtDistanceKltCylinder):
      `visible` is its polygon's visibility, `enoughPoints` is `hasEnoughPoints()` and
      `nbPoints` is `getCurrentNumberPoints()`. */
  datatype KltGroup = KltGroup(visible: bool, tracked: bool, enoughPoints: bool, nbPoints: nat)

  /** What a group's `computeInteractionMatrixAndResidu` yields: its rows, or an exception. */
  datatype KltBlock = Computed(block: Block) | Raised

  /** A numerical collaborator: the rows of a group at the incremental pose `ctTc0`. */
  type KltInteraction = (Pose, KltGroup) -> KltBlock

  /** A polygon takes part when its polygon is visible, it is tracked and has enough points;
      a cylinder is not asked about visibility. */
  predicate Active(g: KltGroup, cylinder: bool) {
    (cylinder || g.visible) && g.tracked && g.enoughPoints
  }

  function GroupRows(g: KltGroup, cylinder: bool): nat {
    if Active(g, cylinder) then 2 * g.nbPoints else 0
  }

  /** How far the running shift advances over a list of groups. */
  function KltRows(gs: seq<KltGroup>, cylinder: bool): nat {
    if gs == [] then 0 else KltRows(gs[..|gs| - 1], cylinder) + GroupRows(gs[|gs| - 1], cylinder)
  }

  /** Walking the groups in order, the shift grows by each group's rows and stays within the total. */
  lemma {:induction false} KltRowsPrefix(gs: seq<KltGroup>, cylinder: bool, k: nat)
    requires k < |gs|
    ensures KltRows(gs[..k + 1], cylinder) == KltRows(gs[..k], cylinder) + GroupRows(gs[k], cylinder)
    ensures KltRows(gs[..k + 1], cylinder) <= KltRows(gs, cylinder)
  {
    assert gs[..k + 1][..k] == gs[..k];
    if k + 1 < |gs| {
      KltRowsPrefix(gs[..|gs| - 1], cylinder, k);
      assert gs[..|gs| - 1][..k + 1] == gs[..k + 1];
      assert gs[..|gs| - 1][..k] == gs[..k];
    } else {
      assert gs[..k + 1] == gs;
    }
  }

  /** A computed block has two rows per point. */
  predicate KltFitsAt(f: KltInteraction, q: Pose, gs: seq<KltGroup>, cylinder: bool) {
    forall k :: 0 <= k < |gs| && Active(gs[k], cylinder) && f(q, gs[k]).Computed? ==>
      BlockFits(f(q, gs[k]).block, 2 * gs[k].nbPoints)
  }

  lemma KltFitsPrefix(f: KltInteraction, q: Pose, gs: seq<KltGroup>, cylinder: bool, k: nat)
    requires KltFitsAt(f, q, gs, cylinder) && k <= |gs|
    ensures KltFitsAt(f, q, gs[..k], cylinder)
  {
    forall j | 0 <= j < k && Active(gs[..k][j], cylinder) && f(q, gs[..k][j]).Computed?
      ensures BlockFits(f(q, gs[..k][j]).block, 2 * gs[..k][j].nbPoints)
    {
      assert gs[..k][j] == gs[j];
    }
  }

  /** The exception that leaves the loop when a group raises: a cylinder's is re-raised as
      "Cannot compute interaction matrix", a polygon's propagates unchanged. */
  function RaisedError(cylinder: bool): TrackError {
    if cylinder then InteractionMatrixFailed else KltFailed
  }

  /** The rows the groups of one list stack, or the first exception raised. */
  function KltFill(gs: seq<KltGroup>, cylinder: bool, f: KltInteraction, q: Pose): (r: Result<Block>)
    requires KltFitsAt(f, q, gs, cylinder)
    ensures r.Ok? ==> BlockFits(r.value, KltRows(gs, cylinder))
  {
    if gs == [] then Ok(Block([], []))
    else
      var init := gs[..|gs| - 1];
      var last := gs[|gs| - 1];
      assert KltFitsAt(f, q, init, cylinder) by {
        forall k | 0 <= k < |init| && Active(init[k], cylinder) && f(q, init[k]).Computed?
          ensures BlockFits(f(q, init[k]).block, 2 * init[k].nbPoints)
        {
          assert init[k] == gs[k];
        }
      }
      match KltFill(init, cylinder, f, q)
      case Err(e) => Err(e)
      case Ok(acc) =>
        if !Active(last, cylinder) then Ok(acc)
        else
          match f(q, last)
          case Raised => Err(RaisedError(cylinder))
          case Computed(b) => Ok(Block(acc.L + b.L, acc.error + b.error))
  }

  /** The fill fails exactly when some taking-part group raises, and then with the list's error. */
  lemma {:induction false} KltFillFails(gs: seq<KltGroup>, cylinder: bool, f: KltInteraction, q: Pose)
    requires KltFitsAt(f, q, gs, cylinder)
    ensures KltFill(gs, cylinder, f, q).Err? <==>
      exists k :: 0 <= k < |gs| && Active(gs[k], cylinder) && f(q, gs[k]).Raised?
    ensures KltFill(gs, cylinder, f, q).Err? ==> KltFill(gs, cylinder, f, q).error == RaisedError(cylinder)
  {
    if gs != [] {
      var init := gs[..|gs| - 1];
      var last := gs[|gs| - 1];
      assert KltFitsAt(f, q, init, cylinder) by {
        forall k | 0 <= k < |init| && Active(init[k], cylinder) && f(q, init[k]).Computed?
          ensures BlockFits(f(q, init[k]).block, 2 * init[k].nbPoints)
        {
          assert init[k] == gs[k];
        }
      }
      KltFillFails(init, cylinder, f, q);
      if exists k :: 0 <= k < |init| && Active(init[k], cylinder) && f(q, init[k]).Raised? {
        var k :| 0 <= k < |init| && Active(init[k], cylinder) && f(q, init[k]).Raised?;
        assert gs[k] == init[k];
      }
      if exists k :: 0 <= k < |gs| && Active(gs[k], cylinder) && f(q, gs[k]).Raised? {
        var k :| 0 <= k < |gs| && Active(gs[k], cylinder) && f(q, gs[k]).Raised?;
        if k < |init| { assert gs[k] == init[k]; }
      }
    }
  }

  /** When the fill succeeds, row i of group k lands at shift `KltRows(gs[..k]) + i`. */
  lemma {:induction false} KltFillAt(gs: seq<KltGroup>, cylinder: bool, f: KltInteraction, q: Pose, k: nat, i: nat)
    requires KltFitsAt(f, q, gs, cylinder) && KltFill(gs, cylinder, f, q).Ok?
    requires k < |gs| && Active(gs[k], cylinder) && i < 2 * gs[k].nbPoints
    ensures f(q, gs[k]).Computed?
    ensures KltRows(gs[..k], cylinder) + i < KltRows(gs, cylinder)
    ensures KltFill(gs, cylinder, f, q).value.error[KltRows(gs[..k], cylinder) + i] == f(q, gs[k]).block.error[i]
    ensures KltFill(gs, cylinder, f, q).value.L[KltRows(gs[..k], cylinder) + i] == f(q, gs[k]).block.L[i]
  {
    var init := gs[..|gs| - 1];
    assert KltFitsAt(f, q, init, cylinder) by {
      forall j | 0 <= j < |init| && Active(init[j], cylinder) && f(q, init[j]).Computed?
        ensures BlockFits(f(q, init[j]).block, 2 * init[j].nbPoints)
      {
        assert init[j] == gs[j];
      }
    }
    if k == |gs| - 1 {
      assert gs[..k] == init;
    } else {
      assert init[..k] == gs[..k];
      assert init[k] == gs[k];
      KltFillAt(init, cylinder, f, q, k, i);
    }
  }

  /** Walking the groups in order: a group that does not take part adds nothing, one that
      raises fails the fill, one that computes appends its rows. */
  lemma KltFillStep(gs: seq<KltGroup>, cylinder: bool, f: KltInteraction, q: Pose, k: nat)
    requires KltFitsAt(f, q, gs, cylinder) && k < |gs| && KltFill(gs[..k], cylinder, f, q).Ok?
    ensures KltFitsAt(f, q, gs[..k], cylinder) && KltFitsAt(f, q, gs[..k + 1], cylinder)
    ensures KltRows(gs[..k + 1], cylinder) == KltRows(gs[..k], cylinder) + GroupRows(gs[k], cylinder)
    ensures KltRows(gs[..k + 1], cylinder) <= KltRows(gs, cylinder)
    ensures !Active(gs[k], cylinder) ==> KltFill(gs[..k + 1], cylinder, f, q) == KltFill(gs[..k], cylinder, f, q)
    ensures Active(gs[k], cylinder) && f(q, gs[k]).Raised? ==> KltFill(gs, cylinder, f, q) == Err(RaisedError(cylinder))
    ensures Active(gs[k], cylinder) && f(q, gs[k]).Computed? ==>
      var acc := KltFill(gs[..k], cylinder, f, q).value;
      var b := f(q, gs[k]).block;
      BlockFits(b, 2 * gs[k].nbPoints) &&
      KltFill(gs[..k + 1], cylinder, f, q) == Ok(Block(acc.L + b.L, acc.error + b.error))
  {
    KltRowsPrefix(gs, cylinder, k);
    KltFitsPrefix(f, q, gs, cylinder, k);
    KltFitsPrefix(f, q, gs, cylinder, k + 1);
    assert gs[..k + 1][..k] == gs[..k];
    assert gs[..k + 1][k] == gs[k];
    if Active(gs[k], cylinder) && f(q, gs[k]).Raised? {
      KltFillFails(gs, cylinder, f, q);
    }
  }

  /** The polygons' rows, then the cylinders' rows, in one block of `2 * nbInfos` rows. */
  function KltStack(polys: seq<KltGroup>, cyls: seq<KltGroup>, f: KltInteraction, q: Pose): (r: Result<Block>)
    requires KltFitsAt(f, q, polys, false) && KltFitsAt(f, q, cyls, true)
    ensures r.Ok? ==> BlockFits(r.value, KltRows(polys, false) + KltRows(cyls, true))
  {
    match KltFill(polys, false, f, q)
    case Err(e) => Err(e)
    case Ok(a) =>
      match KltFill(cyls, true, f, q)
      case Err(e) => Err(e)
      case Ok(b) => Ok(Block(a.L + b.L, a.error + b.error))
  }
}
