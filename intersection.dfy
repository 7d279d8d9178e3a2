/**
 * The difference step of `plot_contour`: plane altitude minus terrain
 * altitude, cell by cell.  The terrain comes from scattered-data
 * interpolation, which leaves a cell missing (NaN) outside the data's
 * convex hull; a missing operand gives a missing difference.
 */
module Intersection {
  import opened Wrappers
  import opened Grids
  import opened PlaneGenerator

  /** NumPy subtraction of two possibly-missing values: missing if either operand is. */
  function SubCell(a: Option<real>, b: Option<real>): (d: Option<real>)
    ensures d.Some? <==> a.Some? && b.Some?
    ensures d.Some? ==> d.value + b.value == a.value
  {
    if a.Some? && b.Some? then Some(a.value - b.value) else None
  }

  /** Negation of a possibly-missing value. */
  function Negate(a: Option<real>): (r: Option<real>)
    ensures r.Some? <==> a.Some?
    ensures r.Some? ==> r.value + a.value == 0.0
  {
    if a.Some? then Some(-a.value) else None
  }

  /** Elementwise subtraction of two grids of one shape. */
  function Subtract(a: seq<seq<Option<real>>>, b: seq<seq<Option<real>>>): (d: seq<seq<Option<real>>>)
    requires SameShape(a, b)
    ensures SameShape(d, a)
    ensures forall j, i :: 0 <= j < |d| && 0 <= i < |d[j]| ==> d[j][i] == SubCell(a[j][i], b[j][i])
  {
    seq(|a|, j requires 0 <= j < |a| =>
      seq(|a[j]|, i requires 0 <= i < |a[j]| => SubCell(a[j][i], b[j][i])))
  }

  /** Elementwise negation of a grid. */
  function NegateGrid(a: seq<seq<Option<real>>>): (r: seq<seq<Option<real>>>)
    ensures SameShape(r, a)
    ensures forall j, i :: 0 <= j < |r| && 0 <= i < |r[j]| ==> r[j][i] == Negate(a[j][i])
  {
    seq(|a|, j requires 0 <= j < |a| => seq(|a[j]|, i requires 0 <= i < |a[j]| => Negate(a[j][i])))
  }

  /** A grid of plane altitudes, every cell present. */
  function Lift(g: seq<seq<real>>): (r: seq<seq<Option<real>>>)
    ensures SameShape(r, g)
    ensures forall j, i :: 0 <= j < |r| && 0 <= i < |r[j]| ==> r[j][i] == Some(g[j][i])
  {
    seq(|g|, j requires 0 <= j < |g| => seq(|g[j]|, i requires 0 <= i < |g[j]| => Some(g[j][i])))
  }

  /**
   * `diff = zz_plane - zz_topo`: same shape as the plane grid; a missing
   * terrain cell gives a missing difference, a present one the plane
   * altitude minus the terrain altitude.
   */
  function Difference(zzPlane: seq<seq<real>>, zzTopo: seq<seq<Option<real>>>): (diff: seq<seq<Option<real>>>)
    requires SameShape(zzPlane, zzTopo)
    ensures SameShape(diff, zzPlane)
    ensures forall j, i :: 0 <= j < |diff| && 0 <= i < |diff[j]| ==>
              (diff[j][i].None? <==> zzTopo[j][i].None?)
              && (zzTopo[j][i].Some? ==> diff[j][i].value == zzPlane[j][i] - zzTopo[j][i].value)
  {
    Subtract(Lift(zzPlane), zzTopo)
  }

  /** Swapping the operands negates every present cell and keeps every missing one missing. */
  lemma SubtractAntisymmetric(a: seq<seq<Option<real>>>, b: seq<seq<Option<real>>>)
    requires SameShape(a, b)
    ensures Subtract(b, a) == NegateGrid(Subtract(a, b))
  {
    var l, r := Subtract(b, a), NegateGrid(Subtract(a, b));
    assert |l| == |r|;
    forall j | 0 <= j < |l|
      ensures l[j] == r[j]
    {
      assert |l[j]| == |r[j]|;
      forall i | 0 <= i < |l[j]|
        ensures l[j][i] == r[j][i]
      {
      }
    }
  }

  /** Subtracting the difference from the plane gives the terrain back, missing cells included. */
  lemma DifferenceRecoversTerrain(zzPlane: seq<seq<real>>, zzTopo: seq<seq<Option<real>>>)
    requires SameShape(zzPlane, zzTopo)
    ensures Subtract(Lift(zzPlane), Difference(zzPlane, zzTopo)) == zzTopo
  {
    var r := Subtract(Lift(zzPlane), Difference(zzPlane, zzTopo));
    assert |r| == |zzTopo|;
    forall j | 0 <= j < |r|
      ensures r[j] == zzTopo[j]
    {
      assert |r[j]| == |zzTopo[j]|;
      forall i | 0 <= i < |r[j]|
        ensures r[j][i] == zzTopo[j][i]
      {
      }
    }
  }

  /**
   * The sign of a present difference says whether the plane lies above
   * (positive), on (zero) or below (negative) the terrain.
   */
  lemma DifferenceSign(zzPlane: seq<seq<real>>, zzTopo: seq<seq<Option<real>>>, j: nat, i: nat)
    requires SameShape(zzPlane, zzTopo) && j < |zzPlane| && i < |zzPlane[j]|
    ensures var d := Difference(zzPlane, zzTopo)[j][i];
            && (d == Some(0.0) <==> zzTopo[j][i] == Some(zzPlane[j][i]))
            && (d.Some? && d.value > 0.0 <==> zzTopo[j][i].Some? && zzTopo[j][i].value < zzPlane[j][i])
            && (d.Some? && d.value < 0.0 <==> zzTopo[j][i].Some? && zzTopo[j][i].value > zzPlane[j][i])
  {
  }

  /**
   * The zero contour of the difference over `generate_plane`'s grid is
   * exactly where the terrain altitude lies on the geological plane.
   */
  lemma ZeroContourOnPlane(p: Point, n: Normal, b: Bounds, resolution: nat, zzTopo: seq<seq<Option<real>>>, j: nat, i: nat)
    requires n.nz != 0.0 && IsShape(zzTopo, resolution, resolution) && j < resolution && i < resolution
    ensures var g := GeneratePlane(p, n, b, resolution);
            Difference(g.zz, zzTopo)[j][i] == Some(0.0)
            <==> zzTopo[j][i].Some? && OnPlane(p, n, g.xx[j][i], g.yy[j][i], zzTopo[j][i].value)
  {
    var g := GeneratePlane(p, n, b, resolution);
    DifferenceSign(g.zz, zzTopo, j, i);
    if zzTopo[j][i].Some? {
      OnPlaneUnique(p, n, g.xx[j][i], g.yy[j][i], zzTopo[j][i].value);
      OnPlaneUnique(p, n, g.xx[j][i], g.yy[j][i], g.zz[j][i]);
    }
  }
}
