/**
 * `generate_plane`: the altitude of a planar geological unit sampled on an
 * evenly spaced longitude/latitude grid.  The plane passes through the
 * unit's reference point and has the normal derived from strike and dip.
 */
module PlaneGenerator {
  import opened Grids

  /** A point (longitude, latitude, altitude). */
  datatype Point = Point(x: real, y: real, z: real)

  /** The plane's normal vector. */
  datatype Normal = Normal(nx: real, ny: real, nz: real)

  /** The region's bounding box, which the source reads from its sidebar globals. */
  datatype Bounds = Bounds(minX: real, maxX: real, minY: real, maxY: real)

  /**
   * Strike and dip, given by their sines and cosines; the conversion from
   * degrees and the trigonometry itself are outside the model.
   */
  datatype Orientation = Orientation(sinStrike: real, cosStrike: real, sinDip: real, cosDip: real)

  /** The three grids `generate_plane` returns. */
  datatype PlaneGrids = PlaneGrids(xx: seq<seq<real>>, yy: seq<seq<real>>, zz: seq<seq<real>>)

  /** `(x, y, z)` satisfies the point-normal equation of the plane through `p` with normal `n`. */
  predicate OnPlane(p: Point, n: Normal, x: real, y: real, z: real) {
    n.nx * (x - p.x) + n.ny * (y - p.y) + n.nz * (z - p.z) == 0.0
  }

  /**
   * The normal from strike and dip: `nx = -sin(dip) sin(strike)`,
   * `ny = -sin(dip) cos(strike)`, `nz = cos(dip)`.  Its horizontal part
   * points along the strike bearing `(sin strike, cos strike)`, backwards
   * whenever the dip's sine is positive.
   */
  function NormalOf(o: Orientation): (n: Normal)
    ensures n.nx * o.cosStrike == n.ny * o.sinStrike
    ensures n.nx * o.sinStrike + n.ny * o.cosStrike
            == -o.sinDip * (o.sinStrike * o.sinStrike + o.cosStrike * o.cosStrike)
    ensures n.nz == o.cosDip
  {
    Normal(-o.sinDip * o.sinStrike, -o.sinDip * o.cosStrike, o.cosDip)
  }

  /** Given genuine sines and cosines the normal has unit length. */
  lemma NormalIsUnit(o: Orientation)
    requires o.sinStrike * o.sinStrike + o.cosStrike * o.cosStrike == 1.0
    requires o.sinDip * o.sinDip + o.cosDip * o.cosDip == 1.0
    ensures var n := NormalOf(o); n.nx * n.nx + n.ny * n.ny + n.nz * n.nz == 1.0
  {
    var n := NormalOf(o);
    var s2 := o.sinDip * o.sinDip;
    assert n.nx * n.nx == s2 * (o.sinStrike * o.sinStrike);
    assert n.ny * n.ny == s2 * (o.cosStrike * o.cosStrike);
    assert n.nx * n.nx + n.ny * n.ny == s2 * (o.sinStrike * o.sinStrike + o.cosStrike * o.cosStrike);
  }

  /**
   * The altitude of the plane above `(x, y)`:
   * `(nx (x - x0) + ny (y - y0)) / -nz + z0`, a point on the plane.
   */
  function PlaneAltitude(p: Point, n: Normal, x: real, y: real): (z: real)
    requires n.nz != 0.0
    ensures OnPlane(p, n, x, y, z)
  {
    (n.nx * (x - p.x) + n.ny * (y - p.y)) / -n.nz + p.z
  }

  /** A non-vertical plane has exactly one altitude above each point. */
  lemma OnPlaneUnique(p: Point, n: Normal, x: real, y: real, z: real)
    requires n.nz != 0.0
    ensures OnPlane(p, n, x, y, z) <==> z == PlaneAltitude(p, n, x, y)
  {
    var z' := PlaneAltitude(p, n, x, y);
    if OnPlane(p, n, x, y, z) {
      assert n.nz * (z - p.z) == n.nz * (z' - p.z);
      assert n.nz * (z - z') == 0.0;
    }
  }

  /** The plane altitude over coordinate grids of one shape, entry by entry. */
  function PlaneSurface(p: Point, n: Normal, xx: seq<seq<real>>, yy: seq<seq<real>>): (zz: seq<seq<real>>)
    requires n.nz != 0.0 && SameShape(xx, yy)
    ensures SameShape(zz, xx)
    ensures forall j, i :: 0 <= j < |zz| && 0 <= i < |zz[j]| ==> OnPlane(p, n, xx[j][i], yy[j][i], zz[j][i])
  {
    seq(|xx|, j requires 0 <= j < |xx| =>
      seq(|xx[j]|, i requires 0 <= i < |xx[j]| => PlaneAltitude(p, n, xx[j][i], yy[j][i])))
  }

  /**
   * `generate_plane`: longitudes and latitudes from `linspace` over the
   * bounding box, meshed, and the plane altitude at every grid point.
   */
  function GeneratePlane(p: Point, n: Normal, b: Bounds, resolution: nat): (g: PlaneGrids)
    requires n.nz != 0.0
    ensures IsShape(g.xx, resolution, resolution)
    ensures IsShape(g.yy, resolution, resolution)
    ensures IsShape(g.zz, resolution, resolution)
    ensures forall j, i :: 0 <= j < resolution && 0 <= i < resolution ==>
              g.xx[j][i] == Linspace(b.minX, b.maxX, resolution)[i]
              && g.yy[j][i] == Linspace(b.minY, b.maxY, resolution)[j]
              && OnPlane(p, n, g.xx[j][i], g.yy[j][i], g.zz[j][i])
  {
    var m := MeshGrid(Linspace(b.minX, b.maxX, resolution), Linspace(b.minY, b.maxY, resolution));
    PlaneGrids(m.xx, m.yy, PlaneSurface(p, n, m.xx, m.yy))
  }

  /** The altitude at grid point `(j, i)` is the plane's altitude above that point's longitude and latitude. */
  lemma PlaneCell(p: Point, n: Normal, b: Bounds, resolution: nat, j: nat, i: nat)
    requires n.nz != 0.0 && j < resolution && i < resolution
    ensures GeneratePlane(p, n, b, resolution).zz[j][i]
            == PlaneAltitude(p, n, Linspace(b.minX, b.maxX, resolution)[i], Linspace(b.minY, b.maxY, resolution)[j])
  {
    var g := GeneratePlane(p, n, b, resolution);
    OnPlaneUnique(p, n, g.xx[j][i], g.yy[j][i], g.zz[j][i]);
  }

  /** Wherever the grid meets the reference point's position the altitude is the reference altitude. */
  lemma ReferencePointAltitude(p: Point, n: Normal, b: Bounds, resolution: nat, j: nat, i: nat)
    requires n.nz != 0.0 && j < resolution && i < resolution
    requires GeneratePlane(p, n, b, resolution).xx[j][i] == p.x
    requires GeneratePlane(p, n, b, resolution).yy[j][i] == p.y
    ensures GeneratePlane(p, n, b, resolution).zz[j][i] == p.z
  {
    var g := GeneratePlane(p, n, b, resolution);
    var x, y := Linspace(b.minX, b.maxX, resolution)[i], Linspace(b.minY, b.maxY, resolution)[j];
    assert x == g.xx[j][i] == p.x && y == g.yy[j][i] == p.y;
    PlaneCell(p, n, b, resolution, j, i);
    AltitudeAtReference(p, n);
  }

  /** The plane passes through its reference point. */
  lemma AltitudeAtReference(p: Point, n: Normal)
    requires n.nz != 0.0
    ensures PlaneAltitude(p, n, p.x, p.y) == p.z
  {
  }

  /** A normal with no horizontal part gives a flat plane at the reference altitude. */
  lemma HorizontalPlane(p: Point, n: Normal, b: Bounds, resolution: nat, j: nat, i: nat)
    requires n.nz != 0.0 && n.nx == 0.0 && n.ny == 0.0 && j < resolution && i < resolution
    ensures GeneratePlane(p, n, b, resolution).zz[j][i] == p.z
  {
    PlaneCell(p, n, b, resolution, j, i);
  }

  /** Zero dip (sine 0, cosine 1) gives the flat plane at the reference altitude. */
  lemma ZeroDipIsHorizontal(p: Point, sinStrike: real, cosStrike: real, b: Bounds, resolution: nat, j: nat, i: nat)
    requires j < resolution && i < resolution
    ensures GeneratePlane(p, NormalOf(Orientation(sinStrike, cosStrike, 0.0, 1.0)), b, resolution).zz[j][i] == p.z
  {
    HorizontalPlane(p, NormalOf(Orientation(sinStrike, cosStrike, 0.0, 1.0)), b, resolution, j, i);
  }

  /**
   * Between any two horizontal positions the altitude changes by
   * `(nx dx + ny dy) / -nz`, whatever the starting point: the plane is an
   * affine function of longitude and latitude.
   */
  lemma AltitudeChange(p: Point, n: Normal, x: real, y: real, x': real, y': real)
    requires n.nz != 0.0
    ensures PlaneAltitude(p, n, x', y') - PlaneAltitude(p, n, x, y)
            == (n.nx * (x' - x) + n.ny * (y' - y)) / -n.nz
  {
    var a := n.nx * (x - p.x) + n.ny * (y - p.y);
    var a' := n.nx * (x' - p.x) + n.ny * (y' - p.y);
    assert a' - a == n.nx * (x' - x) + n.ny * (y' - y);
    DivDifference(a, a', -n.nz);
  }

  /** A step of `dx` in longitude alone changes the altitude by `-(nx / nz) * dx`. */
  lemma AltitudeStepEast(p: Point, n: Normal, x: real, x': real, y: real, dx: real)
    requires n.nz != 0.0 && x' - x == dx
    ensures PlaneAltitude(p, n, x', y) - PlaneAltitude(p, n, x, y) == -(n.nx / n.nz) * dx
  {
    AltitudeChange(p, n, x, y, x', y);
    assert n.nx * (x' - x) + n.ny * (y - y) == n.nx * dx;
    SingleTermRatio(n.nx, dx, n.nz);
  }

  /** A step of `dy` in latitude alone changes the altitude by `-(ny / nz) * dy`. */
  lemma AltitudeStepNorth(p: Point, n: Normal, x: real, y: real, y': real, dy: real)
    requires n.nz != 0.0 && y' - y == dy
    ensures PlaneAltitude(p, n, x, y') - PlaneAltitude(p, n, x, y) == -(n.ny / n.nz) * dy
  {
    AltitudeChange(p, n, x, y, x, y');
    assert n.nx * (x - x) + n.ny * (y' - y) == n.ny * dy;
    SingleTermRatio(n.ny, dy, n.nz);
  }

  /** Along a row of the grid, each step east changes the altitude by `-(nx / nz) * Step`. */
  lemma RowAffine(p: Point, n: Normal, b: Bounds, resolution: nat, j: nat, i: nat)
    requires n.nz != 0.0 && resolution >= 2 && j < resolution && i < resolution - 1
    ensures var g := GeneratePlane(p, n, b, resolution);
            g.zz[j][i + 1] - g.zz[j][i] == -(n.nx / n.nz) * Step(b.minX, b.maxX, resolution)
  {
    var xs, ys := Linspace(b.minX, b.maxX, resolution), Linspace(b.minY, b.maxY, resolution);
    var dx := Step(b.minX, b.maxX, resolution);
    LinspaceSpacing(b.minX, b.maxX, resolution, i);
    PlaneCell(p, n, b, resolution, j, i);
    PlaneCell(p, n, b, resolution, j, i + 1);
    AltitudeStepEast(p, n, xs[i], xs[i + 1], ys[j], dx);
  }

  /** Along a column of the grid, each step north changes the altitude by `-(ny / nz) * Step`. */
  lemma ColumnAffine(p: Point, n: Normal, b: Bounds, resolution: nat, j: nat, i: nat)
    requires n.nz != 0.0 && resolution >= 2 && j < resolution - 1 && i < resolution
    ensures var g := GeneratePlane(p, n, b, resolution);
            g.zz[j + 1][i] - g.zz[j][i] == -(n.ny / n.nz) * Step(b.minY, b.maxY, resolution)
  {
    var xs, ys := Linspace(b.minX, b.maxX, resolution), Linspace(b.minY, b.maxY, resolution);
    var dy := Step(b.minY, b.maxY, resolution);
    LinspaceSpacing(b.minY, b.maxY, resolution, j);
    PlaneCell(p, n, b, resolution, j, i);
    PlaneCell(p, n, b, resolution, j + 1, i);
    AltitudeStepNorth(p, n, xs[i], ys[j], ys[j + 1], dy);
  }

  /**
   * With the normal built from strike and dip, moving at right angles to
   * the strike bearing, by `d * (cos strike, -sin strike)`, keeps the
   * altitude: the plane's level lines run perpendicular to that bearing.
   */
  lemma LevelAcrossStrikeBearing(p: Point, o: Orientation, x: real, y: real, d: real)
    requires o.cosDip != 0.0
    ensures var n := NormalOf(o);
            PlaneAltitude(p, n, x + d * o.cosStrike, y - d * o.sinStrike) == PlaneAltitude(p, n, x, y)
  {
    var n := NormalOf(o);
    var x', y' := x + d * o.cosStrike, y - d * o.sinStrike;
    AltitudeChange(p, n, x, y, x', y');
    assert x' - x == d * o.cosStrike && y' - y == -(d * o.sinStrike);
    assert n.nx * (d * o.cosStrike) + n.ny * -(d * o.sinStrike) == d * (n.nx * o.cosStrike - n.ny * o.sinStrike);
  }

  /**
   * With the normal built from strike and dip, moving `d` along the strike
   * bearing `(sin strike, cos strike)` raises the altitude by
   * `d * tan(dip)`: the plane climbs steepest along that bearing.
   */
  lemma RisesAlongStrikeBearing(p: Point, o: Orientation, x: real, y: real, d: real)
    requires o.cosDip != 0.0
    requires o.sinStrike * o.sinStrike + o.cosStrike * o.cosStrike == 1.0
    ensures var n := NormalOf(o);
            PlaneAltitude(p, n, x + d * o.sinStrike, y + d * o.cosStrike) - PlaneAltitude(p, n, x, y)
            == d * (o.sinDip / o.cosDip)
  {
    var n := NormalOf(o);
    var x', y' := x + d * o.sinStrike, y + d * o.cosStrike;
    AltitudeChange(p, n, x, y, x', y');
    assert x' - x == d * o.sinStrike && y' - y == d * o.cosStrike;
    assert n.nx * o.sinStrike + n.ny * o.cosStrike == -o.sinDip;
    assert n.nx * (d * o.sinStrike) + n.ny * (d * o.cosStrike) == d * -o.sinDip;
    NegatedRatio(d, o.sinDip, o.cosDip);
  }

  // Real-division steps used above, each in a context of its own.

  /** Two quotients by the same divisor differ by the quotient of the difference. */
  lemma DivDifference(a: real, a': real, c: real)
    requires c != 0.0
    ensures a' / c - a / c == (a' - a) / c
  {
  }

  /** Dividing a product by `-c` is scaling its second factor by `-(u / c)`. */
  lemma SingleTermRatio(u: real, w: real, c: real)
    requires c != 0.0
    ensures (u * w) / -c == -(u / c) * w
  {
    assert (u / c) * c == u;
    assert (u * w) / -c * -c == u * w;
    assert -(u / c) * w * -c == u * w;
  }

  /** Dividing `d * -s` by `-c` is scaling `d` by `s / c`. */
  lemma NegatedRatio(d: real, s: real, c: real)
    requires c != 0.0
    ensures (d * -s) / -c == d * (s / c)
  {
    assert (s / c) * c == s;
    assert d * (s / c) * -c == d * -s;
  }
}
