/**
 * The coordinate grids `load_elevation` attaches to the raster band it
 * reads: longitudes ascend across the band's columns, latitudes descend
 * down its rows (the first raster row is the northern edge).
 */
module ElevationLoader {
  import opened Grids
  import opened PlaneGenerator

  /**
   * The longitude and latitude grids for a band of `rows` rows and `cols`
   * columns over the bounding box: `linspace(minX, maxX, cols)` meshed
   * with the flipped `linspace(maxY, minY, rows)`.  Each latitude row is
   * the ascending latitude axis read backwards.
   */
  function CoordinateGrids(minX: real, maxX: real, minY: real, maxY: real, rows: nat, cols: nat): (m: Mesh)
    ensures IsShape(m.xx, rows, cols) && IsShape(m.yy, rows, cols)
    ensures forall j, i :: 0 <= j < rows && 0 <= i < cols ==> m.xx[j][i] == Linspace(minX, maxX, cols)[i]
    ensures rows >= 2 ==> forall j, i :: 0 <= j < rows && 0 <= i < cols ==>
              m.yy[j][i] == Linspace(minY, maxY, rows)[rows - 1 - j]
    ensures rows == 1 ==> forall i :: 0 <= i < cols ==> m.yy[0][i] == maxY
  {
    var m := MeshGrid(Linspace(minX, maxX, cols), Linspace(maxY, minY, rows));
    assert rows >= 2 ==> forall j :: 0 <= j < rows ==> Linspace(maxY, minY, rows)[j] == Linspace(minY, maxY, rows)[rows - 1 - j] by {
      if rows >= 2 {
        forall j | 0 <= j < rows
          ensures Linspace(maxY, minY, rows)[j] == Linspace(minY, maxY, rows)[rows - 1 - j]
        {
          LinspaceReversed(minY, maxY, rows, j);
        }
      }
    }
    m
  }

  /**
   * Longitude starts at `minX` in the first column, ends at `maxX` in the
   * last, and strictly ascends along every row when `minX < maxX`.
   */
  lemma LongitudeAscends(minX: real, maxX: real, minY: real, maxY: real, rows: nat, cols: nat, j: nat, i: nat, k: nat)
    requires cols >= 2 && j < rows && i < k < cols
    ensures var m := CoordinateGrids(minX, maxX, minY, maxY, rows, cols);
            m.xx[j][0] == minX && m.xx[j][cols - 1] == maxX
            && (minX < maxX ==> m.xx[j][i] < m.xx[j][k])
  {
    LinspaceStrictlyMonotone(minX, maxX, cols, i, k);
  }

  /**
   * Latitude is `maxY` in the first row and `minY` in the last, and
   * strictly descends down every column when `minY < maxY`.
   */
  lemma LatitudeDescends(minX: real, maxX: real, minY: real, maxY: real, rows: nat, cols: nat, j: nat, k: nat, i: nat)
    requires rows >= 2 && j < k < rows && i < cols
    ensures var m := CoordinateGrids(minX, maxX, minY, maxY, rows, cols);
            m.yy[0][i] == maxY && m.yy[rows - 1][i] == minY
            && (minY < maxY ==> m.yy[j][i] > m.yy[k][i])
  {
    var m := CoordinateGrids(minX, maxX, minY, maxY, rows, cols);
    var lat := Linspace(minY, maxY, rows);
    assert m.yy[0][i] == lat[rows - 1] && m.yy[rows - 1][i] == lat[0];
    assert m.yy[j][i] == lat[rows - 1 - j] && m.yy[k][i] == lat[rows - 1 - k];
    LinspaceStrictlyMonotone(minY, maxY, rows, rows - 1 - k, rows - 1 - j);
  }

  /**
   * For a square band of the plane's resolution, the elevation grid holds
   * the plane grid's points: the same longitude grid, and the latitude
   * rows in reverse order.
   */
  lemma MirrorsPlaneGrid(p: Point, n: Normal, b: Bounds, resolution: nat, j: nat, i: nat)
    requires n.nz != 0.0 && resolution >= 2 && j < resolution && i < resolution
    ensures var m := CoordinateGrids(b.minX, b.maxX, b.minY, b.maxY, resolution, resolution);
            var g := GeneratePlane(p, n, b, resolution);
            m.xx[j][i] == g.xx[j][i] && m.yy[j][i] == g.yy[resolution - 1 - j][i]
  {
  }
}
