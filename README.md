# Geological plane imprint on topography — Dafny model

The mapper (`geology_mapper.py`) draws where a tilted planar geological
unit meets the ground. `generate_plane` samples the unit's plane over an
evenly spaced longitude/latitude grid. The plane passes through the
reference point `(x0, y0, z0)`, and its normal comes from strike and dip.
`load_elevation` pairs a terrain raster with longitude and latitude grids.
Its latitudes run north to south. `plot_contour` resamples the terrain onto
the plane grid and contours `diff = zz_plane - zz_topo`. The zero contour of
that difference is the unit's trace on the ground.

This project models the exact geometry of those steps over mathematical reals:

- `grids.dfy` (module `Grids`): NumPy's `linspace` and `meshgrid`, plus
  the column extraction `yy[:, 0]` the plot uses.
- `plane.dfy` (module `PlaneGenerator`): the normal from strike and dip,
  the point-normal altitude formula, and `generate_plane` itself. The
  bounding box becomes an explicit `Bounds` parameter. In the source it is
  a set of module-level sidebar values.
- `elevation.dfy` (module `ElevationLoader`): the coordinate grids of
  `load_elevation`, for a band with a given number of rows and columns.
- `intersection.dfy` (module `Intersection`): the difference field. A
  missing terrain value (NumPy's NaN) is `None` of `Option<real>`
  (`wrappers.dfy`).

As written, the code's formula makes the input called "strike" the bearing
of steepest ascent. `LevelAcrossStrikeBearing` and `RisesAlongStrikeBearing`
prove this. The plane's horizontal level lines therefore run at right angles
to that bearing. The model keeps the code's convention.

The code computes no base plane, no outcrop mask and no tolerance, and it
does not guard the division by `-nz`; the model has none of these.

## Model

| member | source | states |
|---|---|---|
| `Grids.Linspace` | geology_mapper.py:37-38 | `num` values; the first is `start` and, with two or more values, the last is `stop` (endpoints included) |
| `Grids.LinspaceSpacing` | geology_mapper.py:37-38 | consecutive values differ by exactly `(stop - start) / (num - 1)` |
| `Grids.LinspaceStrictlyMonotone` | geology_mapper.py:37-38 | with two or more values: strictly increasing when `start < stop`, strictly decreasing when `start > stop` |
| `Grids.LinspaceUnique` | geology_mapper.py:37-38 | any sequence of `num` values that starts at `start` and moves by one uniform step at a time equals `Linspace(start, stop, num)` |
| `Grids.LinspaceReversed` | geology_mapper.py:48-49 | `linspace(hi, lo, n)` is `linspace(lo, hi, n)` read backwards, for `n >= 2` |
| `Grids.MeshGrid` | geology_mapper.py:39 | both matrices have `len(ys)` rows of `len(xs)` entries; `xx[j][i] == xs[i]` and `yy[j][i] == ys[j]` |
| `Grids.Column` | geology_mapper.py:66 | column `i` of a grid (`g[:, i]`): one entry per row, entry `j` is `g[j][i]` |
| `Grids.MeshGridAxes` | geology_mapper.py:65-66 | `xx[0]` gives back the longitude axis and `yy[:, 0]` the latitude axis |
| `PlaneGenerator.NormalOf` | geology_mapper.py:33-35 | the normal's horizontal part is parallel to the strike bearing and opposite to it (scaled by `-sin dip`); its vertical part is `cos dip` |
| `PlaneGenerator.NormalIsUnit` | geology_mapper.py:31-35 | with true sines and cosines the normal has length 1 |
| `PlaneGenerator.PlaneAltitude` | geology_mapper.py:40 | the computed altitude satisfies `nx (x - x0) + ny (y - y0) + nz (z - z0) == 0` |
| `PlaneGenerator.OnPlaneUnique` | geology_mapper.py:40 | for `nz != 0` a point is on the plane if and only if its altitude is the computed one |
| `PlaneGenerator.PlaneSurface` | geology_mapper.py:40 | the vectorised formula has the coordinate grids' shape and puts every grid point on the plane |
| `PlaneGenerator.GeneratePlane` | geology_mapper.py:30-41 | three `resolution x resolution` grids; `xx` rows are the longitude axis, `yy` columns the latitude axis, every `(xx, yy, zz)` point is on the plane |
| `PlaneGenerator.PlaneCell` | geology_mapper.py:37-40 | `zz[j][i]` is the plane altitude above longitude `i` and latitude `j` of the axes |
| `PlaneGenerator.AltitudeAtReference` | geology_mapper.py:40 | the plane passes through `(x0, y0, z0)` |
| `PlaneGenerator.ReferencePointAltitude` | geology_mapper.py:37-40 | wherever a grid point sits at `(x0, y0)` its altitude is `z0` |
| `PlaneGenerator.HorizontalPlane` | geology_mapper.py:40 | with `nx == ny == 0` every grid altitude is `z0` |
| `PlaneGenerator.ZeroDipIsHorizontal` | geology_mapper.py:33-40 | dip 0 (sine 0, cosine 1) gives `zz == z0` at every grid point, whatever the strike |
| `PlaneGenerator.AltitudeChange` | geology_mapper.py:40 | between two positions the altitude changes by `(nx dx + ny dy) / -nz`, independently of the start (the plane is affine) |
| `PlaneGenerator.AltitudeStepEast` | geology_mapper.py:40 | a longitude step `dx` alone changes the altitude by `-(nx / nz) dx` |
| `PlaneGenerator.AltitudeStepNorth` | geology_mapper.py:40 | a latitude step `dy` alone changes the altitude by `-(ny / nz) dy` |
| `PlaneGenerator.RowAffine` | geology_mapper.py:37-40 | along every grid row consecutive altitudes differ by the constant `-(nx / nz)` times the longitude step |
| `PlaneGenerator.ColumnAffine` | geology_mapper.py:37-40 | along every grid column consecutive altitudes differ by the constant `-(ny / nz)` times the latitude step |
| `PlaneGenerator.LevelAcrossStrikeBearing` | geology_mapper.py:31-40 | moving at right angles to the strike bearing leaves the altitude unchanged |
| `PlaneGenerator.RisesAlongStrikeBearing` | geology_mapper.py:31-40 | moving `d` along the strike bearing raises the altitude by `d tan(dip)` |
| `ElevationLoader.CoordinateGrids` | geology_mapper.py:48-50 | `rows x cols` grids; longitudes are the ascending axis in every row; latitude row `j` is the ascending latitude axis at index `rows - 1 - j` (a single row sits at `max_y`) |
| `ElevationLoader.LongitudeAscends` | geology_mapper.py:48-50 | longitude runs from `min_x` in the first column to `max_x` in the last, strictly ascending when `min_x < max_x` |
| `ElevationLoader.LatitudeDescends` | geology_mapper.py:49-50 | latitude is `max_y` in the first row and `min_y` in the last, strictly descending when `min_y < max_y` |
| `ElevationLoader.MirrorsPlaneGrid` | geology_mapper.py:48-50 | for a square band at the plane's resolution, the elevation grid has the plane grid's longitudes and its latitude rows in reverse order |
| `Intersection.SubCell` | geology_mapper.py:61 | a difference is present only when both operands are, and then adding back the subtrahend gives the minuend |
| `Intersection.Subtract` | geology_mapper.py:61 | elementwise subtraction keeps the grid's shape, cell by cell |
| `Intersection.Difference` | geology_mapper.py:58-61 | `diff` has the plane grid's shape; a missing terrain cell gives a missing cell; a present one gives plane minus terrain |
| `Intersection.SubtractAntisymmetric` | geology_mapper.py:61 | swapping the operands negates every present cell and keeps missing cells missing |
| `Intersection.DifferenceRecoversTerrain` | geology_mapper.py:61 | plane minus difference gives the terrain grid back exactly, missing cells included |
| `Intersection.DifferenceSign` | geology_mapper.py:61 | a difference is zero, positive or negative exactly when the terrain is present and on, below or above the plane |
| `Intersection.ZeroContourOnPlane` | geology_mapper.py:61-64 | over `generate_plane`'s grid the difference is zero exactly where a present terrain altitude lies on the geological plane |

## Left out

- Streamlit page, sidebar widgets and button (geology_mapper.py:1-27, 74-79): this is user interface. The sidebar values become parameters.
- The degree-to-radian conversion and `sin`/`cos` (geology_mapper.py:31-35): Dafny has no trigonometry. `Orientation` takes the four sines and cosines as given reals, and `GeneratePlane` takes the normal directly.
- `PlaneAltitude`, `PlaneSurface`, `GeneratePlane` require `nz != 0`: over exact reals a vertical plane (dip 90°) has no altitude. In floating point, NumPy's `cos(90°)` is tiny but non-zero, and an exact zero would give infinities or NaN rather than an error. Neither behaviour is modelled.
- Floating-point rounding in general: the model computes over mathematical reals. This includes NumPy's explicit write of `stop` into the last `linspace` value, which over the reals is already `start + (num - 1) * step`.
- `elevation.clip` and `rasterio.open` (geology_mapper.py:45-47): file and network I/O. The band's row and column counts are parameters of `CoordinateGrids`.
- `scipy.interpolate.griddata` (geology_mapper.py:56-58): a library call for scattered linear interpolation. Its result is an input grid of `Option<real>`, with `None` where it yields NaN.
- `Difference` requires grids of the same shape. `griddata` returns the shape of the query grid, so the source only ever subtracts same-shaped arrays. NumPy broadcasting is not modelled.
- The Plotly figure (geology_mapper.py:63-72): rendering only. The axis extraction it uses (`xx[0]`, `yy[:, 0]`) is modelled as `MeshGridAxes`.
- `thickness` (geology_mapper.py:19): it is read but never used.
