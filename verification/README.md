# LASTILEADOR cube tiler, modelled in Dafny

LASTILEADOR cuts a LAS point cloud into cubes. `process_file` works in these steps:

1. It reads the cloud and takes the least and greatest x, y and z.
2. It snaps those bounds outward to multiples of `cube_size`.
3. It lays cube centres half a cube above each multiple with `numpy.arange`.
4. It inflates every cube by `overlap` on each face.
5. It visits the cubes with x outermost, then y, then z. For each cube it selects the points that satisfy `lo <= coordinate < hi` on all three axes.
6. It skips a cube that selects nothing. Otherwise it writes the selected points, in source order and under the source header, to
   `<base>_<xmin>_<ymin>_<zmin>_<xmax>_<ymax>_<zmax>_OV<suffix>.las`.
   The six integers are the floors of the inflated bounds. `<suffix>` is the overlap as `get_overlap_with_unit` formats it.

The project models that pipeline with exact real arithmetic. A point is three `real` coordinates plus an opaque attribute value. The LAS header is an opaque type parameter. A write is an `Output(name, header, points)` record. The output folder is a map from file names to files. The run starts from whatever files the folder already holds (by default it is the input's own directory, so it holds at least the input file), and each write, in order, replaces the file under its name.

Modules, in dependency order:

- `RealMath` (real_math.dfy): the numpy and Python rounding used by the tiler. It covers `np.floor`, `np.ceil`, and `int()` truncating toward zero. It also holds a `Mul` wrapper for products of an index and the cube size, with its order lemmas.
- `Decimal` (decimal.dfy): Python's decimal text of an `int`, together with a parser that reads it back.
- `OverlapUnit` (overlap_unit.dfy): `get_overlap_with_unit`, as a `Suffix(value, unit)`.
- `Grid` (grid.dfy): one axis of the lattice. It covers the snapping, `numpy.arange`, the inflated half-open cube interval, and bin indices.
- `Tiling` (tiling.dfy): the three-axis pipeline. It covers bounds, keys in loop order, masks, tiles, names, the run itself (`ProcessFile`) and the output folder (`Written`).
- `TilingProperties` (tiling_properties.dfy): where each point goes with and without overlap, and when two names coincide.
- `RunProperties` (run_properties.dfy): what a whole run writes. It also works a concrete quarter-metre example in which names collide, and sets the source's lattice against a covering one.

## Model

| member | source | states |
|---|---|---|
| OverlapUnit.OverlapWithUnit | LASTILEADOR.py:21-33 | The unit is dm exactly when overlap >= 1, cm exactly on [0.1, 1) and mm exactly on [0.01, 0.1); below that it is the "um" branch. The value is the overlap times 10, 100, 1000 or 10000, truncated toward zero like Python's int(): between the product and the product minus one for a non-negative overlap, and the mirror bound for a negative one. |
| OverlapUnit.SuffixReadsBack | LASTILEADOR.py:26-33 | The suffix read back as a length (value / units per metre) is the overlap rounded toward zero to a whole number of its unit: within one unit below it, or above it for a negative overlap. |
| OverlapUnit.SuffixValueRanges | LASTILEADOR.py:26-33 | For a non-negative overlap, the dm, cm and mm values are at least 10, and the cm, mm and um values lie in 0..99. |
| OverlapUnit.SevenMillimetresUnreachable | LASTILEADOR.py:24-33 | No overlap at all is formatted as "7mm", the example the function's own description gives. |
| OverlapUnit.DefaultOverlapText | LASTILEADOR.py:32-33 | The default overlap 0 is formatted as Suffix(0, um) and written "0um". |
| OverlapUnit.HalfCentimetreText | LASTILEADOR.py:30-33 | 0.005 m falls below the mm threshold and is written "50um". |
| OverlapUnit.MetresMonotone | LASTILEADOR.py:26-33 | A larger non-negative overlap never reads back as a shorter length, including across a unit change. |
| Decimal.NatToString | LASTILEADOR.py:105-110 | The decimal text of a natural number is non-empty, all digits, and has no leading zero. |
| Decimal.IntRoundTrip | LASTILEADOR.py:105-110 | IntToString, the f-string's text of an integer: parsing it back gives that integer, negatives included. |
| Decimal.IntToStringInjective | LASTILEADOR.py:105-110 | Distinct integers are written as distinct texts. |
| Grid.Arange | LASTILEADOR.py:62-64 | The k-th value is start + k * step. Every value is below stop, and one more step would reach stop or beyond. |
| Grid.SnapDownIndex | LASTILEADOR.py:54 | floor(v / cube_size) * cube_size is the multiple of cube_size at or below v, less than one cube below v. |
| Grid.SnapUpIndex | LASTILEADOR.py:55 | ceil(v / cube_size) * cube_size is the multiple of cube_size at or above v, less than one cube above v. |
| Grid.PlanAxis | LASTILEADOR.py:54-64 | Each snapped bound is a multiple of cube_size within one cube of the true bound on the outside. The k-th centre is snappedMin + cube_size / 2 + k * cube_size. The number of centres is (snappedMax - snappedMin) / cube_size. |
| Grid.EmptyAxisLattice | LASTILEADOR.py:54-64 | An axis has no centres exactly when its true minimum and maximum are the same multiple of cube_size. |
| Grid.CubeInterval | LASTILEADOR.py:67-80 | A cube's interval has width cube_size + 2 * overlap and the same centre as the cube. |
| Grid.TileIntervalPosition | LASTILEADOR.py:75-80 | TileInterval, one axis of an inflated cube: cube k spans [snappedMin + k * cube_size - overlap, snappedMin + (k + 1) * cube_size + overlap). |
| Grid.NoOverlapAxisMembership | LASTILEADOR.py:83-87 | With overlap 0, a value passes the half-open test of cube k exactly when floor((v - snappedMin) / cube_size) = k. |
| Grid.SharedFaceAxis | LASTILEADOR.py:75-87 | A value strictly within overlap of the face that cubes k and k + 1 share passes the test of both. |
| Grid.LowerBoundFloorsDiffer | LASTILEADOR.py:98-100 | With cube_size >= 1, two different cubes of an axis have lower bounds with different floors. |
| Grid.CoveringPlanAxis | LASTILEADOR.py:54-64 | The corrected axis lattice: the true minimum is at or above snappedMin, the true maximum is strictly below snappedMax, there is at least one centre, and the spacing is regular. |
| Tiling.MinCoord | LASTILEADOR.py:54-58 | x.min() (and likewise for y and z) is at most every coordinate and is attained by some point. |
| Tiling.MaxCoord | LASTILEADOR.py:55-59 | x.max() (and likewise for y and z) is at least every coordinate and is attained by some point. |
| Tiling.Plan | LASTILEADOR.py:53-64 | The three axis lattices built from the scanned bounds are regular, and every point lies between the snapped bounds on every axis. |
| Tiling.CoveringPlan | LASTILEADOR.py:53-64 | The corrected lattice encloses every point and keeps every point strictly below the top edge on every axis. |
| Tiling.LatticeKeys | LASTILEADOR.py:71-73 | The nested loops visit each cube of the lattice exactly once, x outermost, then y, then z, in strictly increasing key order. |
| Tiling.TileBoxBounds | LASTILEADOR.py:75-80 | TileBox, the bounds of line 75-80 on all three axes: along each axis the box of key k spans [snappedMin + k * cube_size - overlap, snappedMin + (k + 1) * cube_size + overlap). |
| Tiling.MaskIndices | LASTILEADOR.py:83-88 | las.points[mask] selects a point exactly when it passes the half-open test on all three axes, each point at most once, in increasing source order. |
| Tiling.MaskSelectsFilter | LASTILEADOR.py:83-88 | Gathering the masked indices gives the points of the box in source order, the same as filtering the point list. |
| Tiling.SelectTiles | LASTILEADOR.py:71-91 | Every kept tile is a visited cube, carries the cube's inflated box and its mask, and is non-empty, because empty cubes are skipped. |
| Tiling.CloudTiles | LASTILEADOR.py:71-91 | The loop nest over the whole lattice: every tile it keeps is a cube of the lattice, with that cube's inflated box, its mask, and at least one point. |
| Tiling.CloudTilesComplete | LASTILEADOR.py:71-91 | Every cube of the lattice whose mask selects a point yields a tile. |
| Tiling.CloudTilesOrdered | LASTILEADOR.py:71-73 | Tiles come out in strictly increasing loop order. |
| Tiling.TileNameFormat | LASTILEADOR.py:98-110 | TileName, built from NameFields and JoinFields, spelled out: base, then the floors of x_min, y_min, z_min, x_max, y_max, z_max, each after an underscore, then "_OV", the overlap suffix and ".las". |
| Tiling.ProcessFile | LASTILEADOR.py:49-114 | A run fails exactly when the point cloud is empty, because min() raises inside the try. Otherwise every written file is built on the source header and holds at least one point. |
| Tiling.ProcessFileCovering | LASTILEADOR.py:49-114 | The corrected run fails exactly when the point cloud is empty. |
| Tiling.WrittenNames | LASTILEADOR.py:111-114 | Written, the folder after the writes in order: it holds a file under a name exactly when the folder held one before the run or some write used that name. |
| Tiling.WrittenKeeps | LASTILEADOR.py:111-114 | A file already in the folder under a name no write uses is still there, unchanged, after the run. |
| Tiling.WrittenLast | LASTILEADOR.py:111-114 | In Written, whatever the folder held before, a file is what the folder holds under its name when no later write reuses that name. |
| TilingProperties.TileMembership | LASTILEADOR.py:83-88 | A tile holds point i exactly when the point lies in the tile's inflated box. |
| TilingProperties.NoOverlapTileKey | LASTILEADOR.py:83-87 | With overlap 0, a tile holding a point is the tile of the point's bin, floor((coord - snappedMin) / cube_size), on every axis, and the point lies below the top edge. |
| TilingProperties.NoOverlapPartition | LASTILEADOR.py:54-87 | With overlap 0, a point is in some tile exactly when it lies strictly below snappedMax on all three axes, and it is in at most one tile. |
| TilingProperties.OverlapCoverage | LASTILEADOR.py:67-87 | With overlap > 0 and a non-empty lattice on every axis, every point is in some tile, including points on the top edge. |
| TilingProperties.SharedFaceDuplication | LASTILEADOR.py:67-88 | A point strictly within overlap of the face two neighbouring cubes share, and inside both on the other axes, is in both tiles, the earlier cube's first. |
| TilingProperties.JoinFieldsInjective | LASTILEADOR.py:105-110 | Two equally long lists of integers joined with underscores before the same tail give the same text only when the lists are equal. |
| TilingProperties.TileNameInjective | LASTILEADOR.py:98-110 | Two boxes get the same file name exactly when their six floored bounds agree. |
| TilingProperties.OrderedKeysNamed | LASTILEADOR.py:98-110 | With cube_size >= 1, two different cubes of the lattice get different names. |
| TilingProperties.DistinctNames | LASTILEADOR.py:98-110 | With cube_size >= 1, two different tiles of one run get different file names. |
| RunProperties.ProcessFileOutputs | LASTILEADOR.py:71-110 | A run writes exactly one file per non-empty tile, in loop order. Each file has the tile's name and the source header, and holds the filter of the points by the tile's box. |
| RunProperties.AllOutputsSurvive | LASTILEADOR.py:105-114 | With cube_size >= 1 no write replaces another, so whatever the folder held before, it ends up holding every output under its own name. |
| RunProperties.FlatAxisOnMultipleWritesNothing | LASTILEADOR.py:54-73 | When every point has the same coordinate on an axis and that coordinate is a multiple of cube_size, the run succeeds and writes no file. |
| RunProperties.OriginPointWritesNothing | LASTILEADOR.py:54-73 | A single point at the origin, with the default cube size 1 and overlap 0, produces no file. |
| RunProperties.MaximumOnMultipleDropped | LASTILEADOR.py:55-87 | With overlap 0, a point whose coordinate is the axis maximum, when that maximum is a multiple of cube_size, is in no tile. |
| RunProperties.CoveringPartition | LASTILEADOR.py:54-87 | On the corrected lattice with overlap 0, every point is in exactly one tile. |
| RunProperties.CoveringWritesEveryPoint | LASTILEADOR.py:54-95 | On the corrected lattice every point reaches some written file, for any non-negative overlap. |
| RunProperties.OverlapWritesEveryPoint | LASTILEADOR.py:54-95 | With overlap > 0 and no axis flat on a multiple of cube_size, every point reaches some written file. |
| RunProperties.QuarterMetreTiles | LASTILEADOR.py:71-91 | With cube_size 0.25, the points (0.1, 0.1, 0.1) and (0.3, 0.1, 0.1) form two tiles, [0, 0.25) and [0.25, 0.5) along x, with one point each. |
| RunProperties.QuarterMetreNameCollision | LASTILEADOR.py:98-114 | In that example both files are named base_0_0_0_0_0_0_OV0um.las, and whatever the folder held before, it ends up with the second under that name, so the first point is lost. |

## Left out

- The tkinter window, the file and folder pickers and the message boxes (LASTILEADOR.py:1-19, 116-157) are user interface with no tiling logic.
- Reading and writing LAS files through laspy is a foreign codec. The header is an opaque type, the points are a sequence of records, and a write is an `Output` record. The folder is a map from names to files, and the files it holds before the run are a parameter of `Written`. A file already there is taken to be a LAS file of the same shape as an output, and the model says nothing about its contents beyond keeping or replacing it. The updates laspy makes to a header when it writes a file, such as the tile's own point count and extents, are not modelled: an output carries the source header as passed in.
- os.path is not modelled. The input and folder checks of lines 41-47 are not modelled; the base name of line 106 is a string parameter and the path join of line 111 is left out.
- `float()` parsing of the text fields is not modelled, and neither is IEEE-754 rounding in `np.arange` step accumulation or in products such as `2.1 * 10`. All arithmetic is exact over `real`, so the lemmas are statements about exact arithmetic.
- A cube size of zero or below is excluded by the precondition `cs > 0`: numpy divides by it and `arange` rejects a zero step. A negative overlap is accepted, and the formatter truncates it toward zero as Python's int() does. The coverage lemmas state `overlap >= 0` or `overlap > 0` where they need it.
- The catch-all exception handler (lines 118-119) is modelled only for the one error the tiling itself raises: `min()` of an empty cloud, `Failure(EmptyInput)`. I/O errors belong to the left-out codec.
- GENERADOR_CUBO.py is a test-data generator with no tiling logic and is not part of this model.
- 0.005 m is written "50um": 0.005 is below the 0.01 threshold and the last branch multiplies by 10000 (`OverlapUnit.HalfCentimetreText`).
- The unit the code labels "um" is a tenth of a millimetre, since the code multiplies by 10000. The model keeps the label and uses the factor actually applied.
- The name collision for cube sizes below one metre is stated as a model property (`RunProperties.QuarterMetreNameCollision`), not as a finding. The code gives no sign of which unique name was intended, so no corrected naming is proposed.

## Findings

| source | as written | input that shows it | evidently intended | confidence | as-written member | corrected member |
|---|---|---|---|---|---|---|
| LASTILEADOR.py:55-87 | The top edge is ceil(max / cube_size) * cube_size and the mask is half-open, so with overlap 0 a point whose coordinate is the axis maximum, when that maximum is a multiple of cube_size, passes no mask and is never written. | cube_size 1, overlap 0, points x = 0.5 and x = 1.0 (same y, z): the point at x = 1.0 is in no file. | Every point is written to exactly one file when the overlap is 0. The corrected top edge is (floor(max / cube_size) + 1) * cube_size. | high; not executed | RunProperties.MaximumOnMultipleDropped | RunProperties.CoveringPartition |
| LASTILEADOR.py:54-73 | When all points share one coordinate on an axis and it is a multiple of cube_size, the snapped min and max coincide, arange yields no centres, and the run writes nothing at all. | A single point at (0, 0, 0) with the default cube_size 1 and overlap 0: no file is written. | Every point reaches some output file. The corrected lattice always has at least one centre per axis. | high; not executed | RunProperties.FlatAxisOnMultipleWritesNothing | RunProperties.CoveringWritesEveryPoint |
