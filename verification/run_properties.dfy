/** Properties of a whole run of process_file: the files it writes, the folder they leave,
    and the points the as-written lattice loses, set against the covering lattice. */
module RunProperties {
  import opened RealMath
  import opened Decimal
  import opened OverlapUnit
  import opened Grid
  import opened Tiling
  import opened TilingProperties

  /** Each written file is one non-empty tile of the lattice, in loop order: named from the
      tile's inflated bounds and the overlap suffix, under the source header, and holding the
      points of the tile's box in source order. */
  lemma ProcessFileOutputs<A, H>(base: string, header: H, pts: seq<Point<A>>, cs: real, ov: real)
    requires cs > 0.0 && |pts| > 0
    ensures var ts := CloudTiles(pts, Plan(pts, cs), cs, ov);
      var outs := ProcessFile(base, header, pts, cs, ov).value;
      && |outs| == |ts|
      && forall t :: 0 <= t < |ts| ==>
        && outs[t].name == TileName(base, ts[t].box, OverlapWithUnit(ov))
        && outs[t].header == header
        && outs[t].points == Filter(pts, ts[t].box)
  {
    var ts := CloudTiles(pts, Plan(pts, cs), cs, ov);
    forall t | 0 <= t < |ts| {
      MaskSelectsFilter(pts, ts[t].box);
    }
  }

  /** With cubes of at least one metre no write replaces another: whatever the folder held
      before, it ends up holding every output under its own name. */
  lemma AllOutputsSurvive<A, H>(folder: map<string, Output<A, H>>, base: string, header: H, pts: seq<Point<A>>, cs: real, ov: real)
    requires 1.0 <= cs && |pts| > 0
    ensures var outs := ProcessFile(base, header, pts, cs, ov).value;
      forall t :: 0 <= t < |outs| ==> outs[t].name in Written(folder, outs) && Written(folder, outs)[outs[t].name] == outs[t]
  {
    var g := Plan(pts, cs);
    var ts := CloudTiles(pts, g, cs, ov);
    var outs := ProcessFile(base, header, pts, cs, ov).value;
    ProcessFileOutputs(base, header, pts, cs, ov);
    forall t | 0 <= t < |outs|
      ensures outs[t].name in Written(folder, outs) && Written(folder, outs)[outs[t].name] == outs[t]
    {
      forall u | t < u < |outs|
        ensures outs[u].name != outs[t].name
      {
        DistinctNames(pts, g, cs, ov, base, OverlapWithUnit(ov), t, u);
      }
      WrittenLast(folder, outs, t);
    }
  }

  /** The lattice of one axis, as Plan builds it. */
  lemma PlanAlong<A>(pts: seq<Point<A>>, cs: real, a: Axis)
    requires cs > 0.0 && |pts| > 0
    ensures Plan(pts, cs).Along(a) == PlanAxis(MinCoord(pts, a), MaxCoord(pts, a), cs)
  {
    match a
    case X =>
    case Y =>
    case Z =>
  }

  /** A multiple of the cube size snaps to itself, downward and upward. */
  lemma SnapMultiple(m: int, cs: real)
    requires cs > 0.0
    ensures SnapDownIndex(Mul(m as real, cs), cs) == m
    ensures SnapUpIndex(Mul(m as real, cs), cs) == m
  {
    var v := Mul(m as real, cs);
    var d, u := SnapDownIndex(v, cs), SnapUpIndex(v, cs);
    MulOrder(d as real, m as real, cs);
    MulOrder(m as real, (d + 1) as real, cs);
    MulOrder((u - 1) as real, m as real, cs);
    MulOrder(m as real, u as real, cs);
  }

  /** When every point has the same coordinate along an axis and that coordinate is a
      multiple of the cube size, the axis has no centres and the run writes no file. */
  lemma FlatAxisOnMultipleWritesNothing<A, H>(base: string, header: H, pts: seq<Point<A>>, cs: real, ov: real, a: Axis, m: int)
    requires cs > 0.0 && |pts| > 0
    requires forall i :: 0 <= i < |pts| ==> Coord(pts[i], a) == Mul(m as real, cs)
    ensures ProcessFile(base, header, pts, cs, ov) == Success([])
  {
    var v := Mul(m as real, cs);
    var g := Plan(pts, cs);
    var lo :| 0 <= lo < |pts| && Coord(pts[lo], a) == MinCoord(pts, a);
    var hi :| 0 <= hi < |pts| && Coord(pts[hi], a) == MaxCoord(pts, a);
    SnapMultiple(m, cs);
    EmptyAxisLattice(v, v, cs);
    PlanAlong(pts, cs, a);
    assert |g.Along(a).centres| == 0;
    assert forall key :: !InLattice(g, key) by {
      match a
      case X =>
      case Y =>
      case Z =>
    }
  }

  /** A single point at the origin with one-metre cubes and no overlap: a run that writes
      nothing. */
  lemma OriginPointWritesNothing<A, H>(base: string, header: H, attrs: A)
    ensures ProcessFile(base, header, [Point(0.0, 0.0, 0.0, attrs)], 1.0, 0.0) == Success([])
  {
    MulZero(1.0);
    FlatAxisOnMultipleWritesNothing(base, header, [Point(0.0, 0.0, 0.0, attrs)], 1.0, 0.0, X, 0);
  }

  /** Without overlap, a point whose coordinate is the maximum along an axis, when that
      maximum is a multiple of the cube size, sits on the exclusive top edge and no tile
      selects it. */
  lemma MaximumOnMultipleDropped<A>(pts: seq<Point<A>>, cs: real, i: int, a: Axis, m: int)
    requires cs > 0.0 && 0 <= i < |pts|
    requires Coord(pts[i], a) == MaxCoord(pts, a) == Mul(m as real, cs)
    ensures !InSomeTile(CloudTiles(pts, Plan(pts, cs), cs, 0.0), i)
  {
    var g := Plan(pts, cs);
    SnapMultiple(m, cs);
    PlanAlong(pts, cs, a);
    assert g.Along(a).snappedMax == Coord(pts[i], a);
    assert !BelowTop(g, pts[i]) by {
      match a
      case X =>
      case Y =>
      case Z =>
    }
    NoOverlapPartition(pts, g, cs, i);
  }

  /** On the covering lattice, without overlap, every point lies in exactly one tile. */
  lemma CoveringPartition<A>(pts: seq<Point<A>>, cs: real, i: int)
    requires cs > 0.0 && 0 <= i < |pts|
    ensures var ts := CloudTiles(pts, CoveringPlan(pts, cs), cs, 0.0);
      && InSomeTile(ts, i)
      && forall t, u :: 0 <= t < |ts| && 0 <= u < |ts| && i in ts[t].members && i in ts[u].members ==> t == u
  {
    NoOverlapPartition(pts, CoveringPlan(pts, cs), cs, i);
  }

  /** A run on the covering lattice writes every point to some file, whatever the overlap. */
  lemma CoveringWritesEveryPoint<A, H>(base: string, header: H, pts: seq<Point<A>>, cs: real, ov: real, i: int)
    requires cs > 0.0 && 0.0 <= ov && 0 <= i < |pts|
    ensures var outs := ProcessFileCovering(base, header, pts, cs, ov).value;
      exists t :: 0 <= t < |outs| && pts[i] in outs[t].points
  {
    var g := CoveringPlan(pts, cs);
    var ts := CloudTiles(pts, g, cs, ov);
    var outs := ProcessFileCovering(base, header, pts, cs, ov).value;
    if ov == 0.0 {
      CoveringPartition(pts, cs, i);
    } else {
      OverlapCoverage(pts, g, cs, ov, i);
    }
    var t :| 0 <= t < |ts| && i in ts[t].members;
    CloudTilesInRange(pts, g, cs, ov);
    EmittedPoint(base, header, pts, ts, OverlapWithUnit(ov), t, i);
    ProcessFileCoveringIsEmit(base, header, pts, cs, ov);
  }

  /** A run on a non-empty point set writes one file per tile of the planned lattice. */
  lemma ProcessFileIsEmit<A, H>(base: string, header: H, pts: seq<Point<A>>, cs: real, ov: real)
    requires cs > 0.0 && |pts| > 0
    ensures ProcessFile(base, header, pts, cs, ov)
      == Success(Emit(base, header, pts, CloudTiles(pts, Plan(pts, cs), cs, ov), OverlapWithUnit(ov)))
  {
  }

  /** The same for a run on the covering lattice. */
  lemma ProcessFileCoveringIsEmit<A, H>(base: string, header: H, pts: seq<Point<A>>, cs: real, ov: real)
    requires cs > 0.0 && |pts| > 0
    ensures ProcessFileCovering(base, header, pts, cs, ov)
      == Success(Emit(base, header, pts, CloudTiles(pts, CoveringPlan(pts, cs), cs, ov), OverlapWithUnit(ov)))
  {
  }

  /** A point a tile selected is in the file written for that tile. */
  lemma EmittedPoint<A, H>(base: string, header: H, pts: seq<Point<A>>, ts: seq<Tile>, suffix: Suffix, t: int, i: int)
    requires forall t, q :: 0 <= t < |ts| && 0 <= q < |ts[t].members| ==> ts[t].members[q] < |pts|
    requires 0 <= t < |ts| && i in ts[t].members
    ensures pts[i] in Emit(base, header, pts, ts, suffix)[t].points
  {
    var q :| 0 <= q < |ts[t].members| && ts[t].members[q] == i;
    assert Emit(base, header, pts, ts, suffix)[t].points[q] == pts[i];
  }

  /** With a positive overlap, every point is written as long as no axis is flat on a
      multiple of the cube size. */
  lemma OverlapWritesEveryPoint<A, H>(base: string, header: H, pts: seq<Point<A>>, cs: real, ov: real, i: int)
    requires cs > 0.0 && 0.0 < ov && 0 <= i < |pts|
    requires forall a: Axis ::
      (MinCoord(pts, a) < MaxCoord(pts, a) || MinCoord(pts, a) != Mul(SnapDownIndex(MinCoord(pts, a), cs) as real, cs))
    ensures var outs := ProcessFile(base, header, pts, cs, ov).value;
      exists t :: 0 <= t < |outs| && pts[i] in outs[t].points
  {
    var g := Plan(pts, cs);
    var ts := CloudTiles(pts, g, cs, ov);
    var outs := ProcessFile(base, header, pts, cs, ov).value;
    forall a: Axis
      ensures 0 < |g.Along(a).centres|
    {
      PlanAlong(pts, cs, a);
      EmptyAxisLattice(MinCoord(pts, a), MaxCoord(pts, a), cs);
    }
    assert 0 < |g.Along(X).centres| && 0 < |g.Along(Y).centres| && 0 < |g.Along(Z).centres|;
    OverlapCoverage(pts, g, cs, ov, i);
    var t :| 0 <= t < |ts| && i in ts[t].members;
    CloudTilesInRange(pts, g, cs, ov);
    EmittedPoint(base, header, pts, ts, OverlapWithUnit(ov), t, i);
    ProcessFileIsEmit(base, header, pts, cs, ov);
  }

  /** Quarter-metre cubes from 0.1 to 0.3 along an axis: two cubes from the origin. */
  lemma QuarterMetreWideAxis()
    ensures PlanAxis(0.1, 0.3, 0.25) == AxisLattice(0.0, 0.5, [0.125, 0.375])
  {
    var cs := 0.25;
    assert SnapDownIndex(0.1, cs) == 0 && SnapUpIndex(0.3, cs) == 2;
    MulZero(cs);
    assert Mul(1.0, cs) == 0.25 && Mul(2.0, cs) == 0.5;
    assert PlanAxis(0.1, 0.3, cs).centres == [0.125, 0.375];
  }

  /** Quarter-metre cubes around the single value 0.1: one cube from the origin. */
  lemma QuarterMetreNarrowAxis()
    ensures PlanAxis(0.1, 0.1, 0.25) == AxisLattice(0.0, 0.25, [0.125])
  {
    var cs := 0.25;
    assert SnapDownIndex(0.1, cs) == 0 && SnapUpIndex(0.1, cs) == 1;
    MulZero(cs);
    assert Mul(1.0, cs) == 0.25;
    assert PlanAxis(0.1, 0.1, cs).centres == [0.125];
  }

  /** The lattice of the two quarter-metre example points: two cubes along x, one along y
      and z, all from the origin. */
  lemma QuarterMetreLattice<A>(p0: Point<A>, p1: Point<A>)
    requires QuarterMetrePoints(p0, p1)
    ensures QuarterMetreGrid(Plan([p0, p1], 0.25))
  {
    var pts := [p0, p1];
    assert MinCoord(pts, X) == 0.1 && MaxCoord(pts, X) == 0.3;
    assert MinCoord(pts, Y) == 0.1 && MaxCoord(pts, Y) == 0.1;
    assert MinCoord(pts, Z) == 0.1 && MaxCoord(pts, Z) == 0.1;
    QuarterMetreWideAxis();
    QuarterMetreNarrowAxis();
  }

  /** Two cubes along x and one along y and z, visited x first. */
  lemma TwoByOneByOneKeys(g: Lattice)
    requires |g.x.centres| == 2 && |g.y.centres| == 1 && |g.z.centres| == 1
    ensures LatticeKeys(g) == [Key(0, 0, 0), Key(1, 0, 0)]
  {
    var k0, k1 := Key(0, 0, 0), Key(1, 0, 0);
    assert Column(0, 0, 1) == [k0] && Column(1, 0, 1) == [k1];
    assert Rows(0, 0, 1, 1) == [k0];
    assert Rows(1, 0, 1, 1) == [k1];
    assert Layers(2, 2, 1, 1) == [];
    assert Layers(1, 2, 1, 1) == [k1];
  }

  /** Each example point is in exactly one of the two example boxes. */
  lemma QuarterMetreMasks<A>(p0: Point<A>, p1: Point<A>)
    requires QuarterMetrePoints(p0, p1)
    ensures var quarter := Interval(0.0, 0.25);
      && MaskIndices([p0, p1], Box(quarter, quarter, quarter)) == [0]
      && MaskIndices([p0, p1], Box(Interval(0.25, 0.5), quarter, quarter)) == [1]
  {
    var pts := [p0, p1];
    var quarter := Interval(0.0, 0.25);
    var b0, b1 := Box(quarter, quarter, quarter), Box(Interval(0.25, 0.5), quarter, quarter);
    assert pts[..1] == [p0] && [p0][..0] == [];
    assert InBox(p0, b0) && !InBox(p1, b0) && !InBox(p0, b1) && InBox(p1, b1);
    assert MaskIndices([p0], b0) == [0] && MaskIndices([p0], b1) == [];
  }

  /** The inflated boxes of the two example cubes, without overlap. */
  lemma QuarterMetreBoxes(g: Lattice)
    requires QuarterMetreGrid(g)
    ensures var quarter := Interval(0.0, 0.25);
      && TileBox(g, Key(0, 0, 0), 0.25, 0.0) == Box(quarter, quarter, quarter)
      && TileBox(g, Key(1, 0, 0), 0.25, 0.0) == Box(Interval(0.25, 0.5), quarter, quarter)
  {
  }

  /** The lattice of the quarter-metre example. */
  predicate QuarterMetreGrid(g: Lattice) {
    g == Lattice(AxisLattice(0.0, 0.5, [0.125, 0.375]), AxisLattice(0.0, 0.25, [0.125]), AxisLattice(0.0, 0.25, [0.125]))
  }

  /** The example points. */
  predicate QuarterMetrePoints<A>(p0: Point<A>, p1: Point<A>) {
    && p0.x == 0.1 && p0.y == 0.1 && p0.z == 0.1
    && p1.x == 0.3 && p1.y == 0.1 && p1.z == 0.1
  }

  /** The cube of a key and the points it selects. */
  lemma CubeSelects<A>(pts: seq<Point<A>>, g: Lattice, cs: real, ov: real, key: Key, box: Box, members: seq<nat>)
    requires InLattice(g, key)
    requires TileBox(g, key, cs, ov) == box && MaskIndices(pts, box) == members
    ensures SelectTiles(pts, g, cs, ov, [key]) == if |members| == 0 then [] else [Tile(key, box, members)]
  {
    SelectTilesSnoc(pts, g, cs, ov, [], key);
    assert [] + [key] == [key];
  }

  /** The first example cube holds the first point. */
  lemma QuarterMetreFirstTile<A>(p0: Point<A>, p1: Point<A>, g: Lattice)
    requires QuarterMetrePoints(p0, p1) && QuarterMetreGrid(g)
    ensures var quarter := Interval(0.0, 0.25);
      SelectTiles([p0, p1], g, 0.25, 0.0, [Key(0, 0, 0)]) == [Tile(Key(0, 0, 0), Box(quarter, quarter, quarter), [0])]
  {
    var quarter := Interval(0.0, 0.25);
    QuarterMetreBoxes(g);
    QuarterMetreMasks(p0, p1);
    CubeSelects([p0, p1], g, 0.25, 0.0, Key(0, 0, 0), Box(quarter, quarter, quarter), [0]);
  }

  /** A second key whose mask is known and nonempty adds its tile after the first key's. */
  lemma SelectTilesPair<A>(pts: seq<Point<A>>, g: Lattice, cs: real, ov: real, k0: Key, k1: Key,
                           first: seq<Tile>, box: Box, members: seq<nat>)
    requires InLattice(g, k0) && InLattice(g, k1)
    requires SelectTiles(pts, g, cs, ov, [k0]) == first
    requires TileBox(g, k1, cs, ov) == box && MaskIndices(pts, box) == members && |members| > 0
    ensures SelectTiles(pts, g, cs, ov, [k0, k1]) == first + [Tile(k1, box, members)]
  {
    SelectTilesSnoc(pts, g, cs, ov, [k0], k1);
    assert [k0] + [k1] == [k0, k1];
  }

  /** The second example cube and the point it selects. */
  lemma QuarterMetreSecondCube<A>(p0: Point<A>, p1: Point<A>, g: Lattice)
    requires QuarterMetrePoints(p0, p1) && QuarterMetreGrid(g)
    ensures var quarter := Interval(0.0, 0.25);
      && TileBox(g, Key(1, 0, 0), 0.25, 0.0) == Box(Interval(0.25, 0.5), quarter, quarter)
      && MaskIndices([p0, p1], Box(Interval(0.25, 0.5), quarter, quarter)) == [1]
  {
    QuarterMetreBoxes(g);
    QuarterMetreMasks(p0, p1);
  }

  /** The second example cube holds the second point. */
  lemma QuarterMetreSecondTile<A>(p0: Point<A>, p1: Point<A>, g: Lattice)
    requires QuarterMetrePoints(p0, p1) && QuarterMetreGrid(g)
    ensures var quarter := Interval(0.0, 0.25);
      SelectTiles([p0, p1], g, 0.25, 0.0, [Key(0, 0, 0), Key(1, 0, 0)]) == [
        Tile(Key(0, 0, 0), Box(quarter, quarter, quarter), [0]),
        Tile(Key(1, 0, 0), Box(Interval(0.25, 0.5), quarter, quarter), [1])]
  {
    var quarter := Interval(0.0, 0.25);
    var first := Tile(Key(0, 0, 0), Box(quarter, quarter, quarter), [0]);
    var second := Tile(Key(1, 0, 0), Box(Interval(0.25, 0.5), quarter, quarter), [1]);
    QuarterMetreFirstTile(p0, p1, g);
    QuarterMetreSecondCube(p0, p1, g);
    SelectTilesPair([p0, p1], g, 0.25, 0.0, Key(0, 0, 0), Key(1, 0, 0), [first], Box(Interval(0.25, 0.5), quarter, quarter), [1]);
    assert [first] + [second] == [first, second];
  }

  /** The two tiles of the quarter-metre example, one point each. */
  lemma QuarterMetreTiles<A>(p0: Point<A>, p1: Point<A>, g: Lattice)
    requires QuarterMetrePoints(p0, p1) && QuarterMetreGrid(g)
    ensures var quarter := Interval(0.0, 0.25);
      CloudTiles([p0, p1], g, 0.25, 0.0) == [
        Tile(Key(0, 0, 0), Box(quarter, quarter, quarter), [0]),
        Tile(Key(1, 0, 0), Box(Interval(0.25, 0.5), quarter, quarter), [1])]
  {
    TwoByOneByOneKeys(g);
    QuarterMetreSecondTile(p0, p1, g);
  }

  /** A leading zero field is written "0_". */
  lemma ZeroThen(f: seq<int>, tail: string, text: string)
    requires JoinFields(f, tail) == text
    ensures JoinFields([0] + f, tail) == "0_" + text
  {
    assert ([0] + f)[1..] == f;
    assert IntToString(0) == "0";
  }

  /** Three zero fields before a tail. */
  lemma ThreeZeroFields(tail: string, text: string)
    requires JoinFields([], tail) == text
    ensures JoinFields([0, 0, 0], tail) == "0_0_0_" + text
  {
    ZeroThen([], tail, text);
    assert [0] + [] == [0];
    ZeroThen([0], tail, "0_" + text);
    assert [0] + [0] == [0, 0];
    ZeroThen([0, 0], tail, "0_0_" + text);
    assert [0] + [0, 0] == [0, 0, 0];
  }

  /** Three more zero fields in front of three. */
  lemma SixZeroFields(tail: string, text: string)
    requires JoinFields([0, 0, 0], tail) == text
    ensures JoinFields([0, 0, 0, 0, 0, 0], tail) == "0_0_0_" + text
  {
    ZeroThen([0, 0, 0], tail, text);
    assert [0] + [0, 0, 0] == [0, 0, 0, 0];
    ZeroThen([0, 0, 0, 0], tail, "0_" + text);
    assert [0] + [0, 0, 0, 0] == [0, 0, 0, 0, 0];
    ZeroThen([0, 0, 0, 0, 0], tail, "0_0_" + text);
    assert [0] + [0, 0, 0, 0, 0] == [0, 0, 0, 0, 0, 0];
  }

  /** Six zero fields before the default suffix. */
  lemma ZeroFieldsText()
    ensures JoinFields([0, 0, 0, 0, 0, 0], "OV0um.las") == "0_0_0_0_0_0_OV0um.las"
  {
    var t := "OV0um.las";
    ThreeZeroFields(t, t);
    SixZeroFields(t, "0_0_0_" + t);
  }

  /** Every example bound floors to 0. */
  lemma QuarterMetreFields()
    ensures var quarter := Interval(0.0, 0.25);
      && NameFields(Box(quarter, quarter, quarter)) == [0, 0, 0, 0, 0, 0]
      && NameFields(Box(Interval(0.25, 0.5), quarter, quarter)) == [0, 0, 0, 0, 0, 0]
  {
  }

  /** The default suffix written after the fields. */
  lemma DefaultTail()
    ensures "OV" + OverlapWithUnit(0.0).Text() + ".las" == "OV0um.las"
  {
    DefaultOverlapText();
  }

  /** A box whose bounds all floor to 0 is named with six zero fields. */
  lemma ZeroBoxName(base: string, b: Box)
    requires NameFields(b) == [0, 0, 0, 0, 0, 0]
    ensures TileName(base, b, OverlapWithUnit(0.0)) == base + "_" + "0_0_0_0_0_0_OV0um.las"
  {
    DefaultTail();
    ZeroFieldsText();
    assert JoinFields(NameFields(b), "OV" + OverlapWithUnit(0.0).Text() + ".las") == "0_0_0_0_0_0_OV0um.las";
  }

  /** Every bound of either example box floors to 0, so both get one name. */
  lemma QuarterMetreNames(base: string)
    ensures var quarter := Interval(0.0, 0.25);
      && TileName(base, Box(quarter, quarter, quarter), OverlapWithUnit(0.0)) == base + "_" + "0_0_0_0_0_0_OV0um.las"
      && TileName(base, Box(Interval(0.25, 0.5), quarter, quarter), OverlapWithUnit(0.0)) == base + "_" + "0_0_0_0_0_0_OV0um.las"
  {
    var quarter := Interval(0.0, 0.25);
    QuarterMetreFields();
    ZeroBoxName(base, Box(quarter, quarter, quarter));
    ZeroBoxName(base, Box(Interval(0.25, 0.5), quarter, quarter));
  }

  /** Two writes under one name leave only the second file under it. */
  lemma SecondWriteWins<A, H>(folder: map<string, Output<A, H>>, first: Output<A, H>, second: Output<A, H>)
    requires first.name == second.name
    ensures Written(folder, [first, second]) == folder[second.name := second]
  {
    assert [first, second][..1] == [first];
    assert [first][..0] == [];
    assert Written(folder, [first]) == folder[first.name := first];
    assert Written(folder, [first, second]) == folder[first.name := first][second.name := second];
  }

  /** The files written for the two example tiles. */
  lemma QuarterMetreEmit<A, H>(base: string, header: H, p0: Point<A>, p1: Point<A>)
    ensures var quarter := Interval(0.0, 0.25);
      var ts := [
        Tile(Key(0, 0, 0), Box(quarter, quarter, quarter), [0]),
        Tile(Key(1, 0, 0), Box(Interval(0.25, 0.5), quarter, quarter), [1])];
      var name := base + "_" + "0_0_0_0_0_0_OV0um.las";
      Emit(base, header, [p0, p1], ts, OverlapWithUnit(0.0)) == [Output(name, header, [p0]), Output(name, header, [p1])]
  {
    QuarterMetreNames(base);
    assert Gather([p0, p1], [0]) == [p0] && Gather([p0, p1], [1]) == [p1];
  }

  /** The files the quarter-metre example writes. */
  lemma QuarterMetreOutputs<A, H>(base: string, header: H, a0: A, a1: A)
    ensures var p0, p1 := Point(0.1, 0.1, 0.1, a0), Point(0.3, 0.1, 0.1, a1);
      var name := base + "_" + "0_0_0_0_0_0_OV0um.las";
      ProcessFile(base, header, [p0, p1], 0.25, 0.0).value == [Output(name, header, [p0]), Output(name, header, [p1])]
  {
    var p0, p1 := Point(0.1, 0.1, 0.1, a0), Point(0.3, 0.1, 0.1, a1);
    var pts := [p0, p1];
    var g := Plan(pts, 0.25);
    QuarterMetreLattice(p0, p1);
    QuarterMetreTiles(p0, p1, g);
    QuarterMetreEmit(base, header, p0, p1);
  }

  /** Quarter-metre cubes without overlap: the points (0.1, 0.1, 0.1) and (0.3, 0.1, 0.1)
      fall in neighbouring cubes whose bounds all floor to 0, so both files get the same
      name and the second write replaces the first, losing the first point. */
  lemma QuarterMetreNameCollision<A, H>(folder: map<string, Output<A, H>>, base: string, header: H, a0: A, a1: A)
    ensures var p0, p1 := Point(0.1, 0.1, 0.1, a0), Point(0.3, 0.1, 0.1, a1);
      var outs := ProcessFile(base, header, [p0, p1], 0.25, 0.0).value;
      && |outs| == 2
      && outs[0].name == outs[1].name == base + "_" + "0_0_0_0_0_0_OV0um.las"
      && outs[0].points == [p0] && outs[1].points == [p1]
      && Written(folder, outs) == folder[outs[1].name := outs[1]]
  {
    var p0, p1 := Point(0.1, 0.1, 0.1, a0), Point(0.3, 0.1, 0.1, a1);
    QuarterMetreOutputs(base, header, a0, a1);
    var outs := ProcessFile(base, header, [p0, p1], 0.25, 0.0).value;
    SecondWriteWins(folder, outs[0], outs[1]);
    assert outs == [outs[0], outs[1]];
  }
}
