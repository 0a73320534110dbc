/** The tiler of process_file: bounds of the point set, the three-axis lattice of cubes, the
    mask that selects each cube's points, the non-empty cubes written in loop order under a
    name built from their floored bounds, and the folder those writes leave behind. */
module Tiling {
  import opened RealMath
  import opened Decimal
  import opened OverlapUnit
  import opened Grid

  /** A point record: real-world coordinates and the remaining attributes, which the tiler
      carries along untouched. */
  datatype Point<A> = Point(x: real, y: real, z: real, attributes: A)

  datatype Axis = X | Y | Z

  function Coord<A>(p: Point<A>, a: Axis): real {
    match a
    case X => p.x
    case Y => p.y
    case Z => p.z
  }

  /** las.x.min(), las.y.min(), las.z.min(): the least coordinate along an axis. */
  function MinCoord<A>(pts: seq<Point<A>>, a: Axis): (m: real)
    requires |pts| > 0
    ensures forall i :: 0 <= i < |pts| ==> m <= Coord(pts[i], a)
    ensures exists i :: 0 <= i < |pts| && Coord(pts[i], a) == m
    decreases |pts|
  {
    var last := Coord(pts[|pts| - 1], a);
    if |pts| == 1 then last
    else
      var rest := MinCoord(pts[..|pts| - 1], a);
      assert forall i :: 0 <= i < |pts| - 1 ==> pts[..|pts| - 1][i] == pts[i];
      if last < rest then last else rest
  }

  /** las.x.max(), las.y.max(), las.z.max(): the greatest coordinate along an axis. */
  function MaxCoord<A>(pts: seq<Point<A>>, a: Axis): (m: real)
    requires |pts| > 0
    ensures forall i :: 0 <= i < |pts| ==> Coord(pts[i], a) <= m
    ensures exists i :: 0 <= i < |pts| && Coord(pts[i], a) == m
    decreases |pts|
  {
    var last := Coord(pts[|pts| - 1], a);
    if |pts| == 1 then last
    else
      var rest := MaxCoord(pts[..|pts| - 1], a);
      assert forall i :: 0 <= i < |pts| - 1 ==> pts[..|pts| - 1][i] == pts[i];
      if last > rest then last else rest
  }

  /** The lattice of all three axes. */
  datatype Lattice = Lattice(x: AxisLattice, y: AxisLattice, z: AxisLattice) {
    function Along(a: Axis): AxisLattice {
      match a
      case X => x
      case Y => y
      case Z => z
    }
  }

  /** Every axis is regular and every point lies between the snapped bounds. */
  predicate Encloses<A>(g: Lattice, pts: seq<Point<A>>, cs: real) {
    && Regular(g.x, cs) && Regular(g.y, cs) && Regular(g.z, cs)
    && forall i :: 0 <= i < |pts| ==>
         && g.x.snappedMin <= pts[i].x <= g.x.snappedMax
         && g.y.snappedMin <= pts[i].y <= g.y.snappedMax
         && g.z.snappedMin <= pts[i].z <= g.z.snappedMax
  }

  /** The lattice process_file builds: each axis snapped outward from the scanned bounds. */
  function Plan<A>(pts: seq<Point<A>>, cs: real): (g: Lattice)
    requires cs > 0.0 && |pts| > 0
    ensures Encloses(g, pts, cs)
  {
    Lattice(
      PlanAxis(MinCoord(pts, X), MaxCoord(pts, X), cs),
      PlanAxis(MinCoord(pts, Y), MaxCoord(pts, Y), cs),
      PlanAxis(MinCoord(pts, Z), MaxCoord(pts, Z), cs))
  }

  /** The lattice whose top edges lie one cube above the floor of each maximum. */
  function CoveringPlan<A>(pts: seq<Point<A>>, cs: real): (g: Lattice)
    requires cs > 0.0 && |pts| > 0
    ensures Encloses(g, pts, cs)
    ensures forall i :: 0 <= i < |pts| ==>
      pts[i].x < g.x.snappedMax && pts[i].y < g.y.snappedMax && pts[i].z < g.z.snappedMax
  {
    Lattice(
      CoveringPlanAxis(MinCoord(pts, X), MaxCoord(pts, X), cs),
      CoveringPlanAxis(MinCoord(pts, Y), MaxCoord(pts, Y), cs),
      CoveringPlanAxis(MinCoord(pts, Z), MaxCoord(pts, Z), cs))
  }

  /** A cube of the lattice by its centre indices along x, y and z. */
  datatype Key = Key(i: nat, j: nat, k: nat) {
    function Along(a: Axis): nat {
      match a
      case X => i
      case Y => j
      case Z => k
    }

    /** The neighbouring cube one step further along an axis. */
    function Next(a: Axis): Key {
      match a
      case X => Key(i + 1, j, k)
      case Y => Key(i, j + 1, k)
      case Z => Key(i, j, k + 1)
    }
  }

  predicate InLattice(g: Lattice, key: Key) {
    key.i < |g.x.centres| && key.j < |g.y.centres| && key.k < |g.z.centres|
  }

  /** The order of the three nested loops: x outermost, then y, then z. */
  predicate LexLess(a: Key, b: Key) {
    a.i < b.i || (a.i == b.i && (a.j < b.j || (a.j == b.j && a.k < b.k)))
  }

  predicate StrictlyOrdered(s: seq<Key>) {
    forall p, q :: 0 <= p < q < |s| ==> LexLess(s[p], s[q])
  }

  lemma ConcatOrdered(a: seq<Key>, b: seq<Key>)
    requires StrictlyOrdered(a) && StrictlyOrdered(b)
    requires forall x, y :: x in a && y in b ==> LexLess(x, y)
    ensures StrictlyOrdered(a + b)
  {
    forall p, q | 0 <= p < q < |a + b|
      ensures LexLess((a + b)[p], (a + b)[q])
    {
      if q < |a| {
      } else if p >= |a| {
        assert (a + b)[p] == b[p - |a|] && (a + b)[q] == b[q - |a|];
      } else {
        assert (a + b)[p] == a[p] && (a + b)[q] == b[q - |a|];
      }
    }
  }

  /** The innermost loop: z centres for fixed x and y centres. */
  function Column(i: nat, j: nat, nz: nat): (r: seq<Key>)
    ensures forall key :: key in r <==> key.i == i && key.j == j && key.k < nz
    ensures StrictlyOrdered(r)
  {
    var r := seq(nz, k requires 0 <= k => Key(i, j, k));
    forall key: Key | key.i == i && key.j == j && key.k < nz
      ensures key in r
    {
      assert r[key.k] == key;
    }
    r
  }

  /** The middle loop from the j-th y centre on, for a fixed x centre. */
  function Rows(i: nat, j: nat, ny: nat, nz: nat): (r: seq<Key>)
    ensures forall key :: key in r <==> key.i == i && j <= key.j < ny && key.k < nz
    ensures StrictlyOrdered(r)
    decreases ny - j
  {
    if j >= ny then []
    else
      var c := Column(i, j, nz);
      var rest := Rows(i, j + 1, ny, nz);
      ConcatOrdered(c, rest);
      c + rest
  }

  /** The outer loop from the i-th x centre on. */
  function Layers(i: nat, nx: nat, ny: nat, nz: nat): (r: seq<Key>)
    ensures forall key :: key in r <==> i <= key.i < nx && key.j < ny && key.k < nz
    ensures StrictlyOrdered(r)
    decreases nx - i
  {
    if i >= nx then []
    else
      var layer := Rows(i, 0, ny, nz);
      var rest := Layers(i + 1, nx, ny, nz);
      ConcatOrdered(layer, rest);
      layer + rest
  }

  /** The cubes in the order the three nested loops of process_file visit them: each cube
      of the lattice once, x outermost, then y, then z. */
  function LatticeKeys(g: Lattice): (r: seq<Key>)
    ensures forall key :: key in r <==> InLattice(g, key)
    ensures StrictlyOrdered(r)
  {
    Layers(0, |g.x.centres|, |g.y.centres|, |g.z.centres|)
  }

  /** The three half-open intervals of one cube. */
  datatype Box = Box(x: Interval, y: Interval, z: Interval) {
    function Along(a: Axis): Interval {
      match a
      case X => x
      case Y => y
      case Z => z
    }
  }

  /** The mask test of process_file: lo <= coordinate < hi on all three axes. */
  predicate InBox<A>(p: Point<A>, b: Box) {
    Contains(b.x, p.x) && Contains(b.y, p.y) && Contains(b.z, p.z)
  }

  /** The bounds of a cube inflated by the overlap on every face. */
  function TileBox(g: Lattice, key: Key, cs: real, ov: real): (b: Box)
    requires InLattice(g, key)
  {
    Box(TileInterval(g.x, key.i, cs, ov), TileInterval(g.y, key.j, cs, ov), TileInterval(g.z, key.k, cs, ov))
  }

  lemma TileBoxAlong(g: Lattice, key: Key, cs: real, ov: real, a: Axis)
    requires InLattice(g, key)
    ensures key.Along(a) < |g.Along(a).centres|
    ensures TileBox(g, key, cs, ov).Along(a) == TileInterval(g.Along(a), key.Along(a), cs, ov)
  {
  }

  /** Along each axis the box of a cube reaches from the cube's lower multiple of the cube size
      less the overlap to its upper multiple plus the overlap. */
  lemma TileBoxBounds(g: Lattice, key: Key, cs: real, ov: real, a: Axis)
    requires InLattice(g, key) && Regular(g.Along(a), cs)
    ensures key.Along(a) < |g.Along(a).centres|
    ensures TileBox(g, key, cs, ov).Along(a).lo == g.Along(a).snappedMin + Mul(key.Along(a) as real, cs) - ov
    ensures TileBox(g, key, cs, ov).Along(a).hi == g.Along(a).snappedMin + Mul((key.Along(a) + 1) as real, cs) + ov
  {
    TileBoxAlong(g, key, cs, ov, a);
    TileIntervalPosition(g.Along(a), key.Along(a), cs, ov);
  }

  /** Indices of the points the mask selects, in source order: numpy's boolean indexing
      las.points[mask] keeps exactly the points in the box, each once, in their order. */
  function MaskIndices<A>(pts: seq<Point<A>>, b: Box): (idx: seq<nat>)
    ensures forall t :: 0 <= t < |idx| ==> idx[t] < |pts|
    ensures forall t, u :: 0 <= t < u < |idx| ==> idx[t] < idx[u]
    ensures forall i :: 0 <= i < |pts| ==> (i in idx <==> InBox(pts[i], b))
    decreases |pts|
  {
    if |pts| == 0 then []
    else
      var n := |pts| - 1;
      var rest := MaskIndices(pts[..n], b);
      assert forall i :: 0 <= i < n ==> pts[..n][i] == pts[i];
      if InBox(pts[n], b) then rest + [n] else rest
  }

  /** The points at the given indices, in the order of the indices. */
  function Gather<A>(pts: seq<Point<A>>, idx: seq<nat>): (r: seq<Point<A>>)
    requires forall t :: 0 <= t < |idx| ==> idx[t] < |pts|
    ensures |r| == |idx|
    ensures forall t :: 0 <= t < |idx| ==> r[t] == pts[idx[t]]
  {
    seq(|idx|, t requires 0 <= t < |idx| => pts[idx[t]])
  }

  /** The same selection written as a filter that keeps the points in the box in order. */
  function Filter<A>(pts: seq<Point<A>>, b: Box): seq<Point<A>>
    decreases |pts|
  {
    if |pts| == 0 then []
    else
      var n := |pts| - 1;
      Filter(pts[..n], b) + (if InBox(pts[n], b) then [pts[n]] else [])
  }

  /** Selecting by mask indices is the order-keeping filter of the box. */
  lemma {:induction false} MaskSelectsFilter<A>(pts: seq<Point<A>>, b: Box)
    ensures Gather(pts, MaskIndices(pts, b)) == Filter(pts, b)
    decreases |pts|
  {
    if |pts| > 0 {
      var n := |pts| - 1;
      var rest := MaskIndices(pts[..n], b);
      MaskSelectsFilter(pts[..n], b);
      GatherPrefix(pts, n, rest);
      if InBox(pts[n], b) {
        GatherSnoc(pts, rest, n);
      }
    }
  }

  /** Indices below m pick the same points from pts and from its first m points. */
  lemma GatherPrefix<A>(pts: seq<Point<A>>, m: nat, idx: seq<nat>)
    requires m <= |pts| && forall t :: 0 <= t < |idx| ==> idx[t] < m
    ensures Gather(pts[..m], idx) == Gather(pts, idx)
  {
  }

  /** One more index picks one more point. */
  lemma GatherSnoc<A>(pts: seq<Point<A>>, idx: seq<nat>, j: nat)
    requires j < |pts| && forall t :: 0 <= t < |idx| ==> idx[t] < |pts|
    ensures Gather(pts, idx + [j]) == Gather(pts, idx) + [pts[j]]
  {
  }

  /** One cube of the lattice with the bounds used for its mask and the points selected. */
  datatype Tile = Tile(key: Key, box: Box, members: seq<nat>)

  /** A tile as process_file forms it: a lattice cube, its inflated bounds, and the indices
      of the points its mask selects, of which there is at least one. */
  predicate TileOf<A>(pts: seq<Point<A>>, g: Lattice, cs: real, ov: real, tile: Tile) {
    && InLattice(g, tile.key)
    && tile.box == TileBox(g, tile.key, cs, ov)
    && tile.members == MaskIndices(pts, tile.box)
    && |tile.members| > 0
  }

  /** The cubes visited in the order of `keys`, each masked against the points, the empty
      ones skipped (the `continue` when len(cube_points) == 0). */
  function SelectTiles<A>(pts: seq<Point<A>>, g: Lattice, cs: real, ov: real, keys: seq<Key>): (ts: seq<Tile>)
    requires forall key :: key in keys ==> InLattice(g, key)
    ensures forall t :: 0 <= t < |ts| ==> ts[t].key in keys && TileOf(pts, g, cs, ov, ts[t])
    decreases |keys|
  {
    if |keys| == 0 then []
    else
      var n := |keys| - 1;
      var ts := SelectTiles(pts, g, cs, ov, keys[..n]);
      var box := TileBox(g, keys[n], cs, ov);
      var members := MaskIndices(pts, box);
      assert forall x :: x in keys[..n] ==> x in keys;
      if |members| == 0 then ts else ts + [Tile(keys[n], box, members)]
  }

  /** One more key adds its tile when its mask selects a point, and nothing otherwise. */
  lemma SelectTilesSnoc<A>(pts: seq<Point<A>>, g: Lattice, cs: real, ov: real, keys: seq<Key>, key: Key)
    requires forall key :: key in keys ==> InLattice(g, key)
    requires InLattice(g, key)
    ensures var box := TileBox(g, key, cs, ov);
      SelectTiles(pts, g, cs, ov, keys + [key]) == SelectTiles(pts, g, cs, ov, keys)
        + (if |MaskIndices(pts, box)| == 0 then [] else [Tile(key, box, MaskIndices(pts, box))])
  {
    assert (keys + [key])[..|keys|] == keys;
  }

  /** Every key whose mask selects a point gets its tile. */
  lemma {:induction false} SelectTilesComplete<A>(pts: seq<Point<A>>, g: Lattice, cs: real, ov: real, keys: seq<Key>, key: Key)
    requires forall key :: key in keys ==> InLattice(g, key)
    requires key in keys && |MaskIndices(pts, TileBox(g, key, cs, ov))| > 0
    ensures exists t :: 0 <= t < |SelectTiles(pts, g, cs, ov, keys)| && SelectTiles(pts, g, cs, ov, keys)[t].key == key
    decreases |keys|
  {
    var n := |keys| - 1;
    var ts := SelectTiles(pts, g, cs, ov, keys[..n]);
    if key == keys[n] {
      var all := SelectTiles(pts, g, cs, ov, keys);
      assert all[|all| - 1].key == key;
    } else {
      assert key in keys[..n];
      SelectTilesComplete(pts, g, cs, ov, keys[..n], key);
      var t :| 0 <= t < |ts| && ts[t].key == key;
      assert SelectTiles(pts, g, cs, ov, keys)[t] == ts[t];
    }
  }

  predicate TilesOrdered(ts: seq<Tile>) {
    forall t, u :: 0 <= t < u < |ts| ==> LexLess(ts[t].key, ts[u].key)
  }

  /** Tiles come out in the order of their keys. */
  lemma {:induction false} SelectTilesOrdered<A>(pts: seq<Point<A>>, g: Lattice, cs: real, ov: real, keys: seq<Key>)
    requires forall key :: key in keys ==> InLattice(g, key)
    requires StrictlyOrdered(keys)
    ensures TilesOrdered(SelectTiles(pts, g, cs, ov, keys))
    decreases |keys|
  {
    if |keys| > 0 {
      var n := |keys| - 1;
      assert StrictlyOrdered(keys[..n]);
      SelectTilesOrdered(pts, g, cs, ov, keys[..n]);
      var ts := SelectTiles(pts, g, cs, ov, keys[..n]);
      forall t | 0 <= t < |ts|
        ensures LexLess(ts[t].key, keys[n])
      {
        var p :| 0 <= p < n && keys[..n][p] == ts[t].key;
      }
      var box := TileBox(g, keys[n], cs, ov);
      var all := SelectTiles(pts, g, cs, ov, keys);
      if |MaskIndices(pts, box)| > 0 {
        assert all == ts + [Tile(keys[n], box, MaskIndices(pts, box))];
        forall t, u | 0 <= t < u < |all|
          ensures LexLess(all[t].key, all[u].key)
        {
          assert all[t] == ts[t];
          if u < |ts| {
            assert all[u] == ts[u];
          } else {
            assert all[u].key == keys[n];
          }
        }
      } else {
        assert all == ts;
      }
    }
  }

  /** The non-empty tiles of a lattice, in loop order. */
  function CloudTiles<A>(pts: seq<Point<A>>, g: Lattice, cs: real, ov: real): (ts: seq<Tile>)
    ensures forall t :: 0 <= t < |ts| ==> TileOf(pts, g, cs, ov, ts[t])
  {
    SelectTiles(pts, g, cs, ov, LatticeKeys(g))
  }

  /** The tiles name points of the point set only. */
  lemma CloudTilesInRange<A>(pts: seq<Point<A>>, g: Lattice, cs: real, ov: real)
    ensures var ts := CloudTiles(pts, g, cs, ov);
      forall t, q :: 0 <= t < |ts| && 0 <= q < |ts[t].members| ==> ts[t].members[q] < |pts|
  {
    var ts := CloudTiles(pts, g, cs, ov);
    forall t, q | 0 <= t < |ts| && 0 <= q < |ts[t].members|
      ensures ts[t].members[q] < |pts|
    {
      assert TileOf(pts, g, cs, ov, ts[t]);
      assert ts[t].members == MaskIndices(pts, ts[t].box);
    }
  }

  /** Every cube of the lattice whose mask selects a point has its tile. */
  lemma CloudTilesComplete<A>(pts: seq<Point<A>>, g: Lattice, cs: real, ov: real, key: Key)
    requires InLattice(g, key) && |MaskIndices(pts, TileBox(g, key, cs, ov))| > 0
    ensures exists t :: 0 <= t < |CloudTiles(pts, g, cs, ov)| && CloudTiles(pts, g, cs, ov)[t].key == key
  {
    var keys := LatticeKeys(g);
    assert key in keys;
    SelectTilesComplete(pts, g, cs, ov, keys, key);
    var ts := SelectTiles(pts, g, cs, ov, keys);
    var t :| 0 <= t < |ts| && ts[t].key == key;
    assert CloudTiles(pts, g, cs, ov)[t].key == key;
  }

  /** The tiles come in the order the nested loops visit their cubes. */
  lemma CloudTilesOrdered<A>(pts: seq<Point<A>>, g: Lattice, cs: real, ov: real)
    ensures TilesOrdered(CloudTiles(pts, g, cs, ov))
  {
    SelectTilesOrdered(pts, g, cs, ov, LatticeKeys(g));
  }

  /** The six integers of an output name: floors of the inflated lower then upper bounds. */
  function NameFields(b: Box): seq<int> {
    [Floor(b.x.lo), Floor(b.y.lo), Floor(b.z.lo), Floor(b.x.hi), Floor(b.y.hi), Floor(b.z.hi)]
  }

  /** Each integer followed by an underscore, then the tail. */
  function JoinFields(fields: seq<int>, tail: string): string
    decreases |fields|
  {
    if |fields| == 0 then tail else IntToString(fields[0]) + "_" + JoinFields(fields[1..], tail)
  }

  /** base_xmin_ymin_zmin_xmax_ymax_zmax_OV<suffix>.las */
  function TileName(base: string, b: Box, suffix: Suffix): string {
    base + "_" + JoinFields(NameFields(b), "OV" + suffix.Text() + ".las")
  }

  /** Joining fields after a prefix moves the first field, with its underscore, into the prefix. */
  lemma JoinFieldsShift(prefix: string, fields: seq<int>, tail: string)
    requires |fields| > 0
    ensures prefix + JoinFields(fields, tail) == prefix + IntToString(fields[0]) + "_" + JoinFields(fields[1..], tail)
  {
    var x, r := IntToString(fields[0]), JoinFields(fields[1..], tail);
    assert prefix + (x + "_" + r) == prefix + x + "_" + r;
  }

  /** The suffix part of a name: an underscore, then OV, the suffix text and the extension. */
  lemma SuffixTail(prefix: string, text: string)
    ensures prefix + "_" + ("OV" + text + ".las") == prefix + "_OV" + text + ".las"
  {
    assert "_" + "OV" == "_OV";
    assert prefix + "_" + ("OV" + text + ".las") == prefix + ("_" + "OV") + text + ".las";
  }

  /** The file name spelled out field by field, as the f-string of the source writes it. */
  lemma TileNameFormat(base: string, b: Box, suffix: Suffix)
    ensures TileName(base, b, suffix) ==
      base + "_" + IntToString(Floor(b.x.lo)) + "_" + IntToString(Floor(b.y.lo)) + "_" + IntToString(Floor(b.z.lo))
      + "_" + IntToString(Floor(b.x.hi)) + "_" + IntToString(Floor(b.y.hi)) + "_" + IntToString(Floor(b.z.hi))
      + "_OV" + suffix.Text() + ".las"
  {
    var tail := "OV" + suffix.Text() + ".las";
    var f := NameFields(b);
    var p0 := base + "_";
    JoinFieldsShift(p0, f, tail);
    var p1 := p0 + IntToString(f[0]) + "_";
    JoinFieldsShift(p1, f[1..], tail);
    var p2 := p1 + IntToString(f[1]) + "_";
    JoinFieldsShift(p2, f[2..], tail);
    assert f[1..][1..] == f[2..];
    var p3 := p2 + IntToString(f[2]) + "_";
    JoinFieldsShift(p3, f[3..], tail);
    assert f[2..][1..] == f[3..];
    var p4 := p3 + IntToString(f[3]) + "_";
    JoinFieldsShift(p4, f[4..], tail);
    assert f[3..][1..] == f[4..];
    var p5 := p4 + IntToString(f[4]) + "_";
    JoinFieldsShift(p5, f[5..], tail);
    assert f[4..][1..] == f[5..];
    assert f[5..][1..] == [];
    SuffixTail(p5 + IntToString(f[5]), suffix.Text());
  }

  /** A written file: the header it reuses and the points it holds. */
  datatype Output<A, H> = Output(name: string, header: H, points: seq<Point<A>>)

  datatype Error = EmptyInput

  datatype Result<T> = Success(value: T) | Failure(error: Error)

  /** The outputs for a list of tiles: one file per tile under the source header, holding the
      points of the tile's box in source order whenever the tile carries its box's mask. */
  function Emit<A, H>(base: string, header: H, pts: seq<Point<A>>, ts: seq<Tile>, suffix: Suffix): (outs: seq<Output<A, H>>)
    requires forall t, q :: 0 <= t < |ts| && 0 <= q < |ts[t].members| ==> ts[t].members[q] < |pts|
    ensures |outs| == |ts|
    ensures forall t :: 0 <= t < |ts| ==> outs[t].header == header
    ensures forall t :: 0 <= t < |ts| && ts[t].members == MaskIndices(pts, ts[t].box) ==>
      outs[t].points == Filter(pts, ts[t].box)
  {
    MasksSelectFilters(pts, ts);
    seq(|ts|, t requires 0 <= t < |ts| => Output(TileName(base, ts[t].box, suffix), header, Gather(pts, ts[t].members)))
  }

  lemma MasksSelectFilters<A>(pts: seq<Point<A>>, ts: seq<Tile>)
    ensures forall t :: 0 <= t < |ts| && ts[t].members == MaskIndices(pts, ts[t].box) ==>
      Gather(pts, ts[t].members) == Filter(pts, ts[t].box)
  {
    forall t | 0 <= t < |ts| && ts[t].members == MaskIndices(pts, ts[t].box) {
      MaskSelectsFilter(pts, ts[t].box);
    }
  }

  /** process_file from the loaded point set on: an empty point set fails at las.x.min()
      and the run writes nothing; otherwise one output per non-empty cube, in loop order,
      each built on the source header. */
  function ProcessFile<A, H>(base: string, header: H, pts: seq<Point<A>>, cs: real, ov: real): (r: Result<seq<Output<A, H>>>)
    requires cs > 0.0
    ensures r.Failure? <==> |pts| == 0
    ensures r.Success? ==> forall t :: 0 <= t < |r.value| ==>
      r.value[t].header == header && |r.value[t].points| > 0
  {
    if |pts| == 0 then Failure(EmptyInput)
    else Success(Emit(base, header, pts, CloudTiles(pts, Plan(pts, cs), cs, ov), OverlapWithUnit(ov)))
  }

  /** The same run on the covering lattice. */
  function ProcessFileCovering<A, H>(base: string, header: H, pts: seq<Point<A>>, cs: real, ov: real): (r: Result<seq<Output<A, H>>>)
    requires cs > 0.0
    ensures r.Failure? <==> |pts| == 0
  {
    if |pts| == 0 then Failure(EmptyInput)
    else
      var g := CoveringPlan(pts, cs);
      Success(Emit(base, header, pts, CloudTiles(pts, g, cs, ov), OverlapWithUnit(ov)))
  }

  /** The output folder after the writes, in order, starting from the files `folder` already
      holds (the default folder is the input's own directory, so it holds at least the input):
      a write to a name replaces whatever file was there under it. */
  function Written<A, H>(folder: map<string, Output<A, H>>, outs: seq<Output<A, H>>): map<string, Output<A, H>>
    decreases |outs|
  {
    if |outs| == 0 then folder else Written(folder, outs[..|outs| - 1])[outs[|outs| - 1].name := outs[|outs| - 1]]
  }

  /** The folder holds exactly the names it held before and the names written. */
  lemma {:induction false} WrittenNames<A, H>(folder: map<string, Output<A, H>>, outs: seq<Output<A, H>>, name: string)
    ensures name in Written(folder, outs) <==> name in folder || exists t :: 0 <= t < |outs| && outs[t].name == name
    decreases |outs|
  {
    if |outs| > 0 {
      var n := |outs| - 1;
      WrittenNames(folder, outs[..n], name);
      if name in Written(folder, outs[..n]) && name !in folder {
        var t :| 0 <= t < n && outs[..n][t].name == name;
        assert outs[t].name == name;
      }
      if t :| 0 <= t < n && outs[t].name == name {
        assert outs[..n][t].name == name;
      }
    }
  }

  /** A name no write uses keeps the file the folder held before the run. */
  lemma {:induction false} WrittenKeeps<A, H>(folder: map<string, Output<A, H>>, outs: seq<Output<A, H>>, name: string)
    requires name in folder
    requires forall t :: 0 <= t < |outs| ==> outs[t].name != name
    ensures name in Written(folder, outs) && Written(folder, outs)[name] == folder[name]
    decreases |outs|
  {
    if |outs| > 0 {
      var n := |outs| - 1;
      assert forall t :: 0 <= t < n ==> outs[..n][t] == outs[t];
      WrittenKeeps(folder, outs[..n], name);
    }
  }

  /** Under each name the folder holds the last file written with it. */
  lemma {:induction false} WrittenLast<A, H>(folder: map<string, Output<A, H>>, outs: seq<Output<A, H>>, t: int)
    requires 0 <= t < |outs|
    requires forall u :: t < u < |outs| ==> outs[u].name != outs[t].name
    ensures outs[t].name in Written(folder, outs) && Written(folder, outs)[outs[t].name] == outs[t]
    decreases |outs|
  {
    var n := |outs| - 1;
    if t < n {
      var prefix := outs[..n];
      assert prefix[t] == outs[t];
      assert forall u :: t < u < n ==> prefix[u] == outs[u];
      WrittenLast(folder, prefix, t);
    }
  }
}
