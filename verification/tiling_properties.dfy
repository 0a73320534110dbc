/** What the tiler promises about the whole point set: where each point goes with and
    without overlap, which points it loses, and when two output files share a name. */
module TilingProperties {
  import opened RealMath
  import opened Decimal
  import opened OverlapUnit
  import opened Grid
  import opened Tiling

  /** The point lies below the top edge of the lattice on all three axes. */
  predicate BelowTop<A>(g: Lattice, p: Point<A>) {
    p.x < g.x.snappedMax && p.y < g.y.snappedMax && p.z < g.z.snappedMax
  }

  /** Some tile selected the point with index i. */
  predicate InSomeTile(ts: seq<Tile>, i: int) {
    exists t :: 0 <= t < |ts| && i in ts[t].members
  }

  /** A tile holds a point exactly when the point lies in the tile's inflated box. */
  lemma TileMembership<A>(pts: seq<Point<A>>, g: Lattice, cs: real, ov: real, t: int, i: int)
    requires 0 <= t < |CloudTiles(pts, g, cs, ov)|
    ensures var tile := CloudTiles(pts, g, cs, ov)[t];
      i in tile.members <==> 0 <= i < |pts| && InBox(pts[i], TileBox(g, tile.key, cs, ov))
  {
  }

  /** The tile a key names, if the key's mask selects the point. */
  lemma TileForKey<A>(pts: seq<Point<A>>, g: Lattice, cs: real, ov: real, key: Key, i: int)
    requires InLattice(g, key) && 0 <= i < |pts| && InBox(pts[i], TileBox(g, key, cs, ov))
    ensures exists t :: (0 <= t < |CloudTiles(pts, g, cs, ov)|
      && CloudTiles(pts, g, cs, ov)[t].key == key && i in CloudTiles(pts, g, cs, ov)[t].members)
  {
    var ts := CloudTiles(pts, g, cs, ov);
    assert i in MaskIndices(pts, TileBox(g, key, cs, ov));
    CloudTilesComplete(pts, g, cs, ov, key);
    var t :| 0 <= t < |ts| && ts[t].key == key;
  }

  /** Without overlap, a tile holding point i is the tile of i's bin on every axis, and
      point i lies below the lattice's top edges. */
  lemma NoOverlapTileKey<A>(pts: seq<Point<A>>, g: Lattice, cs: real, i: int, t: int)
    requires cs > 0.0 && Encloses(g, pts, cs) && 0 <= i < |pts|
    requires 0 <= t < |CloudTiles(pts, g, cs, 0.0)| && i in CloudTiles(pts, g, cs, 0.0)[t].members
    ensures var key := CloudTiles(pts, g, cs, 0.0)[t].key;
      && key.i == AxisIndex(g.x, cs, pts[i].x)
      && key.j == AxisIndex(g.y, cs, pts[i].y)
      && key.k == AxisIndex(g.z, cs, pts[i].z)
    ensures BelowTop(g, pts[i])
  {
    var key := CloudTiles(pts, g, cs, 0.0)[t].key;
    var p := pts[i];
    TileMembership(pts, g, cs, 0.0, t, i);
    NoOverlapAxisMembership(g.x, cs, key.i, p.x);
    NoOverlapAxisMembership(g.y, cs, key.j, p.y);
    NoOverlapAxisMembership(g.z, cs, key.k, p.z);
    if g.x.snappedMax <= p.x {
      NoOverlapMissesTop(g.x, cs, key.i, p.x);
    }
    if g.y.snappedMax <= p.y {
      NoOverlapMissesTop(g.y, cs, key.j, p.y);
    }
    if g.z.snappedMax <= p.z {
      NoOverlapMissesTop(g.z, cs, key.k, p.z);
    }
  }

  /** With overlap 0 the cubes do not overlap: a point is written exactly when it lies below
      the top edge on all three axes, and then into exactly one tile. */
  lemma NoOverlapPartition<A>(pts: seq<Point<A>>, g: Lattice, cs: real, i: int)
    requires cs > 0.0 && Encloses(g, pts, cs) && 0 <= i < |pts|
    ensures InSomeTile(CloudTiles(pts, g, cs, 0.0), i) <==> BelowTop(g, pts[i])
    ensures var ts := CloudTiles(pts, g, cs, 0.0);
      forall t, u :: 0 <= t < |ts| && 0 <= u < |ts| && i in ts[t].members && i in ts[u].members ==> t == u
  {
    var ts := CloudTiles(pts, g, cs, 0.0);
    var p := pts[i];
    if BelowTop(g, p) {
      AxisIndexInRange(g.x, cs, p.x);
      AxisIndexInRange(g.y, cs, p.y);
      AxisIndexInRange(g.z, cs, p.z);
      var key := Key(AxisIndex(g.x, cs, p.x), AxisIndex(g.y, cs, p.y), AxisIndex(g.z, cs, p.z));
      NoOverlapAxisMembership(g.x, cs, key.i, p.x);
      NoOverlapAxisMembership(g.y, cs, key.j, p.y);
      NoOverlapAxisMembership(g.z, cs, key.k, p.z);
      TileForKey(pts, g, cs, 0.0, key, i);
    }
    if InSomeTile(ts, i) {
      var t :| 0 <= t < |ts| && i in ts[t].members;
      NoOverlapTileKey(pts, g, cs, i, t);
    }
    forall t, u | 0 <= t < |ts| && 0 <= u < |ts| && i in ts[t].members && i in ts[u].members
      ensures t == u
    {
      NoOverlapTileKey(pts, g, cs, i, t);
      NoOverlapTileKey(pts, g, cs, i, u);
      CloudTilesOrdered(pts, g, cs, 0.0);
      assert ts[t].key == ts[u].key;
    }
  }

  /** With a positive overlap and a non-empty lattice on every axis, every point is written:
      a point on the top edge falls inside the last cube's inflated face. */
  lemma OverlapCoverage<A>(pts: seq<Point<A>>, g: Lattice, cs: real, ov: real, i: int)
    requires cs > 0.0 && 0.0 < ov && Encloses(g, pts, cs) && 0 <= i < |pts|
    requires 0 < |g.x.centres| && 0 < |g.y.centres| && 0 < |g.z.centres|
    ensures InSomeTile(CloudTiles(pts, g, cs, ov), i)
  {
    var p := pts[i];
    var key := Key(CoveringIndex(g.x, cs, ov, p.x), CoveringIndex(g.y, cs, ov, p.y), CoveringIndex(g.z, cs, ov, p.z));
    TileForKey(pts, g, cs, ov, key, i);
  }

  /** In a run's tile list, a tile with a smaller key comes first. */
  lemma KeyOrderIsTileOrder(ts: seq<Tile>, t: int, u: int)
    requires TilesOrdered(ts) && 0 <= t < |ts| && 0 <= u < |ts|
    requires LexLess(ts[t].key, ts[u].key)
    ensures t < u
  {
  }

  /** A point near the face shared by a cube and its neighbour along axis a lies in both
      inflated boxes. */
  lemma FaceInBothBoxes<A>(g: Lattice, cs: real, ov: real, key: Key, a: Axis, p: Point<A>)
    requires cs > 0.0 && Regular(g.x, cs) && Regular(g.y, cs) && Regular(g.z, cs)
    requires InLattice(g, key) && InLattice(g, key.Next(a))
    requires var face := g.Along(a).snappedMin + Mul((key.Along(a) + 1) as real, cs);
      face - ov < Coord(p, a) < face + ov
    requires forall b: Axis :: b != a ==> Contains(TileBox(g, key, cs, ov).Along(b), Coord(p, b))
    ensures InBox(p, TileBox(g, key, cs, ov)) && InBox(p, TileBox(g, key.Next(a), cs, ov))
  {
    assert Contains(TileBox(g, key, cs, ov).Along(X), p.x) || a == X;
    assert Contains(TileBox(g, key, cs, ov).Along(Y), p.y) || a == Y;
    assert Contains(TileBox(g, key, cs, ov).Along(Z), p.z) || a == Z;
    match a
    case X => SharedFaceAxis(g.x, cs, ov, key.i, p.x);
    case Y => SharedFaceAxis(g.y, cs, ov, key.j, p.y);
    case Z => SharedFaceAxis(g.z, cs, ov, key.k, p.z);
  }

  /** A point within the overlap of the face two neighbouring cubes share, and inside their
      common extent on the other two axes, is written to both of their files. */
  lemma SharedFaceDuplication<A>(pts: seq<Point<A>>, g: Lattice, cs: real, ov: real, i: int, key: Key, a: Axis)
    requires cs > 0.0 && Encloses(g, pts, cs) && 0 <= i < |pts|
    requires InLattice(g, key) && InLattice(g, key.Next(a))
    requires var face := g.Along(a).snappedMin + Mul((key.Along(a) + 1) as real, cs);
      face - ov < Coord(pts[i], a) < face + ov
    requires forall b: Axis :: b != a ==> Contains(TileBox(g, key, cs, ov).Along(b), Coord(pts[i], b))
    ensures var ts := CloudTiles(pts, g, cs, ov);
      exists t, u :: 0 <= t < u < |ts| && ts[t].key == key && ts[u].key == key.Next(a)
        && i in ts[t].members && i in ts[u].members
  {
    var ts := CloudTiles(pts, g, cs, ov);
    var next := key.Next(a);
    FaceInBothBoxes(g, cs, ov, key, a, pts[i]);
    TileForKey(pts, g, cs, ov, key, i);
    TileForKey(pts, g, cs, ov, next, i);
    var t :| 0 <= t < |ts| && ts[t].key == key && i in ts[t].members;
    var u :| 0 <= u < |ts| && ts[u].key == next && i in ts[u].members;
    CloudTilesOrdered(pts, g, cs, ov);
    KeyOrderIsTileOrder(ts, t, u);
  }

  /** In a head without underscores followed by one, the first underscore ends the head. */
  lemma SeparatorPosition(h: string, r: string, k: int)
    requires '_' !in h && 0 <= k <= |h|
    requires (h + "_" + r)[k] == '_'
    ensures k == |h|
  {
  }

  /** Two names alike up to an underscore that neither head contains have the same head
      and the same rest. */
  lemma SplitAtSeparator(h1: string, r1: string, h2: string, r2: string)
    requires '_' !in h1 && '_' !in h2
    requires h1 + "_" + r1 == h2 + "_" + r2
    ensures h1 == h2 && r1 == r2
  {
    var s := h1 + "_" + r1;
    if |h2| <= |h1| {
      SeparatorPosition(h1, r1, |h2|);
    } else {
      SeparatorPosition(h2, r2, |h1|);
    }
    assert h1 == s[..|h1|] == h2;
    assert r1 == s[|h1| + 1..] == r2;
  }

  /** The underscore-joined decimal fields determine the fields. */
  lemma {:induction false} JoinFieldsInjective(f1: seq<int>, f2: seq<int>, tail: string)
    requires |f1| == |f2|
    requires JoinFields(f1, tail) == JoinFields(f2, tail)
    ensures f1 == f2
    decreases |f1|
  {
    if |f1| > 0 {
      SplitAtSeparator(IntToString(f1[0]), JoinFields(f1[1..], tail), IntToString(f2[0]), JoinFields(f2[1..], tail));
      IntToStringInjective(f1[0], f2[0]);
      JoinFieldsInjective(f1[1..], f2[1..], tail);
      assert f1 == [f1[0]] + f1[1..];
      assert f2 == [f2[0]] + f2[1..];
    }
  }

  /** Two tiles of one run share a file name exactly when the floors of their inflated
      bounds agree. */
  lemma TileNameInjective(base: string, b1: Box, b2: Box, suffix: Suffix)
    ensures TileName(base, b1, suffix) == TileName(base, b2, suffix) <==> NameFields(b1) == NameFields(b2)
  {
    if TileName(base, b1, suffix) == TileName(base, b2, suffix) {
      var tail := "OV" + suffix.Text() + ".las";
      var prefix := base + "_";
      assert TileName(base, b1, suffix) == prefix + JoinFields(NameFields(b1), tail);
      assert TileName(base, b2, suffix) == prefix + JoinFields(NameFields(b2), tail);
      assert JoinFields(NameFields(b1), tail) == TileName(base, b1, suffix)[|prefix|..];
      assert JoinFields(NameFields(b2), tail) == TileName(base, b2, suffix)[|prefix|..];
      JoinFieldsInjective(NameFields(b1), NameFields(b2), tail);
    }
  }

  /** With cubes of at least one metre, the tiles of one run have pairwise distinct names:
      along the first axis where two keys differ, the floors of the lower bounds differ. */
  lemma DistinctNames<A>(pts: seq<Point<A>>, g: Lattice, cs: real, ov: real, base: string, suffix: Suffix, t: int, u: int)
    requires 1.0 <= cs && Encloses(g, pts, cs)
    requires 0 <= t < |CloudTiles(pts, g, cs, ov)| && 0 <= u < |CloudTiles(pts, g, cs, ov)| && t != u
    ensures var ts := CloudTiles(pts, g, cs, ov);
      TileName(base, ts[t].box, suffix) != TileName(base, ts[u].box, suffix)
  {
    var ts := CloudTiles(pts, g, cs, ov);
    var lo, hi := if t < u then t else u, if t < u then u else t;
    CloudTilesOrdered(pts, g, cs, ov);
    assert LexLess(ts[lo].key, ts[hi].key);
    assert TileOf(pts, g, cs, ov, ts[lo]) && TileOf(pts, g, cs, ov, ts[hi]);
    OrderedKeysNamed(g, cs, ov, base, suffix, ts[lo].key, ts[hi].key);
  }

  /** Two lattice keys in loop order give cubes with different names once cubes are at least a metre wide. */
  lemma OrderedKeysNamed(g: Lattice, cs: real, ov: real, base: string, suffix: Suffix, k1: Key, k2: Key)
    requires 1.0 <= cs && Regular(g.x, cs) && Regular(g.y, cs) && Regular(g.z, cs)
    requires InLattice(g, k1) && InLattice(g, k2) && LexLess(k1, k2)
    ensures TileName(base, TileBox(g, k1, cs, ov), suffix) != TileName(base, TileBox(g, k2, cs, ov), suffix)
  {
    var b1, b2 := TileBox(g, k1, cs, ov), TileBox(g, k2, cs, ov);
    if k1.i < k2.i {
      LowerBoundFloorsDiffer(g.x, cs, ov, k1.i, k2.i);
      assert NameFields(b1)[0] != NameFields(b2)[0];
    } else if k1.j < k2.j {
      LowerBoundFloorsDiffer(g.y, cs, ov, k1.j, k2.j);
      assert NameFields(b1)[1] != NameFields(b2)[1];
    } else {
      LowerBoundFloorsDiffer(g.z, cs, ov, k1.k, k2.k);
      assert NameFields(b1)[2] != NameFields(b2)[2];
    }
    TileNameInjective(base, b1, b2, suffix);
  }
}
