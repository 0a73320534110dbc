/** One axis of the tiling lattice: the bounds snapped outward to multiples of the cube size,
    the cube centres numpy.arange lays between them, and the half-open interval each cube
    covers once it is inflated by the overlap. */
module Grid {
  import opened RealMath

  /** numpy.arange(start, stop, step) for a positive step, in exact arithmetic: the
      progression start, start + step, ... as far as it stays strictly below stop. */
  function Arange(start: real, stop: real, step: real): (r: seq<real>)
    requires step > 0.0
    ensures forall k :: 0 <= k < |r| ==> r[k] == start + Mul(k as real, step)
    ensures |r| > 0 ==> start + Mul((|r| - 1) as real, step) < stop
    ensures stop <= start + Mul(|r| as real, step)
  {
    var n := Max0(Ceil((stop - start) / step));
    ArangeLength(start, stop, step);
    seq(n, k => start + Mul(k as real, step))
  }

  lemma ArangeLength(start: real, stop: real, step: real)
    requires step > 0.0
    ensures var n := Max0(Ceil((stop - start) / step));
      && (n > 0 ==> start + Mul((n - 1) as real, step) < stop)
      && stop <= start + Mul(n as real, step)
  {
    var q := (stop - start) / step;
    var c := Ceil(q);
    DivMul(stop - start, step);
    if c <= 0 {
      MulLe(q, 0.0, step);
      MulZero(step);
    } else {
      MulLt((c - 1) as real, q, step);
      MulLe(q, c as real, step);
    }
  }

  /** Index of the multiple of cube_size that floor(v / cube_size) * cube_size lands on. */
  function SnapDownIndex(v: real, cs: real): (m: int)
    requires cs > 0.0
    ensures Mul(m as real, cs) <= v < Mul((m + 1) as real, cs)
  {
    var f := Floor(v / cs);
    DivMul(v, cs);
    MulLe(f as real, v / cs, cs);
    MulLt(v / cs, (f + 1) as real, cs);
    f
  }

  /** Index of the multiple of cube_size that ceil(v / cube_size) * cube_size lands on. */
  function SnapUpIndex(v: real, cs: real): (m: int)
    requires cs > 0.0
    ensures Mul((m - 1) as real, cs) < v <= Mul(m as real, cs)
  {
    var c := Ceil(v / cs);
    DivMul(v, cs);
    MulLt((c - 1) as real, v / cs, cs);
    MulLe(v / cs, c as real, cs);
    c
  }

  /** The lattice of one axis: snapped bounds and cube centres. */
  datatype AxisLattice = AxisLattice(snappedMin: real, snappedMax: real, centres: seq<real>)

  /** The centres sit half a cube above each multiple of cube_size from snappedMin on, and
      their cubes exactly fill [snappedMin, snappedMax). */
  predicate Regular(g: AxisLattice, cs: real) {
    && g.snappedMin + Mul(|g.centres| as real, cs) == g.snappedMax
    && forall k :: 0 <= k < |g.centres| ==> g.centres[k] == g.snappedMin + cs / 2.0 + Mul(k as real, cs)
  }

  /** Centres from half a cube above `from`, spaced by cs, below a bound m cubes higher. */
  lemma CentreCount(from: real, m: int, cs: real)
    requires cs > 0.0 && 0 <= m
    ensures |Arange(from + cs / 2.0, from + Mul(m as real, cs), cs)| == m
  {
    var n := |Arange(from + cs / 2.0, from + Mul(m as real, cs), cs)|;
    MulSucc(n - 1, cs);
    MulSucc(n, cs);
    if n > m {
      MulLe(m as real, (n - 1) as real, cs);
    }
    if m > n {
      MulLe((n + 1) as real, m as real, cs);
    }
  }

  /** The lattice the source builds for one axis from its true bounds lo <= hi: the bounds
      snapped outward to multiples of cube_size and the centres numpy.arange places between. */
  function PlanAxis(lo: real, hi: real, cs: real): (g: AxisLattice)
    requires cs > 0.0 && lo <= hi
    ensures g.snappedMin <= lo < g.snappedMin + cs
    ensures g.snappedMax - cs < hi <= g.snappedMax
    ensures g.snappedMin == Mul(SnapDownIndex(lo, cs) as real, cs)
    ensures g.snappedMax == Mul(SnapUpIndex(hi, cs) as real, cs)
    ensures |g.centres| == SnapUpIndex(hi, cs) - SnapDownIndex(lo, cs)
    ensures Regular(g, cs)
  {
    var down := SnapDownIndex(lo, cs);
    var up := SnapUpIndex(hi, cs);
    MulOrder(down as real, up as real, cs);
    MulSucc(down, cs);
    MulSucc(up - 1, cs);
    var smin := Mul(down as real, cs);
    MulSplit(down as real, (up - down) as real, up as real, cs);
    CentreCount(smin, up - down, cs);
    AxisLattice(smin, Mul(up as real, cs), Arange(smin + cs / 2.0, Mul(up as real, cs), cs))
  }

  /** An axis gets no centres exactly when its true minimum and maximum are one and the same
      multiple of cube_size (every point at z = 0, say); the tiler then writes nothing. */
  lemma EmptyAxisLattice(lo: real, hi: real, cs: real)
    requires cs > 0.0 && lo <= hi
    ensures |PlanAxis(lo, hi, cs).centres| == 0
        <==> lo == hi && lo == Mul(SnapDownIndex(lo, cs) as real, cs)
  {
    var g := PlanAxis(lo, hi, cs);
    var down, up := SnapDownIndex(lo, cs), SnapUpIndex(hi, cs);
    if lo == hi && lo == Mul(down as real, cs) {
      MulOrder((up - 1) as real, down as real, cs);
    }
  }

  /** The alternative lattice whose top edge is one cube above the floor of the maximum, as a
      binning by floor((v - snappedMin) / cube_size) needs; the maximum then lies below it. */
  function CoveringPlanAxis(lo: real, hi: real, cs: real): (g: AxisLattice)
    requires cs > 0.0 && lo <= hi
    ensures g.snappedMin <= lo && hi < g.snappedMax
    ensures 0 < |g.centres|
    ensures Regular(g, cs)
  {
    var down := SnapDownIndex(lo, cs);
    var top := SnapDownIndex(hi, cs) + 1;
    MulOrder(down as real, top as real, cs);
    var smin := Mul(down as real, cs);
    MulSplit(down as real, (top - down) as real, top as real, cs);
    CentreCount(smin, top - down, cs);
    AxisLattice(smin, Mul(top as real, cs), Arange(smin + cs / 2.0, Mul(top as real, cs), cs))
  }

  /** A half-open interval [lo, hi), the mask test `lo <= v < hi` of the source. */
  datatype Interval = Interval(lo: real, hi: real)

  predicate Contains(iv: Interval, v: real) {
    iv.lo <= v < iv.hi
  }

  /** The cube of side cube_size around a centre, inflated by the overlap on both faces: an
      interval of the effective size cube_size + 2 * overlap with the same centre. */
  function CubeInterval(centre: real, cs: real, ov: real): (iv: Interval)
    ensures iv.hi - iv.lo == cs + 2.0 * ov
    ensures iv.lo + iv.hi == 2.0 * centre
  {
    var effective := cs + 2.0 * ov;
    Interval(centre - effective / 2.0, centre + effective / 2.0)
  }

  function TileInterval(g: AxisLattice, k: int, cs: real, ov: real): Interval
    requires 0 <= k < |g.centres|
  {
    CubeInterval(g.centres[k], cs, ov)
  }

  /** Cube k covers the k-th step above snappedMin, widened by the overlap on both sides. */
  lemma TileIntervalPosition(g: AxisLattice, k: int, cs: real, ov: real)
    requires Regular(g, cs) && 0 <= k < |g.centres|
    ensures TileInterval(g, k, cs, ov).lo == g.snappedMin + Mul(k as real, cs) - ov
    ensures TileInterval(g, k, cs, ov).hi == g.snappedMin + Mul((k + 1) as real, cs) + ov
  {
    MulSucc(k, cs);
  }

  /** The cube index that binning by floor((v - snappedMin) / cube_size) gives v. */
  function AxisIndex(g: AxisLattice, cs: real, v: real): (k: int)
    requires cs > 0.0
    ensures g.snappedMin + Mul(k as real, cs) <= v < g.snappedMin + Mul((k + 1) as real, cs)
  {
    SnapDownIndex(v - g.snappedMin, cs)
  }

  /** Without overlap, v is in cube k exactly when k is v's bin index. */
  lemma NoOverlapAxisMembership(g: AxisLattice, cs: real, k: int, v: real)
    requires cs > 0.0 && Regular(g, cs) && 0 <= k < |g.centres|
    ensures Contains(TileInterval(g, k, cs, 0.0), v) <==> AxisIndex(g, cs, v) == k
  {
    TileIntervalPosition(g, k, cs, 0.0);
    var i := AxisIndex(g, cs, v);
    MulOrder(k as real, (i + 1) as real, cs);
    MulOrder(i as real, (k + 1) as real, cs);
  }

  /** Every value in [snappedMin, snappedMax) has a bin index that names a cube. */
  lemma AxisIndexInRange(g: AxisLattice, cs: real, v: real)
    requires cs > 0.0 && Regular(g, cs)
    requires g.snappedMin <= v < g.snappedMax
    ensures 0 <= AxisIndex(g, cs, v) < |g.centres|
  {
    var i := AxisIndex(g, cs, v);
    MulZero(cs);
    MulOrder(0.0, (i + 1) as real, cs);
    MulOrder(i as real, |g.centres| as real, cs);
  }

  /** Without overlap no cube reaches snappedMax: a value there is in none of them. */
  lemma NoOverlapMissesTop(g: AxisLattice, cs: real, k: int, v: real)
    requires cs > 0.0 && Regular(g, cs) && 0 <= k < |g.centres|
    requires g.snappedMax <= v
    ensures !Contains(TileInterval(g, k, cs, 0.0), v)
  {
    TileIntervalPosition(g, k, cs, 0.0);
    MulLe((k + 1) as real, |g.centres| as real, cs);
  }

  /** A cube that contains v: its bin when v is below snappedMax, otherwise the top cube,
      which a positive overlap stretches past snappedMax. */
  function CoveringIndex(g: AxisLattice, cs: real, ov: real, v: real): (k: nat)
    requires cs > 0.0 && 0.0 <= ov && Regular(g, cs) && 0 < |g.centres|
    requires g.snappedMin <= v <= g.snappedMax
    requires v < g.snappedMax || 0.0 < ov
    ensures k < |g.centres| && Contains(TileInterval(g, k, cs, ov), v)
  {
    if v < g.snappedMax then
      AxisIndexInRange(g, cs, v);
      var k := AxisIndex(g, cs, v);
      TileIntervalPosition(g, k, cs, ov);
      k
    else
      var k := |g.centres| - 1;
      TileIntervalPosition(g, k, cs, ov);
      MulLe(k as real, |g.centres| as real, cs);
      k
  }

  /** A value strictly within the overlap of the face between cubes k and k + 1 lies in both. */
  lemma SharedFaceAxis(g: AxisLattice, cs: real, ov: real, k: int, v: real)
    requires cs > 0.0 && Regular(g, cs) && 0 <= k && k + 1 < |g.centres|
    requires g.snappedMin + Mul((k + 1) as real, cs) - ov < v < g.snappedMin + Mul((k + 1) as real, cs) + ov
    ensures Contains(TileInterval(g, k, cs, ov), v)
    ensures Contains(TileInterval(g, k + 1, cs, ov), v)
  {
    TileIntervalPosition(g, k, cs, ov);
    TileIntervalPosition(g, k + 1, cs, ov);
    MulSucc(k, cs);
    MulSucc(k + 1, cs);
  }

  /** With cube_size >= 1 the lower bounds of two different cubes have different floors. */
  lemma LowerBoundFloorsDiffer(g: AxisLattice, cs: real, ov: real, k1: int, k2: int)
    requires 1.0 <= cs && Regular(g, cs)
    requires 0 <= k1 < k2 < |g.centres|
    ensures Floor(TileInterval(g, k1, cs, ov).lo) < Floor(TileInterval(g, k2, cs, ov).lo)
  {
    TileIntervalPosition(g, k1, cs, ov);
    TileIntervalPosition(g, k2, cs, ov);
    MulSucc(k1, cs);
    MulLe((k1 + 1) as real, k2 as real, cs);
    FloorSeparated(TileInterval(g, k1, cs, ov).lo, TileInterval(g, k2, cs, ov).lo);
  }
}
