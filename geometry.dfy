/** Three-component vectors over the reals (the source's `[number, number, number]`
    tuples and three.js vectors) and axis-aligned extents of point sets. */
module Geometry {

  datatype Vec3 = Vec3(x: real, y: real, z: real)

  datatype Axis = X | Y | Z

  function Get(v: Vec3, a: Axis): real
  {
    match a
    case X => v.x
    case Y => v.y
    case Z => v.z
  }

  /** `v` with the component on axis `a` overwritten by `r`. */
  function Set(v: Vec3, a: Axis, r: real): (w: Vec3)
    ensures Get(w, a) == r
    ensures forall b :: b != a ==> Get(w, b) == Get(v, b)
  {
    match a
    case X => v.(x := r)
    case Y => v.(y := r)
    case Z => v.(z := r)
  }

  function Abs(r: real): real { if r < 0.0 then -r else r }

  function Min(a: real, b: real): real { if a <= b then a else b }

  function Max(a: real, b: real): real { if a >= b then a else b }

  /** Axis-aligned bounds: `lo` holds the per-axis minima, `hi` the maxima. */
  datatype Extent = Extent(lo: Vec3, hi: Vec3)

  ghost predicate Inside(p: Vec3, e: Extent)
  {
    forall a :: Get(e.lo, a) <= Get(p, a) <= Get(e.hi, a)
  }

  /** Widen `e` so that it also covers `p` (per-axis Math.min / Math.max). */
  function Include(e: Extent, p: Vec3): Extent
  {
    Extent(Vec3(Min(e.lo.x, p.x), Min(e.lo.y, p.y), Min(e.lo.z, p.z)),
           Vec3(Max(e.hi.x, p.x), Max(e.hi.y, p.y), Max(e.hi.z, p.z)))
  }

  /** The smallest extent holding every point of a non-empty sequence: every
      point lies inside, and on every axis each bound is attained by a point. */
  function ExtentOf(ps: seq<Vec3>): (e: Extent)
    requires |ps| > 0
    ensures forall i :: 0 <= i < |ps| ==> Inside(ps[i], e)
    ensures forall a :: exists i :: 0 <= i < |ps| && Get(ps[i], a) == Get(e.lo, a)
    ensures forall a :: exists i :: 0 <= i < |ps| && Get(ps[i], a) == Get(e.hi, a)
    decreases |ps|
  {
    if |ps| == 1 then Extent(ps[0], ps[0])
    else
      var n := |ps| - 1;
      var e0 := ExtentOf(ps[..n]);
      assert forall i :: 0 <= i < n ==> ps[..n][i] == ps[i];
      Include(e0, ps[n])
  }

  /** Per-axis midpoint of an extent. */
  function Midpoint(e: Extent): (c: Vec3)
    ensures forall a :: Get(c, a) == (Get(e.lo, a) + Get(e.hi, a)) / 2.0
  {
    Vec3((e.lo.x + e.hi.x) / 2.0, (e.lo.y + e.hi.y) / 2.0, (e.lo.z + e.hi.z) / 2.0)
  }

  /** Per-axis size `hi - lo` of an extent. */
  function Size(e: Extent): (d: Vec3)
    ensures forall a :: Get(d, a) == Get(e.hi, a) - Get(e.lo, a)
  {
    Vec3(e.hi.x - e.lo.x, e.hi.y - e.lo.y, e.hi.z - e.lo.z)
  }
}
