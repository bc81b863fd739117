/** The geometry the viewer builds from a point cloud
    (src/components/PointCloudViewer.tsx): outliers dropped, the rest centred on
    the middle of their bounding box, scaled so that the longest side is 10
    units, and coloured by height from red (lowest) to green (highest). */
module PointCloudViewer {
  import opened Wrappers
  import opened Geometry

  /** Points with `|y|` above this are treated as outliers. */
  const OutlierBound: real := 10000000000.0

  /** The length the longest side of the bounding box is scaled to. */
  const SceneSize: real := 10.0

  /** The blue channel of every vertex colour. */
  const Blue: real := 0.5

  predicate Kept(p: Vec3)
  {
    Abs(p.y) <= OutlierBound
  }

  /** The points both `forEach` loops act on, in order. */
  function Retained(ps: seq<Vec3>): (r: seq<Vec3>)
    ensures |r| <= |ps|
    ensures forall i :: 0 <= i < |r| ==> Kept(r[i])
    decreases |ps|
  {
    if ps == [] then []
    else
      var n := |ps| - 1;
      Retained(ps[..n]) + if Kept(ps[n]) then [ps[n]] else []
  }

  /** The bounds the first loop ends with; `None` stands for the initial
      `±Infinity`, kept when no point is retained. */
  function Bounds(ps: seq<Vec3>): (b: Option<Extent>)
    ensures b.Some? <==> Retained(ps) != []
  {
    var r := Retained(ps);
    if r == [] then None else Some(ExtentOf(r))
  }

  /** `Math.max(maxX - minX, maxY - minY, maxZ - minZ)`. */
  function LongestSide(e: Extent): (m: real)
    ensures Size(e).x <= m && Size(e).y <= m && Size(e).z <= m
    ensures m == Size(e).x || m == Size(e).y || m == Size(e).z
  {
    var d := Size(e);
    Max(Max(d.x, d.y), d.z)
  }

  /** `(p - center) * scale`, with `scale = 10 / size`: the centre of the bounds
      goes to the origin, and each coordinate keeps its side of the centre. */
  function Normalized(p: Vec3, e: Extent): (q: Vec3)
    requires LongestSide(e) > 0.0
    ensures p == Midpoint(e) ==> q == Vec3(0.0, 0.0, 0.0)
    ensures (q.x < 0.0 <==> p.x < Midpoint(e).x) && (q.x > 0.0 <==> p.x > Midpoint(e).x)
    ensures (q.y < 0.0 <==> p.y < Midpoint(e).y) && (q.y > 0.0 <==> p.y > Midpoint(e).y)
    ensures (q.z < 0.0 <==> p.z < Midpoint(e).z) && (q.z > 0.0 <==> p.z > Midpoint(e).z)
  {
    var c := Midpoint(e);
    var scale := SceneSize / LongestSide(e);
    Vec3((p.x - c.x) * scale, (p.y - c.y) * scale, (p.z - c.z) * scale)
  }

  /** The height share `h = (y - minY) / (maxY - minY)`. */
  function Height(p: Vec3, e: Extent): real
    requires e.lo.y < e.hi.y
  {
    (p.y - e.lo.y) / (e.hi.y - e.lo.y)
  }

  /** The vertex colour `(1 - h, h, 0.5)`: red and green share 1, blue is fixed,
      the lowest height is pure red and the highest pure green. */
  function HeightColor(p: Vec3, e: Extent): (c: Vec3)
    requires e.lo.y < e.hi.y
    ensures c.x + c.y == 1.0 && c.z == Blue
    ensures p.y == e.lo.y ==> c == Vec3(1.0, 0.0, Blue)
    ensures p.y == e.hi.y ==> c == Vec3(0.0, 1.0, Blue)
  {
    var h := Height(p, e);
    Vec3(1.0 - h, h, Blue)
  }

  /** The three components laid out one after another, as the buffers hold them. */
  function Pack(vs: seq<Vec3>): (flat: seq<real>)
    ensures |flat| == 3 * |vs|
    decreases |vs|
  {
    if vs == [] then []
    else
      var n := |vs| - 1;
      Pack(vs[..n]) + [vs[n].x, vs[n].y, vs[n].z]
  }

  function NormalizeAll(rs: seq<Vec3>, e: Extent): (vs: seq<Vec3>)
    requires e.lo.y < e.hi.y
    ensures |vs| == |rs|
    decreases |rs|
  {
    if rs == [] then []
    else
      var n := |rs| - 1;
      NormalizeAll(rs[..n], e) + [Normalized(rs[n], e)]
  }

  function ColorAll(rs: seq<Vec3>, e: Extent): (vs: seq<Vec3>)
    requires e.lo.y < e.hi.y
    ensures |vs| == |rs|
    decreases |rs|
  {
    if rs == [] then []
    else
      var n := |rs| - 1;
      ColorAll(rs[..n], e) + [HeightColor(rs[n], e)]
  }

  /** What the viewer can draw: the source divides by the extent sizes, so the
      model asks that the retained points, if any, do not all share one height. */
  predicate Drawable(ps: seq<Vec3>)
  {
    Bounds(ps).None? || Bounds(ps).value.lo.y < Bounds(ps).value.hi.y
  }

  /** The data of the `position` attribute. */
  function ScenePositions(ps: seq<Vec3>): (flat: seq<real>)
    requires Drawable(ps)
    ensures |flat| == 3 * |Retained(ps)|
  {
    match Bounds(ps)
    case None => []
    case Some(e) => Pack(NormalizeAll(Retained(ps), e))
  }

  /** The data of the `color` attribute. */
  function SceneColors(ps: seq<Vec3>): (flat: seq<real>)
    requires Drawable(ps)
    ensures |flat| == 3 * |Retained(ps)|
  {
    match Bounds(ps)
    case None => []
    case Some(e) => Pack(ColorAll(Retained(ps), e))
  }

  // ------------------------------------------------------------ the two loops

  lemma {:induction false} RetainedAppend(a: seq<Vec3>, b: seq<Vec3>)
    ensures Retained(a + b) == Retained(a) + Retained(b)
    decreases |b|
  {
    if b == [] {
      assert a + b == a;
    } else {
      var n := |b| - 1;
      assert (a + b)[..|a + b| - 1] == a + b[..n];
      RetainedAppend(a, b[..n]);
    }
  }

  lemma RetainedStep(ps: seq<Vec3>, i: nat)
    requires i < |ps|
    ensures Retained(ps[..i + 1]) == Retained(ps[..i]) + if Kept(ps[i]) then [ps[i]] else []
  {
    assert ps[..i + 1][..i] == ps[..i];
  }

  /** Nothing is retained exactly when every point is an outlier. */
  lemma {:induction false} RetainedEmpty(ps: seq<Vec3>)
    ensures Retained(ps) == [] <==> forall j :: 0 <= j < |ps| ==> !Kept(ps[j])
    decreases |ps|
  {
    if ps != [] {
      var n := |ps| - 1;
      RetainedEmpty(ps[..n]);
      assert forall j :: 0 <= j < n ==> ps[..n][j] == ps[j];
      if Kept(ps[n]) {
        assert Retained(ps)[|Retained(ps)| - 1] == ps[n];
      } else {
        assert Retained(ps) == Retained(ps[..n]) + [];
      }
    }
  }

  /** One turn of the bounding-box loop: an outlier is skipped, the first kept
      point starts the bounds (`Math.min(Infinity, v) == v`), later ones widen them. */
  lemma BoundsStep(ps: seq<Vec3>, i: nat)
    requires i < |ps|
    ensures Bounds(ps[..i + 1]) ==
      if !Kept(ps[i]) then Bounds(ps[..i])
      else if Bounds(ps[..i]).None? then Some(Extent(ps[i], ps[i]))
      else Some(Include(Bounds(ps[..i]).value, ps[i]))
  {
    RetainedStep(ps, i);
    var r := Retained(ps[..i]);
    if Kept(ps[i]) {
      assert (r + [ps[i]])[..|r|] == r;
    } else {
      assert r + [] == r;
    }
  }

  /** The bounding-box loop (lines 107-117). */
  method ComputeBounds(points: seq<Vec3>) returns (bounds: Option<Extent>)
    ensures bounds == Bounds(points)
  {
    bounds := None;
    var i := 0;
    while i < |points|
      invariant 0 <= i <= |points|
      invariant bounds == Bounds(points[..i])
    {
      var p := points[i];
      BoundsStep(points, i);
      if Kept(p) {
        bounds := if bounds.None? then Some(Extent(p, p)) else Some(Include(bounds.value, p));
      }
      i := i + 1;
    }
    assert points[..i] == points;
  }

  /** Appending one retained point appends its three coordinates and its colour. */
  lemma VertexStep(r: seq<Vec3>, p: Vec3, e: Extent)
    requires e.lo.y < e.hi.y
    ensures var q := Normalized(p, e);
      Pack(NormalizeAll(r + [p], e)) == Pack(NormalizeAll(r, e)) + [q.x, q.y, q.z]
    ensures var color := HeightColor(p, e);
      Pack(ColorAll(r + [p], e)) == Pack(ColorAll(r, e)) + [color.x, color.y, color.z]
  {
    assert (r + [p])[..|r|] == r;
    assert NormalizeAll(r + [p], e) == NormalizeAll(r, e) + [Normalized(p, e)];
    assert ColorAll(r + [p], e) == ColorAll(r, e) + [HeightColor(p, e)];
    PackAppend(NormalizeAll(r, e), Normalized(p, e));
    PackAppend(ColorAll(r, e), HeightColor(p, e));
  }

  /** Lines 103-162: the `position` and `color` buffers, `3 * points.length` long
      and zero-filled, of which the first `3 * validPointCount` entries are used. */
  method BuildGeometry(points: seq<Vec3>) returns (positions: array<real>, colors: array<real>, count: nat)
    requires Drawable(points)
    ensures fresh(positions) && fresh(colors)
    ensures positions.Length == colors.Length == 3 * |points|
    ensures count == |Retained(points)|
    ensures positions[..3 * count] == ScenePositions(points)
    ensures colors[..3 * count] == SceneColors(points)
    ensures forall k :: 3 * count <= k < 3 * |points| ==> positions[k] == 0.0 && colors[k] == 0.0
  {
    var bounds := ComputeBounds(points);
    RetainedEmpty(points);
    positions := new real[3 * |points|](_ => 0.0);
    colors := new real[3 * |points|](_ => 0.0);
    count := FillBuffers(points, bounds, positions, colors);
    SceneData(points, Retained(points), bounds);
  }

  /** The second `forEach` (lines 140-157): each retained point's position and
      colour are written at `3 * validPointCount`. */
  method FillBuffers(points: seq<Vec3>, bounds: Option<Extent>, positions: array<real>, colors: array<real>) returns (count: nat)
    requires bounds.Some? ==> bounds.value.lo.y < bounds.value.hi.y
    requires bounds.None? ==> forall j :: 0 <= j < |points| ==> !Kept(points[j])
    requires positions != colors && positions.Length == colors.Length == 3 * |points|
    requires forall k :: 0 <= k < 3 * |points| ==> positions[k] == 0.0 && colors[k] == 0.0
    modifies positions, colors
    ensures count == |Retained(points)|
    ensures bounds.Some? ==> positions[..3 * count] == Pack(NormalizeAll(Retained(points), bounds.value))
    ensures bounds.Some? ==> colors[..3 * count] == Pack(ColorAll(Retained(points), bounds.value))
    ensures forall k :: 3 * count <= k < 3 * |points| ==> positions[k] == 0.0 && colors[k] == 0.0
  {
    count := 0;
    ghost var kept: seq<Vec3> := [];
    var i := 0;
    while i < |points|
      invariant 0 <= i <= |points|
      invariant kept == Retained(points[..i]) && count == |kept| <= i
      invariant bounds.Some? ==> Written(positions, colors, kept, bounds.value)
      invariant forall k :: 3 * count <= k < 3 * |points| ==> positions[k] == 0.0 && colors[k] == 0.0
    {
      var p := points[i];
      RetainedStep(points, i);
      if Kept(p) {
        AppendVertex(positions, colors, count, p, bounds.value, kept);
        kept := kept + [p];
        count := count + 1;
      }
      i := i + 1;
    }
    assert points[..i] == points;
  }

  /** The first `3 * |kept|` entries of the buffers hold the positions and the
      colours of `kept`. */
  ghost predicate Written(positions: array<real>, colors: array<real>, kept: seq<Vec3>, e: Extent)
    requires e.lo.y < e.hi.y
    reads positions, colors
  {
    3 * |kept| <= positions.Length && 3 * |kept| <= colors.Length
    && positions[..3 * |kept|] == Pack(NormalizeAll(kept, e))
    && colors[..3 * |kept|] == Pack(ColorAll(kept, e))
  }

  /** One retained point written at `3 * count`. */
  method AppendVertex(positions: array<real>, colors: array<real>, count: nat, p: Vec3, e: Extent, ghost kept: seq<Vec3>)
    requires e.lo.y < e.hi.y && count == |kept|
    requires positions != colors && 3 * count + 3 <= positions.Length == colors.Length
    requires Written(positions, colors, kept, e)
    modifies positions, colors
    ensures Written(positions, colors, kept + [p], e)
    ensures forall j :: 3 * count + 3 <= j < positions.Length ==> positions[j] == old(positions[j]) && colors[j] == old(colors[j])
  {
    var q, color := Normalized(p, e), HeightColor(p, e);
    VertexStep(kept, p, e);
    PutVertex(positions, colors, 3 * count, q, color);
  }

  /** The scene data in terms of the retained points and the bounds. */
  lemma SceneData(ps: seq<Vec3>, kept: seq<Vec3>, bounds: Option<Extent>)
    requires Drawable(ps) && kept == Retained(ps) && bounds == Bounds(ps)
    ensures bounds.None? ==> ScenePositions(ps) == [] && SceneColors(ps) == []
    ensures bounds.Some? ==> ScenePositions(ps) == Pack(NormalizeAll(kept, bounds.value))
                             && SceneColors(ps) == Pack(ColorAll(kept, bounds.value))
  {
  }

  /** The six buffer writes for one vertex at `i3`: its position and its colour. */
  method PutVertex(positions: array<real>, colors: array<real>, i3: nat, q: Vec3, color: Vec3)
    requires positions != colors && i3 + 3 <= positions.Length == colors.Length
    modifies positions, colors
    ensures positions[..i3 + 3] == old(positions[..i3]) + [q.x, q.y, q.z]
    ensures colors[..i3 + 3] == old(colors[..i3]) + [color.x, color.y, color.z]
    ensures forall j :: i3 + 3 <= j < positions.Length ==> positions[j] == old(positions[j]) && colors[j] == old(colors[j])
  {
    positions[i3], positions[i3 + 1], positions[i3 + 2] := q.x, q.y, q.z;
    colors[i3], colors[i3 + 1], colors[i3 + 2] := color.x, color.y, color.z;
    assert positions[..i3 + 3] == positions[..i3] + [positions[i3], positions[i3 + 1], positions[i3 + 2]];
    assert colors[..i3 + 3] == colors[..i3] + [colors[i3], colors[i3 + 1], colors[i3 + 2]];
  }

  lemma PackAppend(vs: seq<Vec3>, v: Vec3)
    ensures Pack(vs + [v]) == Pack(vs) + [v.x, v.y, v.z]
  {
    assert (vs + [v])[..|vs|] == vs;
  }

  // ------------------------------------------------------------ properties

  /** Entry `3 * i + j` of the packed data is component `j` of vector `i`. */
  lemma {:induction false} PackAt(vs: seq<Vec3>, i: nat)
    requires i < |vs|
    ensures Pack(vs)[3 * i] == vs[i].x && Pack(vs)[3 * i + 1] == vs[i].y && Pack(vs)[3 * i + 2] == vs[i].z
    decreases |vs|
  {
    var n := |vs| - 1;
    if i < n {
      PackAt(vs[..n], i);
    }
  }

  lemma {:induction false} NormalizeAllAt(rs: seq<Vec3>, e: Extent, i: nat)
    requires e.lo.y < e.hi.y && i < |rs|
    ensures NormalizeAll(rs, e)[i] == Normalized(rs[i], e)
    decreases |rs|
  {
    var n := |rs| - 1;
    if i < n {
      NormalizeAllAt(rs[..n], e, i);
    }
  }

  lemma {:induction false} ColorAllAt(rs: seq<Vec3>, e: Extent, i: nat)
    requires e.lo.y < e.hi.y && i < |rs|
    ensures ColorAll(rs, e)[i] == HeightColor(rs[i], e)
    decreases |rs|
  {
    var n := |rs| - 1;
    if i < n {
      ColorAllAt(rs[..n], e, i);
    }
  }

  /** An offset of at most half the longest side lands within half the scene. */
  lemma ScaledOffsetWithin(d: real, m: real)
    requires m > 0.0 && -m / 2.0 <= d <= m / 2.0
    ensures -SceneSize / 2.0 <= d * (SceneSize / m) <= SceneSize / 2.0
  {
    var q := SceneSize / m;
    assert q * m == SceneSize;
    assert (m / 2.0 - d) * q >= 0.0;
    assert (d + m / 2.0) * q >= 0.0;
  }

  lemma CoordinateWithin(lo: real, v: real, hi: real, m: real, q: real)
    requires lo <= v <= hi && hi - lo <= m && m > 0.0
    requires q == (v - (lo + hi) / 2.0) * (SceneSize / m)
    ensures -5.0 <= q <= 5.0
  {
    ScaledOffsetWithin(v - (lo + hi) / 2.0, m);
  }

  /** A point inside the bounds is drawn inside the cube of side 10 around the origin. */
  lemma NormalizedWithinScene(p: Vec3, e: Extent)
    requires Inside(p, e) && e.lo.y < e.hi.y
    ensures var q := Normalized(p, e);
      -5.0 <= q.x <= 5.0 && -5.0 <= q.y <= 5.0 && -5.0 <= q.z <= 5.0
  {
    var m := LongestSide(e);
    var q := Normalized(p, e);
    InsideBounds(p, e);
    CoordinateWithin(e.lo.x, p.x, e.hi.x, m, q.x);
    CoordinateWithin(e.lo.y, p.y, e.hi.y, m, q.y);
    CoordinateWithin(e.lo.z, p.z, e.hi.z, m, q.z);
  }

  lemma InsideBounds(p: Vec3, e: Extent)
    requires Inside(p, e)
    ensures e.lo.x <= p.x <= e.hi.x && e.lo.y <= p.y <= e.hi.y && e.lo.z <= p.z <= e.hi.z
    ensures e.hi.x - e.lo.x <= LongestSide(e) && e.hi.y - e.lo.y <= LongestSide(e)
            && e.hi.z - e.lo.z <= LongestSide(e)
  {
    assert Get(e.lo, X) <= Get(p, X) <= Get(e.hi, X);
    assert Get(e.lo, Y) <= Get(p, Y) <= Get(e.hi, Y);
    assert Get(e.lo, Z) <= Get(p, Z) <= Get(e.hi, Z);
  }

  /** Every drawn coordinate lies in [-5, 5]. */
  lemma ScenePositionsWithinCube(ps: seq<Vec3>, k: nat)
    requires Drawable(ps) && k < |ScenePositions(ps)|
    ensures -5.0 <= ScenePositions(ps)[k] <= 5.0
  {
    var e := Bounds(ps).value;
    var r := Retained(ps);
    var i := k / 3;
    assert ScenePositions(ps) == Pack(NormalizeAll(r, e));
    assert k == 3 * i || k == 3 * i + 1 || k == 3 * i + 2;
    PackAt(NormalizeAll(r, e), i);
    NormalizeAllAt(r, e, i);
    NormalizedWithinScene(r[i], e);
  }

  lemma HeightShare(lo: real, v: real, hi: real)
    requires lo <= v <= hi && lo < hi
    ensures 0.0 <= (v - lo) / (hi - lo) <= 1.0
    ensures v == lo ==> (v - lo) / (hi - lo) == 0.0
    ensures v == hi ==> (v - lo) / (hi - lo) == 1.0
  {
    var d := hi - lo;
    var q := (v - lo) / d;
    assert q * d == v - lo;
    if q > 1.0 {
      PositiveProduct(q - 1.0, d);
    }
    if q < 0.0 {
      PositiveProduct(-q, d);
    }
  }

  lemma PositiveProduct(a: real, b: real)
    requires a > 0.0 && b > 0.0
    ensures a * b > 0.0
  {
  }

  /** The colour of vertex `i`: red and green share 1 by height, blue is 0.5, and
      the lowest point is pure red, the highest pure green. */
  lemma SceneColorAt(ps: seq<Vec3>, i: nat)
    requires Drawable(ps) && i < |Retained(ps)|
    ensures var col := SceneColors(ps);
      var e := Bounds(ps).value;
      var y := Retained(ps)[i].y;
      0.0 <= col[3 * i + 1] <= 1.0 && col[3 * i] + col[3 * i + 1] == 1.0 && col[3 * i + 2] == Blue
      && (y == e.lo.y ==> col[3 * i] == 1.0 && col[3 * i + 1] == 0.0)
      && (y == e.hi.y ==> col[3 * i] == 0.0 && col[3 * i + 1] == 1.0)
  {
    var e := Bounds(ps).value;
    var r := Retained(ps);
    assert SceneColors(ps) == Pack(ColorAll(r, e));
    PackAt(ColorAll(r, e), i);
    ColorAllAt(r, e, i);
    InsideBounds(r[i], e);
    HeightColorShares(r[i], e);
  }

  lemma HeightColorShares(p: Vec3, e: Extent)
    requires e.lo.y <= p.y <= e.hi.y && e.lo.y < e.hi.y
    ensures var c := HeightColor(p, e);
      0.0 <= c.y <= 1.0 && c.x + c.y == 1.0 && c.z == Blue
      && (p.y == e.lo.y ==> c.x == 1.0 && c.y == 0.0)
      && (p.y == e.hi.y ==> c.x == 0.0 && c.y == 1.0)
  {
    HeightShare(e.lo.y, p.y, e.hi.y);
  }

  /** An outlier anywhere in the cloud changes neither the bounds nor what is drawn. */
  lemma OutlierChangesNothing(a: seq<Vec3>, q: Vec3, b: seq<Vec3>)
    requires !Kept(q)
    ensures Retained(a + [q] + b) == Retained(a + b)
    ensures Bounds(a + [q] + b) == Bounds(a + b)
  {
    RetainedAppend(a + [q], b);
    RetainedAppend(a, [q]);
    RetainedAppend(a, b);
    assert Retained([q]) == [];
  }
}
