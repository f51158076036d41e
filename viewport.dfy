/**
 * The map's viewBox: the extent of all projected vertices, padded by a
 * fixed margin on every side.
 */
module Viewport {
  import opened Geometry
  import opened Reductions

  const Padding: real := 100.0

  datatype Bounds = Bounds(minU: real, maxU: real, minV: real, maxV: real)

  datatype ViewBox = ViewBox(x: real, y: real, width: real, height: real)

  function Us(points: seq<Point2>): (us: seq<real>)
    ensures |us| == |points| && forall i :: 0 <= i < |points| ==> us[i] == points[i].u
  {
    seq(|points|, i requires 0 <= i < |points| => points[i].u)
  }

  function Vs(points: seq<Point2>): (vs: seq<real>)
    ensures |vs| == |points| && forall i :: 0 <= i < |points| ==> vs[i] == points[i].v
  {
    seq(|points|, i requires 0 <= i < |points| => points[i].v)
  }

  /**
   * The smallest and largest u and v over the points; each reduction
   * `unwrap`s, so the point list must not be empty.
   */
  function BoundsOf(points: seq<Point2>): (b: Bounds)
    requires |points| > 0
    ensures forall i :: 0 <= i < |points| ==>
      b.minU <= points[i].u <= b.maxU && b.minV <= points[i].v <= b.maxV
    ensures exists i :: 0 <= i < |points| && points[i].u == b.minU
    ensures exists i :: 0 <= i < |points| && points[i].u == b.maxU
    ensures exists i :: 0 <= i < |points| && points[i].v == b.minV
    ensures exists i :: 0 <= i < |points| && points[i].v == b.maxV
  {
    var us, vs := Us(points), Vs(points);
    var b := Bounds(MinOf(us), MaxOf(us), MinOf(vs), MaxOf(vs));
    assert b.minU in us && b.maxU in us && b.minV in vs && b.maxV in vs;
    b
  }

  /**
   * The viewBox: the bounds moved out by `Padding` on each side, so it is
   * at least twice the padding wide and high and every point lies at least
   * the padding away from its edges.
   */
  function ViewBoxOf(points: seq<Point2>): (vb: ViewBox)
    requires |points| > 0
    ensures vb.width >= 2.0 * Padding && vb.height >= 2.0 * Padding
    ensures forall i :: 0 <= i < |points| ==>
      && vb.x + Padding <= points[i].u <= vb.x + vb.width - Padding
      && vb.y + Padding <= points[i].v <= vb.y + vb.height - Padding
  {
    var b := BoundsOf(points);
    assert b.minU <= points[0].u <= b.maxU && b.minV <= points[0].v <= b.maxV;
    ViewBox(b.minU - Padding, b.minV - Padding, b.maxU - b.minU + 2.0 * Padding, b.maxV - b.minV + 2.0 * Padding)
  }

  /** The padding is exact: on each of the four sides some point lies exactly `Padding` inside the box. */
  lemma ViewBoxTight(points: seq<Point2>)
    requires |points| > 0
    ensures var vb := ViewBoxOf(points);
      && (exists i :: 0 <= i < |points| && points[i].u == vb.x + Padding)
      && (exists i :: 0 <= i < |points| && points[i].u == vb.x + vb.width - Padding)
      && (exists i :: 0 <= i < |points| && points[i].v == vb.y + Padding)
      && (exists i :: 0 <= i < |points| && points[i].v == vb.y + vb.height - Padding)
  {
    var b := BoundsOf(points);
    var i0 :| 0 <= i0 < |points| && points[i0].u == b.minU;
    var i1 :| 0 <= i1 < |points| && points[i1].u == b.maxU;
    var i2 :| 0 <= i2 < |points| && points[i2].v == b.minV;
    var i3 :| 0 <= i3 < |points| && points[i3].v == b.maxV;
  }

  /**
   * A unit square seen from above: the box reaches 100 units past the
   * square on every side.
   */
  lemma UnitSquareViewBox(z: real)
    ensures ViewBoxOf(ProjectAll([Vertex3(0.0, 0.0, z), Vertex3(1.0, 0.0, z),
                                  Vertex3(1.0, 1.0, z), Vertex3(0.0, 1.0, z)], Z))
      == ViewBox(-100.0, -101.0, 201.0, 201.0)
  {
    var ps := ProjectAll([Vertex3(0.0, 0.0, z), Vertex3(1.0, 0.0, z),
                          Vertex3(1.0, 1.0, z), Vertex3(0.0, 1.0, z)], Z);
    assert ps == [Point2(0.0, 0.0), Point2(1.0, 0.0), Point2(1.0, -1.0), Point2(0.0, -1.0)];
    var b := BoundsOf(ps);
    assert b.minU <= ps[0].u && b.maxU >= ps[1].u && b.minV <= ps[2].v && b.maxV >= ps[0].v;
    assert b == Bounds(0.0, 1.0, -1.0, 0.0);
  }
}
