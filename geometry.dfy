/**
 * Points, vertices and the axis projection that turns the level's 3D
 * vertices into 2D map points.
 */
module Geometry {

  datatype Vertex3 = Vertex3(x: real, y: real, z: real)

  datatype Point2 = Point2(u: real, v: real)

  /** The axis the map looks along. */
  datatype Axis = X | Y | Z

  /** The coordinate of `v` along `axis`: the depth that orders faces. */
  function AxisCoord(v: Vertex3, axis: Axis): real
  {
    match axis
    case X => v.x
    case Y => v.y
    case Z => v.z
  }

  /** Drop the coordinate along `axis`; looking down Z, y is flipped. */
  function Project(v: Vertex3, axis: Axis): Point2
  {
    match axis
    case X => Point2(v.y, v.z)
    case Y => Point2(v.x, v.z)
    case Z => Point2(v.x, -v.y)
  }

  /** Rebuild a vertex from its projection and the coordinate the projection dropped. */
  function Unproject(p: Point2, depth: real, axis: Axis): (v: Vertex3)
    ensures Project(v, axis) == p
    ensures AxisCoord(v, axis) == depth
  {
    match axis
    case X => Vertex3(depth, p.u, p.v)
    case Y => Vertex3(p.u, depth, p.v)
    case Z => Vertex3(p.u, -p.v, depth)
  }

  /**
   * The projected vertex list: one point per vertex, at the same index, and
   * each point together with the vertex's depth determines the vertex, so
   * the projection loses exactly the coordinate along the axis.
   */
  function ProjectAll(vertices: seq<Vertex3>, axis: Axis): (points: seq<Point2>)
    ensures |points| == |vertices|
    ensures forall i :: 0 <= i < |vertices| ==>
      Unproject(points[i], AxisCoord(vertices[i], axis), axis) == vertices[i]
    ensures forall i :: 0 <= i < |vertices| ==>
      points[i] == match axis
        case X => Point2(vertices[i].y, vertices[i].z)
        case Y => Point2(vertices[i].x, vertices[i].z)
        case Z => Point2(vertices[i].x, -vertices[i].y)
  {
    seq(|vertices|, i requires 0 <= i < |vertices| => Project(vertices[i], axis))
  }

  /**
   * Two vertices with the same depth project to the same point only when
   * they are the same vertex.
   */
  lemma ProjectInjectiveAtDepth(v: Vertex3, w: Vertex3, axis: Axis)
    requires AxisCoord(v, axis) == AxisCoord(w, axis)
    ensures Project(v, axis) == Project(w, axis) <==> v == w
  {
    if Project(v, axis) == Project(w, axis) {
      assert Unproject(Project(v, axis), AxisCoord(v, axis), axis) == v;
      assert Unproject(Project(w, axis), AxisCoord(w, axis), axis) == w;
    }
  }
}
