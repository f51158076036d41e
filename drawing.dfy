/**
 * The drawable faces and the polygons of the map's hidden group. Each kept
 * face, in painter's order, becomes its projected outline, its texture's
 * name and the range of its vertices' z coordinates; each of those becomes
 * a polygon with the texture's fill.
 */
module Drawing {
  import opened Geometry
  import opened Levels
  import opened Reductions
  import opened Colors
  import opened Fill
  import opened Wrappers

  datatype DrawableFace = DrawableFace(points: seq<Point2>, textureName: string, minZ: real, maxZ: real)

  /** A polygon of the group: its outline and its fill. */
  datatype Polygon = Polygon(points: seq<Point2>, fill: string)

  /** The z coordinates of the face's vertices; z is used whatever the view axis. */
  function FaceZs(vertices: seq<Vertex3>, f: Face): (zs: seq<real>)
    requires FaceInBounds(vertices, f)
    ensures |zs| == |f.vertexIndexes|
    ensures forall k :: 0 <= k < |zs| ==> zs[k] == vertices[f.vertexIndexes[k]].z
  {
    var vs := FaceVertices(vertices, f);
    seq(|vs|, k requires 0 <= k < |vs| => vs[k].z)
  }

  /**
   * One face made drawable: the projected points of its vertex indexes, in
   * order, and the smallest and largest z of its 3D vertices. The minimum
   * and maximum `unwrap` an empty reduction, hence a non-empty face.
   */
  function MakeDrawable(vertices: seq<Vertex3>, projected: seq<Point2>, f: Face): (d: DrawableFace)
    requires WellFormedFace(vertices, f) && |projected| == |vertices|
    ensures |d.points| == |f.vertexIndexes|
    ensures forall k :: 0 <= k < |f.vertexIndexes| ==> d.points[k] == projected[f.vertexIndexes[k]]
    ensures d.textureName == f.textureName
    ensures d.minZ <= d.maxZ
    ensures forall k :: 0 <= k < |f.vertexIndexes| ==>
      d.minZ <= vertices[f.vertexIndexes[k]].z <= d.maxZ
    ensures exists k :: 0 <= k < |f.vertexIndexes| && d.minZ == vertices[f.vertexIndexes[k]].z
    ensures exists k :: 0 <= k < |f.vertexIndexes| && d.maxZ == vertices[f.vertexIndexes[k]].z
  {
    var points := seq(|f.vertexIndexes|, k requires 0 <= k < |f.vertexIndexes| =>
      projected[f.vertexIndexes[k]]);
    var zs := FaceZs(vertices, f);
    MinAtMostMax(zs);
    var lo, hi := MinOf(zs), MaxOf(zs);
    assert forall k :: 0 <= k < |zs| ==> lo <= zs[k] <= hi;
    assert lo in zs && hi in zs;
    DrawableFace(points, f.textureName, lo, hi)
  }

  /** The drawable faces whose point list is not empty, in order. */
  function DropEmpty(items: seq<DrawableFace>): (kept: seq<DrawableFace>)
    ensures forall i :: 0 <= i < |kept| ==> |kept[i].points| > 0
    ensures (forall i :: 0 <= i < |items| ==> |items[i].points| > 0) ==> kept == items
  {
    if items == [] then []
    else
      var rest := DropEmpty(items[1..]);
      if |items[0].points| == 0 then rest else [items[0]] + rest
  }

  /**
   * A drawable face with points occurs among the kept ones as often as in
   * the input; one without points never occurs.
   */
  lemma {:induction false} DropEmptyCount(items: seq<DrawableFace>, d: DrawableFace)
    ensures multiset(DropEmpty(items))[d] == if |d.points| > 0 then multiset(items)[d] else 0
  {
    if items != [] {
      DropEmptyCount(items[1..], d);
      assert items == [items[0]] + items[1..];
      assert multiset(items) == multiset{items[0]} + multiset(items[1..]);
      var rest := DropEmpty(items[1..]);
      if |items[0].points| > 0 {
        assert DropEmpty(items) == [items[0]] + rest;
        assert multiset([items[0]] + rest) == multiset{items[0]} + multiset(rest);
      } else {
        assert DropEmpty(items) == rest;
      }
    }
  }

  /** Dropping commutes with concatenation, so the kept faces stay in order. */
  lemma {:induction false} DropEmptyAppend(a: seq<DrawableFace>, b: seq<DrawableFace>)
    ensures DropEmpty(a + b) == DropEmpty(a) + DropEmpty(b)
  {
    if a == [] {
      assert a + b == b;
    } else {
      assert (a + b)[1..] == a[1..] + b;
      DropEmptyAppend(a[1..], b);
    }
  }

  /**
   * The drawable faces of `faces`, in order, without those whose point list
   * is empty. Every face has a vertex, so nothing is dropped: there is one
   * drawable face per face.
   */
  function BuildDrawables(vertices: seq<Vertex3>, projected: seq<Point2>, faces: seq<Face>)
    : (items: seq<DrawableFace>)
    requires forall i :: 0 <= i < |faces| ==> WellFormedFace(vertices, faces[i])
    requires |projected| == |vertices|
    ensures |items| == |faces|
    ensures forall i :: 0 <= i < |faces| ==> items[i] == MakeDrawable(vertices, projected, faces[i])
  {
    var all := seq(|faces|, i requires 0 <= i < |faces| => MakeDrawable(vertices, projected, faces[i]));
    assert forall i :: 0 <= i < |all| ==> |all[i].points| == |faces[i].vertexIndexes| > 0;
    DropEmpty(all)
  }

  /**
   * With the vertices projected along `axis`, the points of every drawable
   * face are the projections of the face's own vertices.
   */
  lemma DrawablePointsAreProjections(vertices: seq<Vertex3>, faces: seq<Face>, axis: Axis, i: int, k: int)
    requires forall j :: 0 <= j < |faces| ==> WellFormedFace(vertices, faces[j])
    requires 0 <= i < |faces| && 0 <= k < |faces[i].vertexIndexes|
    ensures var items := BuildDrawables(vertices, ProjectAll(vertices, axis), faces);
      items[i].points[k] == Project(vertices[faces[i].vertexIndexes[k]], axis)
  {
    var idx := faces[i].vertexIndexes[k];
    assert Unproject(ProjectAll(vertices, axis)[idx], AxisCoord(vertices[idx], axis), axis) == vertices[idx];
  }

  /** The hidden group: one polygon per drawable face, in order, with its texture's fill. */
  method BuildGroup(items: seq<DrawableFace>, table: map<string, Rgb>) returns (group: seq<Polygon>)
    ensures |group| == |items|
    ensures forall i :: 0 <= i < |items| ==>
      group[i].points == items[i].points && group[i].fill == FillColor(table, items[i].textureName)
    ensures forall i :: 0 <= i < |group| ==>
      IsHexFill(group[i].fill) && ParseFill(group[i].fill) == Some(ColorOf(table, items[i].textureName))
  {
    group := [];
    for i := 0 to |items|
      invariant |group| == i
      invariant forall j :: 0 <= j < i ==>
        group[j].points == items[j].points && group[j].fill == FillColor(table, items[j].textureName)
    {
      var fill := FillColor(table, items[i].textureName);
      group := group + [Polygon(items[i].points, fill)];
    }
  }
}
