/**
 * The painter's-algorithm order: the kept faces sorted, stably, by their
 * smallest coordinate along the view axis, with those minimums memoised in
 * a map keyed by the face's edge-list index.
 */
module Ordering {
  import opened Geometry
  import opened Levels
  import opened Reductions
  import opened Textures
  import opened StableSort

  /** The smallest coordinate along `axis` among the vertices of `f`. */
  function FaceMinimum(vertices: seq<Vertex3>, f: Face, axis: Axis): (m: real)
    requires WellFormedFace(vertices, f)
    ensures forall k :: 0 <= k < |f.vertexIndexes| ==> m <= AxisCoord(vertices[f.vertexIndexes[k]], axis)
    ensures exists k :: 0 <= k < |f.vertexIndexes| && m == AxisCoord(vertices[f.vertexIndexes[k]], axis)
  {
    var vs := FaceVertices(vertices, f);
    var coords := seq(|vs|, k requires 0 <= k < |vs| => AxisCoord(vs[k], axis));
    var m := MinOf(coords);
    assert forall k :: 0 <= k < |coords| ==>
      coords[k] == AxisCoord(vertices[f.vertexIndexes[k]], axis) && m <= coords[k];
    assert m in coords;
    m
  }

  /** The sort key of the painter's order, total over faces. */
  function DepthKey(vertices: seq<Vertex3>, axis: Axis): Face -> real
  {
    f => if WellFormedFace(vertices, f) then FaceMinimum(vertices, f, axis) else 0.0
  }

  /** Every face can be reduced to a minimum. */
  predicate AllWellFormed(vertices: seq<Vertex3>, faces: seq<Face>)
  {
    forall i :: 0 <= i < |faces| ==> WellFormedFace(vertices, faces[i])
  }

  /** No two faces share an edge-list index. */
  predicate UniqueKeys(faces: seq<Face>)
  {
    forall i, j :: 0 <= i < j < |faces| ==> faces[i].edgeListIndex != faces[j].edgeListIndex
  }

  /** No later face in `faces` has the key of `faces[i]`. */
  predicate LastWithKey(faces: seq<Face>, i: int)
    requires 0 <= i < |faces|
  {
    LastWithKeyBefore(faces, i, |faces|)
  }

  /** No face after `faces[i]` and before index `n` has the key of `faces[i]`. */
  predicate LastWithKeyBefore(faces: seq<Face>, i: int, n: int)
    requires 0 <= i < |faces| && n <= |faces|
  {
    forall j :: i < j < n ==> faces[j].edgeListIndex != faces[i].edgeListIndex
  }

  /**
   * The memo of face minimums. As with a hash map, a later face overwrites
   * an earlier one with the same key; with unique keys every lookup gives
   * the face's own minimum.
   */
  method ComputeMinimums(vertices: seq<Vertex3>, faces: seq<Face>, axis: Axis)
    returns (minimums: map<int, real>)
    requires AllWellFormed(vertices, faces)
    ensures minimums.Keys == set i | 0 <= i < |faces| :: faces[i].edgeListIndex
    ensures forall i :: 0 <= i < |faces| && LastWithKey(faces, i) ==>
      minimums[faces[i].edgeListIndex] == FaceMinimum(vertices, faces[i], axis)
    ensures UniqueKeys(faces) ==> forall i :: 0 <= i < |faces| ==>
      minimums[faces[i].edgeListIndex] == FaceMinimum(vertices, faces[i], axis)
  {
    minimums := map[];
    for n := 0 to |faces|
      invariant minimums.Keys == set i | 0 <= i < n :: faces[i].edgeListIndex
      invariant forall i :: 0 <= i < n && LastWithKeyBefore(faces, i, n) ==>
        minimums[faces[i].edgeListIndex] == FaceMinimum(vertices, faces[i], axis)
    {
      var m := FaceMinimum(vertices, faces[n], axis);
      minimums := minimums[faces[n].edgeListIndex := m];
    }
    if UniqueKeys(faces) {
      forall i | 0 <= i < |faces| ensures LastWithKey(faces, i) { }
    }
  }

  /**
   * The faces to draw, back to front: the faces with kept textures, sorted
   * stably by their minimum coordinate along `axis`, looked up in the memo.
   * Panics of the source are preconditions: a face without vertices (the
   * minimum's `unwrap`). The memo's keys must be unique for every lookup to
   * give the face's own minimum. `PaintersOrder` states what the order is.
   */
  method FilterAndSortFaces(level: Level, axis: Axis) returns (sorted: seq<Face>)
    requires AllWellFormed(level.vertices, FilterFaces(level.faces))
    requires UniqueKeys(FilterFaces(level.faces))
    ensures sorted == SortBy(FilterFaces(level.faces), DepthKey(level.vertices, axis))
  {
    var faces := FilterFaces(level.faces);
    var minimums := ComputeMinimums(level.vertices, faces, axis);
    var lookup := (f: Face) => if f.edgeListIndex in minimums then minimums[f.edgeListIndex] else 0.0;
    sorted := SortBy(faces, lookup);
    forall f | f in faces ensures lookup(f) == DepthKey(level.vertices, axis)(f) {
      var i :| 0 <= i < |faces| && faces[i] == f;
    }
    SortByCongruent(faces, lookup, DepthKey(level.vertices, axis));
  }

  /**
   * The painter's order: a permutation of the kept faces, each face's
   * minimum coordinate along `axis` at most the next one's, and faces with
   * equal minimums left in the order the level lists them.
   */
  lemma PaintersOrder(level: Level, axis: Axis)
    requires AllWellFormed(level.vertices, FilterFaces(level.faces))
    ensures var faces := FilterFaces(level.faces);
      var sorted := SortBy(faces, DepthKey(level.vertices, axis));
      && multiset(sorted) == multiset(faces)
      && AllWellFormed(level.vertices, sorted)
      && (forall i :: 0 <= i < |sorted| - 1 ==>
            FaceMinimum(level.vertices, sorted[i], axis) <= FaceMinimum(level.vertices, sorted[i + 1], axis))
      && (forall m :: KeyClass(sorted, DepthKey(level.vertices, axis), m) ==
                      KeyClass(faces, DepthKey(level.vertices, axis), m))
  {
    var faces := FilterFaces(level.faces);
    var key := DepthKey(level.vertices, axis);
    var sorted := SortBy(faces, key);
    forall i | 0 <= i < |sorted| ensures WellFormedFace(level.vertices, sorted[i]) {
      assert sorted[i] in multiset(faces);
    }
    forall i | 0 <= i < |sorted| - 1
      ensures FaceMinimum(level.vertices, sorted[i], axis) <= FaceMinimum(level.vertices, sorted[i + 1], axis)
    {
      assert key(sorted[i]) <= key(sorted[i + 1]);
    }
    forall m ensures KeyClass(sorted, key, m) == KeyClass(faces, key, m) {
      SortByStable(faces, key, m);
    }
  }
}
