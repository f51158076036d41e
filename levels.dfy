/**
 * The parsed level as this model receives it. Parsing the binary file and
 * resolving a face's texture and vertex list are done by the level parser;
 * here a face already carries its vertex indexes and its texture's name.
 */
module Levels {
  import opened Geometry

  /**
   * A face: its edge-list index (the key of the depth memo), the indexes of
   * its vertices in order, and the name of its texture.
   */
  datatype Face = Face(edgeListIndex: int, vertexIndexes: seq<nat>, textureName: string)

  datatype Level = Level(vertices: seq<Vertex3>, faces: seq<Face>, textureNames: seq<string>)

  /** Every vertex index of `f` addresses a vertex of `vertices`. */
  predicate FaceInBounds(vertices: seq<Vertex3>, f: Face)
  {
    forall k :: 0 <= k < |f.vertexIndexes| ==> f.vertexIndexes[k] < |vertices|
  }

  /** A face whose vertices can be looked up and reduced to a minimum and a maximum. */
  predicate WellFormedFace(vertices: seq<Vertex3>, f: Face)
  {
    FaceInBounds(vertices, f) && |f.vertexIndexes| > 0
  }

  /** The face's vertices, in the face's order. */
  function FaceVertices(vertices: seq<Vertex3>, f: Face): (vs: seq<Vertex3>)
    requires FaceInBounds(vertices, f)
    ensures |vs| == |f.vertexIndexes|
    ensures forall k :: 0 <= k < |vs| ==> vs[k] == vertices[f.vertexIndexes[k]]
  {
    seq(|f.vertexIndexes|, k requires 0 <= k < |f.vertexIndexes| => vertices[f.vertexIndexes[k]])
  }
}
