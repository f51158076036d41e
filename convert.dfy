/**
 * The conversion of a parsed level into the map's content: the painted
 * polygons, in painter's order, with their fills, and the viewBox. Writing
 * the SVG document itself is left to the SVG library.
 */
module Convert {
  import opened Wrappers
  import opened Geometry
  import opened Levels
  import opened Textures
  import opened StableSort
  import opened Ordering
  import opened Colors
  import opened Fill
  import opened Drawing
  import opened Viewport

  /** The map is always drawn looking down the z axis. */
  const MapAxis: Axis := Z

  /** What the document is made of: its viewBox and the polygons of its hidden group. */
  datatype Scene = Scene(viewBox: ViewBox, polygons: seq<Polygon>)

  /** The faces in the order they are painted. */
  function PaintOrder(level: Level): (order: seq<Face>)
    ensures |order| == |FilterFaces(level.faces)|
  {
    SortBy(FilterFaces(level.faces), DepthKey(level.vertices, MapAxis))
  }

  /** Every texture's raster could be read. */
  predicate AllRead(rasters: seq<Option<seq<Byte>>>)
  {
    forall i :: 0 <= i < |rasters| ==> rasters[i].Some?
  }

  /**
   * The whole conversion. It fails exactly when some texture's raster
   * cannot be read. Otherwise there is one polygon per kept face, painted
   * back to front, drawn through the face's projected vertices and filled
   * with its texture's mean colour, white when the texture has none; the
   * viewBox spans all projected vertices, drawn or not. Every texture is
   * read before any face is looked at, so the panics of the later steps (a
   * level without vertices, a kept face without vertices) are demanded only
   * once every raster has been read.
   */
  method ConvertLevel(level: Level, rasters: seq<Option<seq<Byte>>>) returns (res: Result<Scene, FetchError>)
    requires |rasters| == |level.textureNames|
    requires AllRead(rasters) ==> |level.vertices| > 0
    requires AllRead(rasters) ==> AllWellFormed(level.vertices, FilterFaces(level.faces))
    requires AllRead(rasters) ==> UniqueKeys(FilterFaces(level.faces))
    ensures res.Failure? <==> exists i :: 0 <= i < |rasters| && rasters[i].None?
    ensures res.Success? ==> res.value.viewBox == ViewBoxOf(ProjectAll(level.vertices, MapAxis))
    ensures res.Success? ==> |res.value.polygons| == |PaintOrder(level)| == |FilterFaces(level.faces)|
    ensures res.Success? ==> forall i :: 0 <= i < |res.value.polygons| ==>
      PolygonOfFace(level, rasters, PaintOrder(level)[i], res.value.polygons[i])
  {
    var projected := ProjectAll(level.vertices, MapAxis);
    var colors := BuildColorTable(level.textureNames, rasters);
    if colors.Failure? {
      return Failure(colors.error);
    }
    var table := colors.value;
    assert AllRead(rasters);
    var sorted := FilterAndSortFaces(level, MapAxis);
    PaintersOrder(level, MapAxis);
    var items := BuildDrawables(level.vertices, projected, sorted);
    var group := BuildGroup(items, table);
    res := Success(Scene(ViewBoxOf(projected), group));

    assert sorted == PaintOrder(level);
    GroupFacts(level, rasters, table, sorted, items, group);
  }

  lemma GroupFacts(level: Level, rasters: seq<Option<seq<Byte>>>, table: map<string, Rgb>,
                   sorted: seq<Face>, items: seq<DrawableFace>, group: seq<Polygon>)
    requires IsColorTable(level.textureNames, rasters, table)
    requires AllWellFormed(level.vertices, sorted)
    requires items == BuildDrawables(level.vertices, ProjectAll(level.vertices, MapAxis), sorted)
    requires |group| == |items|
    requires forall i :: 0 <= i < |items| ==>
      group[i].points == items[i].points && group[i].fill == FillColor(table, items[i].textureName)
    ensures forall i :: 0 <= i < |group| ==> PolygonOfFace(level, rasters, sorted[i], group[i])
  {
    forall i | 0 <= i < |group|
      ensures PolygonOfFace(level, rasters, sorted[i], group[i])
    {
      PolygonFacts(level, rasters, table, sorted[i], items[i], group[i]);
    }
  }

  /** What the polygon of face `f` is, given the level and the rasters. */
  ghost predicate PolygonOfFace(level: Level, rasters: seq<Option<seq<Byte>>>, f: Face, poly: Polygon)
    requires |rasters| == |level.textureNames|
  {
    && WellFormedFace(level.vertices, f)
    && |poly.points| == |f.vertexIndexes|
    && (forall k :: 0 <= k < |f.vertexIndexes| ==>
          poly.points[k] == Project(level.vertices[f.vertexIndexes[k]], MapAxis))
    && IsHexFill(poly.fill)
    && (f.textureName !in level.textureNames ==> poly.fill == "#ffffff")
    && (forall j ::
          (0 <= j < |level.textureNames| && level.textureNames[j] == f.textureName &&
           LastNameBefore(level.textureNames, j, |level.textureNames|)) ==>
          rasters[j].Some? && ParseFill(poly.fill) == Some(MeanColorOf(rasters[j].value)))
  }

  lemma PolygonFacts(level: Level, rasters: seq<Option<seq<Byte>>>, table: map<string, Rgb>,
                     f: Face, item: DrawableFace, poly: Polygon)
    requires IsColorTable(level.textureNames, rasters, table)
    requires WellFormedFace(level.vertices, f)
    requires item == MakeDrawable(level.vertices, ProjectAll(level.vertices, MapAxis), f)
    requires poly.points == item.points && poly.fill == FillColor(table, item.textureName)
    ensures PolygonOfFace(level, rasters, f, poly)
  {
    var projected := ProjectAll(level.vertices, MapAxis);
    forall k | 0 <= k < |f.vertexIndexes|
      ensures poly.points[k] == Project(level.vertices[f.vertexIndexes[k]], MapAxis)
    {
      var idx := f.vertexIndexes[k];
      assert Unproject(projected[idx], AxisCoord(level.vertices[idx], MapAxis), MapAxis) == level.vertices[idx];
    }
    if f.textureName !in level.textureNames {
      assert f.textureName !in table;
      MissingTextureIsWhite(table, f.textureName);
    }
  }
}
