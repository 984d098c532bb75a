/**
 * Geometries as the pipeline sees them. The geometry library (validity,
 * repair, exploding multi-part geometries, WKT, area, reprojection, float
 * formatting) is not modelled: its operations are the fields of a `GeoOps`
 * value, and every statement about the pipeline holds for all of them.
 */
module Geometry {

  import opened Wrappers

  /** A coordinate tuple as the library yields it: normally (x, y) or (x, y, z). */
  type Vertex = seq<real>

  /** What the boundary text reads from a geometry: its kind and its coordinates. */
  datatype Shape =
    | PointShape(x: real, y: real)
    | LineShape(coords: seq<Vertex>)
    | PolygonShape(exterior: seq<Vertex>, interiors: seq<seq<Vertex>>)
    | OtherShape

  /** The geometry library's operations on geometries of type `G`. */
  datatype GeoOps<!G> = GeoOps(
    isValid: G -> bool,
    /** `buffer(0)`, the repair applied to every geometry of a frame with an invalid one */
    repair: G -> G,
    /** the single-part geometries `explode` turns one geometry into */
    parts: G -> seq<G>,
    wkt: G -> string,
    area: G -> real,
    shape: G -> Shape,
    /** `to_crs(epsg=4326)` on one geometry, or `None` when reprojecting the frame raises */
    toWgs84: Option<G -> G>,
    /** `f"{v:.6f}"` */
    fixed6: real -> string,
    /** `str(v)` of a float */
    realText: real -> string
  )

  /** A GeoDataFrame: its geometry column, and whether it carries a coordinate reference system. */
  datatype GeoFrame<G> = GeoFrame(geometry: seq<G>, hasCrs: bool)
}
