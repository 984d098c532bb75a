/**
 * `get_boundary_str` (ProcessingSHP.py:456-472): the `boundaries` text of one
 * geometry, its coordinate pairs `x_y` (six decimals each) joined by `;`.
 */
module Boundary {

  import opened PyText
  import opened Geometry

  /** `f"{x:.6f}_{y:.6f}"` */
  function PairText(fixed6: real -> string, x: real, y: real): string
  {
    fixed6(x) + "_" + fixed6(y)
  }

  /** A vertex the formatting can read: it has an x and a y (`pt[0]`, `pt[1]` exist). */
  predicate Formattable(v: Vertex)
  {
    |v| >= 2
  }

  /** The pairs of the formattable vertices of `vs`, in order; the others are skipped. */
  function VertexPairs(vs: seq<Vertex>, fixed6: real -> string): seq<string>
  {
    if vs == [] then []
    else
      var last := vs[|vs| - 1];
      VertexPairs(vs[..|vs| - 1], fixed6)
        + (if Formattable(last) then [PairText(fixed6, last[0], last[1])] else [])
  }

  /** The pairs of a geometry: a point's one pair, a line's vertices, a polygon's exterior ring, nothing else. */
  function BoundaryPairs(s: Shape, fixed6: real -> string): seq<string>
  {
    match s
    case PointShape(x, y) => [PairText(fixed6, x, y)]
    case LineShape(coords) => VertexPairs(coords, fixed6)
    case PolygonShape(exterior, _) => VertexPairs(exterior, fixed6)
    case OtherShape => []
  }

  /** `for pt in vs: try: coords.append(...) except: pass` */
  method AppendVertexPairs(coords: seq<string>, vs: seq<Vertex>, fixed6: real -> string)
    returns (out: seq<string>)
    ensures out == coords + VertexPairs(vs, fixed6)
  {
    out := coords;
    var i := 0;
    while i < |vs|
      invariant 0 <= i <= |vs|
      invariant out == coords + VertexPairs(vs[..i], fixed6)
    {
      var pt := vs[i];
      if |pt| >= 2 {
        out := out + [PairText(fixed6, pt[0], pt[1])];
      }
      i := i + 1;
      assert vs[..i][..i - 1] == vs[..i - 1];
    }
    assert vs[..i] == vs;
  }

  /** `get_boundary_str(geom)` for a geometry of shape `s`. */
  method BoundaryString(s: Shape, fixed6: real -> string) returns (text: string)
    ensures text == Join(BoundaryPairs(s, fixed6), ';')
  {
    var coords: seq<string> := [];
    match s {
      case PointShape(x, y) =>
        coords := coords + [PairText(fixed6, x, y)];
      case LineShape(vs) =>
        coords := AppendVertexPairs(coords, vs, fixed6);
        assert coords == VertexPairs(vs, fixed6);
      case PolygonShape(exterior, _) =>
        coords := AppendVertexPairs(coords, exterior, fixed6);
        assert coords == VertexPairs(exterior, fixed6);
      case OtherShape =>
    }
    text := Join(coords, ';');
  }

  // ---------------------------------------------------------------------------

  /** With every vertex formattable, there is one pair per vertex, in order. */
  lemma {:induction false} AllVerticesFormatted(vs: seq<Vertex>, fixed6: real -> string)
    requires forall i :: 0 <= i < |vs| ==> Formattable(vs[i])
    ensures |VertexPairs(vs, fixed6)| == |vs|
    ensures forall i :: 0 <= i < |vs| ==>
      Formattable(vs[i]) && VertexPairs(vs, fixed6)[i] == PairText(fixed6, vs[i][0], vs[i][1])
  {
    if vs != [] {
      AllVerticesFormatted(vs[..|vs| - 1], fixed6);
    }
  }

  /** `pair` is the text of some formattable vertex of `vs`. */
  predicate FromSomeVertex(pair: string, vs: seq<Vertex>, fixed6: real -> string)
  {
    exists i :: 0 <= i < |vs| && Formattable(vs[i]) && pair == PairText(fixed6, vs[i][0], vs[i][1])
  }

  /** Every pair is the text of some formattable vertex: nothing is invented. */
  lemma {:induction false} PairsComeFromVertices(vs: seq<Vertex>, fixed6: real -> string)
    ensures |VertexPairs(vs, fixed6)| <= |vs|
    ensures forall j :: 0 <= j < |VertexPairs(vs, fixed6)| ==> FromSomeVertex(VertexPairs(vs, fixed6)[j], vs, fixed6)
  {
    if vs != [] {
      var n := |vs| - 1;
      var init := vs[..n];
      var pairs := VertexPairs(vs, fixed6);
      var before := VertexPairs(init, fixed6);
      PairsComeFromVertices(init, fixed6);
      assert pairs == before + (if Formattable(vs[n]) then [PairText(fixed6, vs[n][0], vs[n][1])] else []);
      forall j | 0 <= j < |pairs| ensures FromSomeVertex(pairs[j], vs, fixed6) {
        if j < |before| {
          assert FromSomeVertex(before[j], init, fixed6);
          var i :| 0 <= i < |init| && Formattable(init[i]) && before[j] == PairText(fixed6, init[i][0], init[i][1]);
          assert vs[i] == init[i] && pairs[j] == before[j];
        } else {
          assert Formattable(vs[n]) && pairs[j] == PairText(fixed6, vs[n][0], vs[n][1]);
        }
      }
    }
  }

  /** A formatter whose texts never hold `;` (numbers never do). */
  ghost predicate SemicolonFree(fixed6: real -> string)
  {
    forall x :: ';' !in fixed6(x)
  }

  /**
   * Splitting a non-empty boundary text at `;` gives back the pairs it was
   * joined from.
   */
  lemma BoundarySplitsBack(s: Shape, fixed6: real -> string)
    requires SemicolonFree(fixed6)
    requires BoundaryPairs(s, fixed6) != []
    ensures Split(Join(BoundaryPairs(s, fixed6), ';'), ';') == BoundaryPairs(s, fixed6)
  {
    var pairs := BoundaryPairs(s, fixed6);
    forall j | 0 <= j < |pairs| ensures ';' !in pairs[j] {
      var vs := match s case LineShape(c) => c case PolygonShape(e, _) => e case _ => [];
      if !s.PointShape? {
        PairsComeFromVertices(vs, fixed6);
        assert FromSomeVertex(pairs[j], vs, fixed6);
      }
    }
    SplitJoin(pairs, ';');
  }
}
