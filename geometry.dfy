/**
 * The geometry of one shapefile feature in the PS71 polar-stereographic
 * plane, and the bounding-box overlap test used to select features.
 */
module Geometry {

  /**
   * One vertex `[x, y]`. Coordinates are only ever compared, never combined,
   * so a `real` stands for the Python float.
   */
  datatype Point = Point(x: real, y: real)

  /** An axis-aligned box `[xmin, ymin, xmax, ymax]`. */
  datatype BBox = BBox(xmin: real, ymin: real, xmax: real, ymax: real)

  /**
   * A shapefile geometry: its flat vertex list, the start offset of each
   * part (ring or polyline) in that list, and its precomputed box.
   */
  datatype Shape = Shape(points: seq<Point>, parts: seq<int>, bbox: BBox)

  /**
   * The selection test: strict inequalities on both axes, so a box that only
   * touches the query box along an edge or at a corner does not overlap it.
   */
  predicate Overlaps(box: BBox, query: BBox)
    ensures (box.xmax == query.xmin || box.xmin == query.xmax ||
             box.ymax == query.ymin || box.ymin == query.ymax) ==> !Overlaps(box, query)
  {
    box.xmin < query.xmax && box.xmax > query.xmin &&
    box.ymin < query.ymax && box.ymax > query.ymin
  }

  /** A box with positive width and height. */
  predicate Proper(b: BBox)
  {
    b.xmin < b.xmax && b.ymin < b.ymax
  }

  /** `p` lies in the open interior of `b`. */
  predicate StrictlyInside(p: Point, b: BBox)
  {
    b.xmin < p.x < b.xmax && b.ymin < p.y < b.ymax
  }

  function Max(a: real, b: real): real { if a < b then b else a }
  function Min(a: real, b: real): real { if a < b then a else b }

  /**
   * For boxes of positive area the test is exactly "the two open boxes share
   * a point": any positive overlap on both axes is kept, and nothing else is.
   */
  lemma OverlapsIffInteriorsMeet(box: BBox, query: BBox)
    requires Proper(box) && Proper(query)
    ensures Overlaps(box, query) <==> exists p :: StrictlyInside(p, box) && StrictlyInside(p, query)
  {
    if Overlaps(box, query) {
      var x := (Max(box.xmin, query.xmin) + Min(box.xmax, query.xmax)) / 2.0;
      var y := (Max(box.ymin, query.ymin) + Min(box.ymax, query.ymax)) / 2.0;
      var p := Point(x, y);
      assert StrictlyInside(p, box) && StrictlyInside(p, query);
    }
  }

  /** A box that shares only an edge or a corner with the query box is excluded. */
  lemma TouchingIsExcluded(box: BBox, query: BBox)
    requires box.xmax == query.xmin || box.xmin == query.xmax ||
             box.ymax == query.ymin || box.ymin == query.ymax
    ensures !Overlaps(box, query)
  {
  }

  /** The test does not depend on which of the two boxes is the query. */
  lemma OverlapsIsSymmetric(a: BBox, b: BBox)
    ensures Overlaps(a, b) == Overlaps(b, a)
  {
  }

  /**
   * The boundary cases: `[0,0,10,10]` against `[10,10,20,20]` only touches at
   * a corner and is excluded; against `[9,9,20,20]` it overlaps and is kept.
   */
  lemma BoundaryExamples()
    ensures !Overlaps(BBox(0.0, 0.0, 10.0, 10.0), BBox(10.0, 10.0, 20.0, 20.0))
    ensures Overlaps(BBox(0.0, 0.0, 10.0, 10.0), BBox(9.0, 9.0, 20.0, 20.0))
  {
  }
}
