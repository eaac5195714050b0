/**
 * Selecting the features of a shapefile whose bounding box overlaps a query
 * box. Records and shapes travel as two index-aligned lists, walked in step
 * as Python's `zip` does, so only the common prefix of the two is visited.
 */
module ShapeFilter {
  import opened Geometry

  /** The two filtered lists, records and shapes, that the filter returns together. */
  datatype Selection<R> = Selection(records: seq<R>, shapes: seq<Shape>)

  /** How many pairs `zip(records, shapes)` yields: the shorter length. */
  function Paired<R>(records: seq<R>, shapes: seq<Shape>): (n: nat)
    ensures n <= |records| && n <= |shapes|
    ensures n == |records| || n == |shapes|
  {
    if |records| < |shapes| then |records| else |shapes|
  }

  /** The selection made from the first `n` pairs. */
  function FilterPrefix<R>(records: seq<R>, shapes: seq<Shape>, bbox: BBox, n: nat): (s: Selection<R>)
    requires n <= Paired(records, shapes)
    ensures |s.records| == |s.shapes| <= n
  {
    if n == 0 then Selection([], [])
    else
      var s := FilterPrefix(records, shapes, bbox, n - 1);
      if Overlaps(shapes[n - 1].bbox, bbox)
      then Selection(s.records + [records[n - 1]], s.shapes + [shapes[n - 1]])
      else s
  }

  /** What `filter_shapefile(records, shapes, bbox)` returns. */
  function Filter<R>(records: seq<R>, shapes: seq<Shape>, bbox: BBox): (s: Selection<R>)
    ensures |s.records| == |s.shapes| <= Paired(records, shapes)
  {
    FilterPrefix(records, shapes, bbox, Paired(records, shapes))
  }

  /**
   * The reference selection: the positions among the first `n` whose shape
   * overlaps the query box, in increasing order, each once.
   */
  function Survivors(shapes: seq<Shape>, bbox: BBox, n: nat): (ix: seq<nat>)
    requires n <= |shapes|
    ensures forall j :: 0 <= j < |ix| ==> ix[j] < n
    ensures forall j, k :: 0 <= j < k < |ix| ==> ix[j] < ix[k]
    ensures forall i :: 0 <= i < n ==> (i in ix <==> Overlaps(shapes[i].bbox, bbox))
  {
    if n == 0 then []
    else
      var ix := Survivors(shapes, bbox, n - 1);
      if Overlaps(shapes[n - 1].bbox, bbox) then ix + [n - 1] else ix
  }

  /** The loop of `filter_shapefile`: both output lists grow by `append`, in step. */
  method FilterShapefile<R>(records: seq<R>, shapes: seq<Shape>, bbox: BBox)
    returns (filteredRecords: seq<R>, filteredShapes: seq<Shape>)
    ensures Selection(filteredRecords, filteredShapes) == Filter(records, shapes, bbox)
  {
    filteredRecords, filteredShapes := [], [];
    var n := Paired(records, shapes);
    for k := 0 to n
      invariant Selection(filteredRecords, filteredShapes) == FilterPrefix(records, shapes, bbox, k)
    {
      var record, shape := records[k], shapes[k];
      var shapeBox := shape.bbox;
      if shapeBox.xmin < bbox.xmax && shapeBox.xmax > bbox.xmin &&
         shapeBox.ymin < bbox.ymax && shapeBox.ymax > bbox.ymin
      {
        filteredRecords := filteredRecords + [record];
        filteredShapes := filteredShapes + [shape];
      }
    }
  }

  /** The selection from `n` pairs is the pairs at the surviving positions, in order. */
  lemma {:induction false} FilterPrefixPicksSurvivors<R>(records: seq<R>, shapes: seq<Shape>, bbox: BBox, n: nat)
    requires n <= Paired(records, shapes)
    ensures var s, ix := FilterPrefix(records, shapes, bbox, n), Survivors(shapes, bbox, n);
      |s.records| == |ix| &&
      forall j :: 0 <= j < |ix| ==> s.records[j] == records[ix[j]] && s.shapes[j] == shapes[ix[j]]
  {
    if n > 0 {
      FilterPrefixPicksSurvivors(records, shapes, bbox, n - 1);
    }
  }

  /**
   * The filter's output is an order-preserving, duplicate-free selection of
   * the zipped input pairs, keeping exactly those whose shape overlaps the
   * query box: the two lists have equal length, at most the shorter input,
   * and entry `j` of both comes from the same input position `ix[j]`.
   */
  lemma FilterIsOrderedSelection<R>(records: seq<R>, shapes: seq<Shape>, bbox: BBox)
    ensures var f, n, ix := Filter(records, shapes, bbox), Paired(records, shapes), Survivors(shapes, bbox, Paired(records, shapes));
      |f.records| == |f.shapes| == |ix| <= n &&
      (forall j, k :: 0 <= j < k < |ix| ==> ix[j] < ix[k]) &&
      (forall i :: 0 <= i < n ==> (i in ix <==> Overlaps(shapes[i].bbox, bbox))) &&
      (forall j :: 0 <= j < |ix| ==> ix[j] < n && f.records[j] == records[ix[j]] && f.shapes[j] == shapes[ix[j]])
  {
    FilterPrefixPicksSurvivors(records, shapes, bbox, Paired(records, shapes));
  }

  /**
   * A (record, shape) pair appears, aligned, in the output if and only if it
   * is one of the zipped input pairs and the shape's box overlaps the query.
   */
  lemma FilterKeepsExactlyOverlappingPairs<R>(records: seq<R>, shapes: seq<Shape>, bbox: BBox, r: R, s: Shape)
    ensures var f := Filter(records, shapes, bbox);
      (exists j :: 0 <= j < |f.records| && f.records[j] == r && f.shapes[j] == s) <==>
      (exists i :: 0 <= i < Paired(records, shapes) && records[i] == r && shapes[i] == s && Overlaps(s.bbox, bbox))
  {
    var f, n, ix := Filter(records, shapes, bbox), Paired(records, shapes), Survivors(shapes, bbox, Paired(records, shapes));
    FilterIsOrderedSelection(records, shapes, bbox);
    if exists j :: 0 <= j < |f.records| && f.records[j] == r && f.shapes[j] == s {
      var j :| 0 <= j < |f.records| && f.records[j] == r && f.shapes[j] == s;
      assert ix[j] in ix;
      assert records[ix[j]] == r && shapes[ix[j]] == s && Overlaps(s.bbox, bbox);
    }
    if exists i :: 0 <= i < n && records[i] == r && shapes[i] == s && Overlaps(s.bbox, bbox) {
      var i :| 0 <= i < n && records[i] == r && shapes[i] == s && Overlaps(s.bbox, bbox);
      assert i in ix;
      var j :| 0 <= j < |ix| && ix[j] == i;
      assert f.records[j] == r && f.shapes[j] == s;
    }
  }

  /** When every zipped shape overlaps, the first `n` pairs all survive. */
  lemma {:induction false} FilterPrefixKeepsOverlapping<R>(records: seq<R>, shapes: seq<Shape>, bbox: BBox, n: nat)
    requires n <= Paired(records, shapes)
    requires forall i :: 0 <= i < n ==> Overlaps(shapes[i].bbox, bbox)
    ensures FilterPrefix(records, shapes, bbox, n) == Selection(records[..n], shapes[..n])
  {
    if n > 0 {
      FilterPrefixKeepsOverlapping(records, shapes, bbox, n - 1);
      assert records[..n] == records[..n - 1] + [records[n - 1]];
      assert shapes[..n] == shapes[..n - 1] + [shapes[n - 1]];
    }
  }

  /** Filtering the filter's output with the same box changes nothing. */
  lemma FilterIsIdempotent<R>(records: seq<R>, shapes: seq<Shape>, bbox: BBox)
    ensures var f := Filter(records, shapes, bbox);
      Filter(f.records, f.shapes, bbox) == f
  {
    var f := Filter(records, shapes, bbox);
    FilterIsOrderedSelection(records, shapes, bbox);
    var ix := Survivors(shapes, bbox, Paired(records, shapes));
    forall j | 0 <= j < |f.shapes| ensures Overlaps(f.shapes[j].bbox, bbox) {
      assert ix[j] in ix;
    }
    FilterPrefixKeepsOverlapping(f.records, f.shapes, bbox, |f.shapes|);
    assert f.records[..|f.records|] == f.records;
    assert f.shapes[..|f.shapes|] == f.shapes;
  }

  /**
   * The boundary policy on whole features: a shape whose box only touches the
   * query box at a corner is dropped; one overlapping by a positive amount is kept.
   */
  lemma BoundaryPolicyExamples<R>(r: R, points: seq<Point>, parts: seq<int>)
    ensures var shape := Shape(points, parts, BBox(0.0, 0.0, 10.0, 10.0));
      Filter([r], [shape], BBox(10.0, 10.0, 20.0, 20.0)) == Selection([], []) &&
      Filter([r], [shape], BBox(9.0, 9.0, 20.0, 20.0)) == Selection([r], [shape])
  {
  }
}
