/**
 * Rendering a selection of features: each shape is split into its parts, and
 * each part is drawn in the colour its record's classification selects, or
 * reported when the classification is not in the vocabulary. The drawing
 * surface and standard output are observed as one ordered trace of events.
 */
module Render {
  import opened Wrappers
  import opened PyList
  import opened Geometry
  import Loader
  import ShapeFilter

  /** The classification vocabulary, matched exactly and case-sensitively. */
  const IsolatedIsland: string := "Isolated island"
  const IceRise: string := "Ice rise or connected island"
  const GroundedIce: string := "Grounded ice or land"
  const IceShelf: string := "Ice shelf"

  /** The labels drawn in the grounded-ice colour, `colors[0]`. */
  const GroundedLabels: set<string> := {IsolatedIsland, IceRise, GroundedIce}

  /** The closed dispatch on a classification, with its explicit fallback. */
  datatype Category = Grounded | Shelf | Unrecognized

  function Categorize(classification: string): (c: Category)
    ensures c == Unrecognized <==> classification !in GroundedLabels && classification != IceShelf
  {
    if classification in GroundedLabels then Grounded
    else if classification == IceShelf then Shelf
    else Unrecognized
  }

  /**
   * One observable effect of rendering: a draw call on the axes (filled
   * polygon when `fill`, outline otherwise), or the diagnostic line printed
   * for a classification outside the vocabulary.
   */
  datatype Event = Draw(part: seq<Point>, color: string, fill: bool) | UnknownClassification(classification: string)

  /** The effect of rendering one part of a feature classified as `classification`. */
  function PartEvent(classification: string, part: seq<Point>, colors: seq<string>, fill: bool): (e: Event)
    requires |colors| >= 2
    ensures e.Draw? <==> classification in GroundedLabels || classification == IceShelf
    ensures e.Draw? ==> e.part == part && e.fill == fill && e.color in colors[..2]
    ensures e.UnknownClassification? ==> e.classification == classification
  {
    match Categorize(classification)
    case Grounded => Draw(part, colors[0], fill)
    case Shelf => Draw(part, colors[1], fill)
    case Unrecognized => UnknownClassification(classification)
  }

  /**
   * Boundary `i` of a shape: the list of part offsets with the number of
   * points appended, so the last part runs to the final point.
   */
  function Bound(shape: Shape, i: nat): (b: int)
    requires i <= |shape.parts|
    ensures i < |shape.parts| ==> b == shape.parts[i]
    ensures i == |shape.parts| ==> b == |shape.points|
  {
    (shape.parts + [|shape.points|])[i]
  }

  /** Part `i`: the Python slice of the points between boundaries `i` and `i + 1`. */
  function PartSlice(shape: Shape, i: nat): (part: seq<Point>)
    requires i < |shape.parts|
    ensures |part| <= |shape.points|
  {
    Slice(shape.points, Bound(shape, i), Bound(shape, i + 1))
  }

  /** All parts of a shape, one per offset. */
  function PartSlices(shape: Shape): (slices: seq<seq<Point>>)
    ensures |slices| == |shape.parts|
  {
    seq(|shape.parts|, i requires 0 <= i < |shape.parts| => PartSlice(shape, i))
  }

  /** The effects of rendering the first `m` of the given parts. */
  function SliceEvents(classification: string, slices: seq<seq<Point>>, colors: seq<string>, fill: bool, m: nat): (events: seq<Event>)
    requires |colors| >= 2 && m <= |slices|
    ensures |events| == m
  {
    if m == 0 then []
    else SliceEvents(classification, slices, colors, fill, m - 1) + [PartEvent(classification, slices[m - 1], colors, fill)]
  }

  /** The effects of rendering one feature classified as `classification`. */
  function ShapeEvents(classification: string, shape: Shape, colors: seq<string>, fill: bool): seq<Event>
    requires |colors| >= 2
  {
    SliceEvents(classification, PartSlices(shape), colors, fill, |shape.parts|)
  }

  /** What Python raises while resolving a record's classification. */
  datatype PlotError =
    | MissingField(name: string)                   // `field_names.index` raises ValueError
    | RecordIndexOutOfRange(index: nat, length: nat) // `record[...]` raises IndexError

  /** `record[field_names.index("Id_text")]`. */
  function Classification(record: seq<string>, fieldNames: seq<string>): (r: Result<string, PlotError>)
    ensures r.Failure? && r.error.MissingField? <==> Loader.ClassificationField !in fieldNames
    ensures r.Success? ==> r.value in record
  {
    match IndexOf(fieldNames, Loader.ClassificationField)
    case None => Failure(MissingField(Loader.ClassificationField))
    case Some(i) => if i < |record| then Success(record[i]) else Failure(RecordIndexOutOfRange(i, |record|))
  }

  /**
   * For a record of a loaded dataset (one value per field name), the
   * classification is the value under the first descriptor after the
   * deletion flag whose name is "Id_text".
   */
  lemma ClassificationOfLoadedRecord(fields: seq<Loader.FieldDescriptor>, record: seq<string>, j: nat)
    requires |record| == |Loader.FieldNames(fields)|
    requires 1 <= j < |fields| && fields[j].name == Loader.ClassificationField
    requires forall i :: 1 <= i < j ==> fields[i].name != Loader.ClassificationField
    ensures Classification(record, Loader.FieldNames(fields)) == Success(record[j - 1])
  {
    Loader.LookupSkipsDeletionFlag(fields, Loader.ClassificationField);
    var i := IndexOf(Loader.FieldNames(fields), Loader.ClassificationField).value;
    assert i + 1 == j;
  }

  /** Without an "Id_text" descriptor after the deletion flag, every lookup raises. */
  lemma ClassificationMissingFromLoadedFields(fields: seq<Loader.FieldDescriptor>, record: seq<string>)
    requires forall j :: 1 <= j < |fields| ==> fields[j].name != Loader.ClassificationField
    ensures Classification(record, Loader.FieldNames(fields)) == Failure(MissingField(Loader.ClassificationField))
  {
    Loader.LookupSkipsDeletionFlag(fields, Loader.ClassificationField);
  }

  /** The trace produced, and the error raised if any, by a rendering call. */
  datatype Plotted = Plotted(events: seq<Event>, error: Option<PlotError>)

  /**
   * Rendering the first `n` zipped pairs. An error ends the call; the effects
   * produced before it stay on the axes.
   */
  function PlotPrefix(records: seq<seq<string>>, shapes: seq<Shape>, fieldNames: seq<string>,
                      colors: seq<string>, fill: bool, n: nat): (p: Plotted)
    requires |colors| >= 2 && n <= |records| && n <= |shapes|
    ensures |p.events| <= TotalParts(shapes, n)
  {
    if n == 0 then Plotted([], None)
    else
      var before := PlotPrefix(records, shapes, fieldNames, colors, fill, n - 1);
      if before.error.Some? then before
      else match Classification(records[n - 1], fieldNames)
        case Failure(e) => Plotted(before.events, Some(e))
        case Success(classification) => Plotted(before.events + ShapeEvents(classification, shapes[n - 1], colors, fill), None)
  }

  /** What `plot_shapefile(records, shapes, ax, field_names, colors, fill)` does. */
  function Plot(records: seq<seq<string>>, shapes: seq<Shape>, fieldNames: seq<string>,
                colors: seq<string>, fill: bool): (p: Plotted)
    requires |colors| >= 2
    ensures ShapeFilter.Paired(records, shapes) == 0 ==> p == Plotted([], None)
    ensures |p.events| <= TotalParts(shapes, ShapeFilter.Paired(records, shapes))
  {
    PlotPrefix(records, shapes, fieldNames, colors, fill, ShapeFilter.Paired(records, shapes))
  }

  /** Once a call has raised, rendering more pairs changes nothing. */
  lemma {:induction false} ErrorEndsRendering(records: seq<seq<string>>, shapes: seq<Shape>, fieldNames: seq<string>,
                                              colors: seq<string>, fill: bool, m: nat, n: nat)
    requires |colors| >= 2 && m <= n <= |records| && n <= |shapes|
    requires PlotPrefix(records, shapes, fieldNames, colors, fill, m).error.Some?
    ensures PlotPrefix(records, shapes, fieldNames, colors, fill, n) == PlotPrefix(records, shapes, fieldNames, colors, fill, m)
  {
    if m < n {
      ErrorEndsRendering(records, shapes, fieldNames, colors, fill, m, n - 1);
    }
  }

  /** Rendering one more pair, after the earlier ones raised nothing. */
  lemma PlotPrefixStep(records: seq<seq<string>>, shapes: seq<Shape>, fieldNames: seq<string>,
                       colors: seq<string>, fill: bool, k: nat)
    requires |colors| >= 2 && k < |records| && k < |shapes|
    requires PlotPrefix(records, shapes, fieldNames, colors, fill, k).error.None?
    ensures var before := PlotPrefix(records, shapes, fieldNames, colors, fill, k).events;
      PlotPrefix(records, shapes, fieldNames, colors, fill, k + 1) ==
        match Classification(records[k], fieldNames)
        case Failure(e) => Plotted(before, Some(e))
        case Success(c) => Plotted(before + ShapeEvents(c, shapes[k], colors, fill), None)
  {
  }

  /**
   * The part loop of `plot_shapefile` for one feature: append the point count
   * to a copy of the part offsets and dispatch each slice between consecutive
   * boundaries, producing one effect per part.
   */
  method PlotParts(classification: string, shape: Shape, colors: seq<string>, fill: bool)
    returns (events: seq<Event>)
    requires |colors| >= 2
    ensures events == ShapeEvents(classification, shape, colors, fill)
  {
    events := [];
    var points := shape.points;
    var parts := shape.parts + [|points|];
    for i := 0 to |parts| - 1
      invariant events == SliceEvents(classification, PartSlices(shape), colors, fill, i)
    {
      var part := Slice(points, parts[i], parts[i + 1]);
      assert part == PartSlices(shape)[i];
      DispatchTable(classification, part, colors, fill);
      if classification == "Isolated island" || classification == "Ice rise or connected island" ||
         classification == "Grounded ice or land"
      {
        events := events + [Draw(part, colors[0], fill)];
      } else if classification == "Ice shelf" {
        events := events + [Draw(part, colors[1], fill)];
      } else {
        events := events + [UnknownClassification(classification)];
      }
    }
  }

  /**
   * The pair loop of `plot_shapefile`: per zipped pair, resolve the
   * classification (raising as Python does when it cannot) and render the
   * feature's parts, appending their effects to the trace.
   */
  method PlotShapefile(records: seq<seq<string>>, shapes: seq<Shape>, fieldNames: seq<string>,
                       colors: seq<string>, fill: bool)
    returns (trace: seq<Event>, error: Option<PlotError>)
    requires |colors| >= 2
    ensures Plotted(trace, error) == Plot(records, shapes, fieldNames, colors, fill)
  {
    trace, error := [], None;
    var n := ShapeFilter.Paired(records, shapes);
    for k := 0 to n
      invariant Plotted(trace, None) == PlotPrefix(records, shapes, fieldNames, colors, fill, k)
    {
      var record, shape := records[k], shapes[k];
      PlotPrefixStep(records, shapes, fieldNames, colors, fill, k);
      var column := IndexOf(fieldNames, Loader.ClassificationField);
      if column.None? {
        error := Some(MissingField(Loader.ClassificationField));
        ErrorEndsRendering(records, shapes, fieldNames, colors, fill, k + 1, n);
        return;
      }
      if column.value >= |record| {
        error := Some(RecordIndexOutOfRange(column.value, |record|));
        ErrorEndsRendering(records, shapes, fieldNames, colors, fill, k + 1, n);
        return;
      }
      var classification := record[column.value];
      var events := PlotParts(classification, shape, colors, fill);
      trace := trace + events;
    }
  }

  /** The effects of the first `m` parts: one per part, in part order. */
  lemma {:induction false} SliceEventsAt(classification: string, slices: seq<seq<Point>>, colors: seq<string>, fill: bool, m: nat)
    requires |colors| >= 2 && m <= |slices|
    ensures |SliceEvents(classification, slices, colors, fill, m)| == m
    ensures forall i :: 0 <= i < m ==>
      SliceEvents(classification, slices, colors, fill, m)[i] == PartEvent(classification, slices[i], colors, fill)
  {
    if m > 0 {
      SliceEventsAt(classification, slices, colors, fill, m - 1);
    }
  }

  /**
   * A feature yields exactly one effect per part offset, and effect `i`
   * dispatches the slice of the points between boundaries `i` and `i + 1`,
   * where the boundaries are the offsets followed by the point count.
   */
  lemma ShapeEventsPerPart(classification: string, shape: Shape, colors: seq<string>, fill: bool)
    requires |colors| >= 2
    ensures |ShapeEvents(classification, shape, colors, fill)| == |shape.parts|
    ensures forall i :: 0 <= i < |shape.parts| ==>
      ShapeEvents(classification, shape, colors, fill)[i] == PartEvent(classification, PartSlices(shape)[i], colors, fill)
  {
    SliceEventsAt(classification, PartSlices(shape), colors, fill, |shape.parts|);
  }

  /**
   * The dispatch table: the three grounded labels draw in `colors[0]`,
   * "Ice shelf" draws in `colors[1]`, any other label is reported and
   * nothing is drawn; `fill` selects the style of a draw and nothing else.
   */
  lemma DispatchTable(classification: string, part: seq<Point>, colors: seq<string>, fill: bool)
    requires |colors| >= 2
    ensures classification in GroundedLabels ==> PartEvent(classification, part, colors, fill) == Draw(part, colors[0], fill)
    ensures classification == IceShelf ==> PartEvent(classification, part, colors, fill) == Draw(part, colors[1], fill)
    ensures classification !in GroundedLabels && classification != IceShelf ==>
      PartEvent(classification, part, colors, fill) == UnknownClassification(classification)
  {
  }

  /**
   * An out-of-vocabulary classification draws nothing and reports itself once
   * per part, not once per feature.
   */
  lemma UnknownReportedOncePerPart(classification: string, shape: Shape, colors: seq<string>, fill: bool)
    requires |colors| >= 2
    requires classification !in GroundedLabels && classification != IceShelf
    ensures ShapeEvents(classification, shape, colors, fill) ==
      seq(|shape.parts|, i => UnknownClassification(classification))
  {
    ShapeEventsPerPart(classification, shape, colors, fill);
    assert Categorize(classification) == Unrecognized;
  }

  /** Offsets that lie within the points and never decrease. */
  predicate WellFormedParts(shape: Shape)
  {
    (forall i :: 0 <= i < |shape.parts| ==> 0 <= shape.parts[i] <= |shape.points|) &&
    (forall i, j :: 0 <= i <= j < |shape.parts| ==> shape.parts[i] <= shape.parts[j])
  }

  lemma BoundsOrdered(shape: Shape, i: nat, j: nat)
    requires WellFormedParts(shape) && i <= j <= |shape.parts|
    ensures 0 <= Bound(shape, i) <= Bound(shape, j) <= |shape.points|
  {
  }

  /** The concatenation of a list of parts. */
  function Flatten<T>(xss: seq<seq<T>>): seq<T>
  {
    if xss == [] then [] else Flatten(xss[..|xss| - 1]) + xss[|xss| - 1]
  }

  /** For well-formed offsets, part `i` is the points from boundary `i` up to boundary `i + 1`. */
  lemma PartSliceInRange(shape: Shape, i: nat)
    requires WellFormedParts(shape) && i < |shape.parts|
    ensures 0 <= Bound(shape, i) <= Bound(shape, i + 1) <= |shape.points|
    ensures PartSlice(shape, i) == shape.points[Bound(shape, i)..Bound(shape, i + 1)]
  {
    BoundsOrdered(shape, i, i + 1);
    SliceInRange(shape.points, Bound(shape, i), Bound(shape, i + 1));
  }

  lemma {:induction false} FlattenPrefix(shape: Shape, m: nat)
    requires WellFormedParts(shape) && m <= |shape.parts|
    ensures 0 <= Bound(shape, 0) <= Bound(shape, m) <= |shape.points|
    ensures Flatten(PartSlices(shape)[..m]) == shape.points[Bound(shape, 0)..Bound(shape, m)]
  {
    BoundsOrdered(shape, 0, m);
    if m > 0 {
      var slices := PartSlices(shape);
      FlattenPrefix(shape, m - 1);
      PartSliceInRange(shape, m - 1);
      assert slices[..m][..m - 1] == slices[..m - 1];
      var lo, mid, hi := Bound(shape, 0), Bound(shape, m - 1), Bound(shape, m);
      assert shape.points[lo..hi] == shape.points[lo..mid] + shape.points[mid..hi];
    }
  }

  /**
   * For well-formed offsets each part is exactly the points from its offset
   * up to the next boundary, and the parts laid end to end give back every
   * point from the first boundary on (all of them when the first offset is 0).
   */
  lemma PartSlicesPartitionPoints(shape: Shape)
    requires WellFormedParts(shape)
    ensures forall i :: 0 <= i < |shape.parts| ==>
      PartSlices(shape)[i] == shape.points[Bound(shape, i)..Bound(shape, i + 1)]
    ensures forall i :: 0 <= i < |shape.parts| ==>
      |PartSlices(shape)[i]| == Bound(shape, i + 1) - Bound(shape, i)
    ensures Flatten(PartSlices(shape)) == shape.points[Bound(shape, 0)..]
  {
    PartsAreRanges(shape);
    FlattenPrefix(shape, |shape.parts|);
    assert PartSlices(shape)[..|shape.parts|] == PartSlices(shape);
  }

  lemma PartsAreRanges(shape: Shape)
    requires WellFormedParts(shape)
    ensures forall i :: 0 <= i < |shape.parts| ==>
      PartSlices(shape)[i] == shape.points[Bound(shape, i)..Bound(shape, i + 1)]
  {
    forall i | 0 <= i < |shape.parts|
      ensures PartSlices(shape)[i] == shape.points[Bound(shape, i)..Bound(shape, i + 1)]
    {
      PartSliceInRange(shape, i);
    }
  }

  /** Nine points with offsets [0, 4] split into two parts of 4 and 5 points. */
  lemma SplitExample(points: seq<Point>, bbox: BBox)
    requires |points| == 9
    ensures var slices := PartSlices(Shape(points, [0, 4], bbox));
      |slices| == 2 && slices[0] == points[..4] && slices[1] == points[4..] &&
      |slices[0]| == 4 && |slices[1]| == 5
  {
    var shape := Shape(points, [0, 4], bbox);
    PartSliceInRange(shape, 0);
    PartSliceInRange(shape, 1);
  }

  /** `e` with its fill flag set to `fill` (a diagnostic has none). */
  function Restyled(e: Event, fill: bool): Event
  {
    if e.Draw? then e.(fill := fill) else e
  }

  lemma {:induction false} ShapeEventsRestyled(classification: string, shape: Shape, colors: seq<string>, fill: bool, other: bool)
    requires |colors| >= 2
    ensures var t, u := ShapeEvents(classification, shape, colors, fill), ShapeEvents(classification, shape, colors, other);
      |t| == |u| && forall i :: 0 <= i < |t| ==> t[i] == Restyled(u[i], fill)
  {
    ShapeEventsPerPart(classification, shape, colors, fill);
    ShapeEventsPerPart(classification, shape, colors, other);
  }

  /**
   * The `fill` flag chooses filled polygon or outline and nothing else: the
   * same parts are drawn, in the same colours and order, the same diagnostics
   * are printed and the same error is raised.
   */
  lemma {:induction false} FillOnlyChangesStyle(records: seq<seq<string>>, shapes: seq<Shape>, fieldNames: seq<string>,
                                                colors: seq<string>, fill: bool, other: bool, n: nat)
    requires |colors| >= 2 && n <= |records| && n <= |shapes|
    ensures var t, u := PlotPrefix(records, shapes, fieldNames, colors, fill, n),
                        PlotPrefix(records, shapes, fieldNames, colors, other, n);
      t.error == u.error && |t.events| == |u.events| &&
      forall i :: 0 <= i < |t.events| ==> t.events[i] == Restyled(u.events[i], fill)
  {
    if n > 0 {
      FillOnlyChangesStyle(records, shapes, fieldNames, colors, fill, other, n - 1);
      var t, u := PlotPrefix(records, shapes, fieldNames, colors, fill, n - 1),
                  PlotPrefix(records, shapes, fieldNames, colors, other, n - 1);
      if t.error.None? && Classification(records[n - 1], fieldNames).Success? {
        var classification := Classification(records[n - 1], fieldNames).value;
        ShapeEventsRestyled(classification, shapes[n - 1], colors, fill, other);
      }
    }
  }

  /**
   * A call raises exactly when some zipped record cannot be classified: the
   * field names lack "Id_text", or the record is too short for its index.
   * With no pairs at all nothing is looked up and nothing is raised.
   */
  lemma {:induction false} PlotRaisesIff(records: seq<seq<string>>, shapes: seq<Shape>, fieldNames: seq<string>,
                                         colors: seq<string>, fill: bool, n: nat)
    requires |colors| >= 2 && n <= |records| && n <= |shapes|
    ensures PlotPrefix(records, shapes, fieldNames, colors, fill, n).error.None? <==>
            forall k :: 0 <= k < n ==> Classification(records[k], fieldNames).Success?
  {
    if n > 0 {
      PlotRaisesIff(records, shapes, fieldNames, colors, fill, n - 1);
    }
  }

  /**
   * Without an "Id_text" field the first pair raises before anything is
   * drawn or printed.
   */
  lemma MissingFieldRaisesFirst(records: seq<seq<string>>, shapes: seq<Shape>, fieldNames: seq<string>,
                                colors: seq<string>, fill: bool)
    requires |colors| >= 2 && Loader.ClassificationField !in fieldNames
    ensures ShapeFilter.Paired(records, shapes) > 0 ==>
      Plot(records, shapes, fieldNames, colors, fill) == Plotted([], Some(MissingField(Loader.ClassificationField)))
    ensures ShapeFilter.Paired(records, shapes) == 0 ==>
      Plot(records, shapes, fieldNames, colors, fill) == Plotted([], None)
  {
    var n := ShapeFilter.Paired(records, shapes);
    if n > 0 {
      ErrorEndsRendering(records, shapes, fieldNames, colors, fill, 1, n);
    }
  }

  /** The number of parts among the first `n` shapes. */
  function TotalParts(shapes: seq<Shape>, n: nat): nat
    requires n <= |shapes|
  {
    if n == 0 then 0 else TotalParts(shapes, n - 1) + |shapes[n - 1].parts|
  }

  /** A call that does not raise produces exactly one effect per part of every zipped shape. */
  lemma {:induction false} OneEffectPerPart(records: seq<seq<string>>, shapes: seq<Shape>, fieldNames: seq<string>,
                                            colors: seq<string>, fill: bool, n: nat)
    requires |colors| >= 2 && n <= |records| && n <= |shapes|
    ensures var p := PlotPrefix(records, shapes, fieldNames, colors, fill, n);
      p.error.None? ==> |p.events| == TotalParts(shapes, n)
  {
    if n > 0 {
      OneEffectPerPart(records, shapes, fieldNames, colors, fill, n - 1);
      if Classification(records[n - 1], fieldNames).Success? {
        ShapeEventsPerPart(Classification(records[n - 1], fieldNames).value, shapes[n - 1], colors, fill);
      }
    }
  }

  /** A shape with the single offset 0 is drawn (or reported) as one part holding all its points. */
  lemma SinglePartShape(classification: string, shape: Shape, colors: seq<string>, fill: bool)
    requires |colors| >= 2 && shape.parts == [0]
    ensures ShapeEvents(classification, shape, colors, fill) == [PartEvent(classification, shape.points, colors, fill)]
  {
    PartSliceInRange(shape, 0);
    assert shape.points[0..|shape.points|] == shape.points;
    assert PartSlices(shape) == [shape.points];
    assert SliceEvents(classification, [shape.points], colors, fill, 1) ==
           [PartEvent(classification, shape.points, colors, fill)];
  }

  /**
   * Four single-part features classified "Ice shelf", "Grounded ice or land",
   * "Isolated island" and "Unknown Type": three parts are drawn (the shelf
   * colour once, the grounded colour twice), one diagnostic is printed, and
   * nothing is raised.
   */
  lemma DispatchExample(p0: seq<Point>, p1: seq<Point>, p2: seq<Point>, p3: seq<Point>, box: BBox,
                        colors: seq<string>, fill: bool)
    requires |colors| == 2
    ensures var records := [["Ice shelf"], ["Grounded ice or land"], ["Isolated island"], ["Unknown Type"]];
      var shapes := [Shape(p0, [0], box), Shape(p1, [0], box), Shape(p2, [0], box), Shape(p3, [0], box)];
      Plot(records, shapes, [Loader.ClassificationField], colors, fill) ==
        Plotted([Draw(p0, colors[1], fill), Draw(p1, colors[0], fill), Draw(p2, colors[0], fill),
                 UnknownClassification("Unknown Type")], None)
  {
    var records := [["Ice shelf"], ["Grounded ice or land"], ["Isolated island"], ["Unknown Type"]];
    var shapes := [Shape(p0, [0], box), Shape(p1, [0], box), Shape(p2, [0], box), Shape(p3, [0], box)];
    var names := [Loader.ClassificationField];
    var e0, e1, e2, e3 := Draw(p0, colors[1], fill), Draw(p1, colors[0], fill), Draw(p2, colors[0], fill),
                          UnknownClassification("Unknown Type");
    assert IndexOf(names, Loader.ClassificationField) == Some(0);

    assert Classification(records[0], names) == Success("Ice shelf");
    SinglePartShape("Ice shelf", shapes[0], colors, fill);
    assert Categorize("Ice shelf") == Shelf;
    PlotPrefixStep(records, shapes, names, colors, fill, 0);
    assert PlotPrefix(records, shapes, names, colors, fill, 1) == Plotted([e0], None);

    assert Classification(records[1], names) == Success("Grounded ice or land");
    SinglePartShape("Grounded ice or land", shapes[1], colors, fill);
    assert Categorize("Grounded ice or land") == Grounded;
    PlotPrefixStep(records, shapes, names, colors, fill, 1);
    assert PlotPrefix(records, shapes, names, colors, fill, 2) == Plotted([e0, e1], None);

    assert Classification(records[2], names) == Success("Isolated island");
    SinglePartShape("Isolated island", shapes[2], colors, fill);
    assert Categorize("Isolated island") == Grounded;
    PlotPrefixStep(records, shapes, names, colors, fill, 2);
    assert PlotPrefix(records, shapes, names, colors, fill, 3) == Plotted([e0, e1, e2], None);

    assert Classification(records[3], names) == Success("Unknown Type");
    SinglePartShape("Unknown Type", shapes[3], colors, fill);
    assert Categorize("Unknown Type") == Unrecognized;
    PlotPrefixStep(records, shapes, names, colors, fill, 3);
    assert PlotPrefix(records, shapes, names, colors, fill, 4) == Plotted([e0, e1, e2, e3], None);
  }
}
