# Grounding-line shapefile helpers, modelled in Dafny

This project models the logic of `src/util/plotting_helpers.py`, the helper
module that loads the Scripps Antarctic grounding-line shapefile, keeps the
features whose bounding box overlaps a query box in the PS71
polar-stereographic plane, and draws each kept feature's parts in a colour
chosen by its classification ("Isolated island", "Ice rise or connected
island", "Grounded ice or land" in the grounded colour, "Ice shelf" in the
shelf colour, anything else reported and skipped).

Modules, one per concern of the helper file:

- `Wrappers` (wrappers.dfy): `Option` and `Result`.
- `PyList` (pylist.dfy): the two built-in list operations the helpers use,
  `list.index` (first occurrence, `None` where Python raises `ValueError`)
  and the step-1 slice `xs[lo:hi]` (negative bounds count from the end,
  bounds are clamped, crossed bounds give an empty list).
- `Geometry` (geometry.dfy): points, boxes `[xmin, ymin, xmax, ymax]`,
  shapes (points, part offsets, box) and the strict overlap test.
- `Loader` (loader.dfy): the field-name projection of `load_shapefile`.
- `ShapeFilter` (shape_filter.dfy): `filter_shapefile` as a loop that
  appends to two lists, proved equal to a specification function `Filter`,
  whose properties are proved as lemmas.
- `Render` (render.dfy): the part-splitting and classification loops of
  `plot_shapefile` as two methods that append to a trace of events (the
  loop over pairs, and the loop over one feature's parts), proved equal to
  the specification functions `Plot` and `ShapeEvents`. The drawing surface and
  standard output are observed as one ordered trace: `Draw(part, color,
  fill)` for each `ax.fill`/`ax.plot` call and `UnknownClassification(c)` for
  each diagnostic line. The errors Python raises while resolving a
  classification (`ValueError` from `field_names.index`, `IndexError` from
  the record subscript) end the call and are returned beside the trace of
  what was already drawn.

In three places the model follows the code where one might expect otherwise:

- Records and shapes are walked with `zip`, so unequal lists are truncated
  to the shorter one rather than assumed equal in length.
- The classification column is looked up inside the loop, once per pair. A
  missing "Id_text" field therefore raises on the first pair, but a call
  with no pairs raises nothing.
- `fields[1:]` on an empty descriptor list gives no names, so the length of
  the field names is `max(0, len(fields) - 1)`.

## Model

| member | source | states |
|---|---|---|
| `PyList.IndexOf` | src/util/plotting_helpers.py:97 | `list.index`: `None` exactly when the key is absent; otherwise an in-range position holding the key with no earlier occurrence |
| `PyList.Slice` | src/util/plotting_helpers.py:104 | definition of `xs[lo:hi]`: never longer than the list, and with bounds inside the list exactly `hi - lo` elements (none when they cross); `SliceInRange` and `SliceIsContiguous` carry the rest |
| `PyList.SliceBound` | src/util/plotting_helpers.py:104 | a slice bound normalised against the list length never exceeds it, and an in-range bound is unchanged |
| `PyList.SliceInRange` | src/util/plotting_helpers.py:104 | with in-range bounds a Python slice is the subsequence between them, and crossed bounds give the empty list instead of an error |
| `PyList.SliceIsContiguous` | src/util/plotting_helpers.py:104 | whatever the bounds, a slice is one contiguous run of the list starting at the normalised lower bound |
| `Geometry.Overlaps` | src/util/plotting_helpers.py:59-64 | definition of the four strict comparisons; its contract excludes any box sharing an edge or corner coordinate with the query, and `OverlapsIffInteriorsMeet` characterises it |
| `Geometry.OverlapsIffInteriorsMeet` | src/util/plotting_helpers.py:59-64 | for boxes of positive area the four strict comparisons hold exactly when some point lies strictly inside both boxes |
| `Geometry.TouchingIsExcluded` | src/util/plotting_helpers.py:60-63 | a box sharing only an edge or corner coordinate with the query box fails the test |
| `Geometry.OverlapsIsSymmetric` | src/util/plotting_helpers.py:59-64 | swapping the feature box and the query box does not change the test |
| `Geometry.BoundaryExamples` | src/util/plotting_helpers.py:59-64 | `[0,0,10,10]` fails against `[10,10,20,20]` (corner contact) and passes against `[9,9,20,20]` |
| `Loader.Names` | src/util/plotting_helpers.py:30 | the projection keeps one name per descriptor, in order, each the descriptor's first element |
| `Loader.FieldNames` | src/util/plotting_helpers.py:29-30 | the field names have one entry fewer than the descriptors (none for an empty list) and name `i` is descriptor `i + 1`'s name |
| `Loader.LookupSkipsDeletionFlag` | src/util/plotting_helpers.py:29-30 | a name is found among the field names iff a descriptor after the deletion flag has it, and the lookup lands on the first such descriptor |
| `ShapeFilter.Paired` | src/util/plotting_helpers.py:56 | `zip` yields as many pairs as the shorter list has elements |
| `ShapeFilter.FilterPrefix` | src/util/plotting_helpers.py:54-66 | the two accumulated lists always have equal length, at most the number of pairs visited |
| `ShapeFilter.Filter` | src/util/plotting_helpers.py:38-68 | definition of what `filter_shapefile` returns: the selection from all zipped pairs, two lists of equal length at most the shorter input; `FilterIsOrderedSelection`, `FilterKeepsExactlyOverlappingPairs` and `FilterIsIdempotent` carry its properties |
| `ShapeFilter.Survivors` | src/util/plotting_helpers.py:56-66 | reference selection: strictly increasing positions below `n`, containing a position iff its shape's box overlaps the query |
| `ShapeFilter.FilterShapefile` | src/util/plotting_helpers.py:38-68 | the loop with two `append`s returns exactly the selection `Filter` specifies |
| `ShapeFilter.FilterPrefixPicksSurvivors` | src/util/plotting_helpers.py:54-66 | entry `j` of both accumulated lists is the record and the shape at the `j`-th surviving position |
| `ShapeFilter.FilterIsOrderedSelection` | src/util/plotting_helpers.py:54-68 | the output lists have equal length, at most the shorter input, and are the pairs at the overlapping positions, in input order, each once |
| `ShapeFilter.FilterKeepsExactlyOverlappingPairs` | src/util/plotting_helpers.py:56-66 | a (record, shape) pair appears aligned in the output iff it is a zipped input pair whose shape box overlaps the query |
| `ShapeFilter.FilterPrefixKeepsOverlapping` | src/util/plotting_helpers.py:56-66 | when every visited shape overlaps, the selection is the whole visited prefix of both lists |
| `ShapeFilter.FilterIsIdempotent` | src/util/plotting_helpers.py:56-66 | filtering the output again with the same box returns it unchanged |
| `ShapeFilter.BoundaryPolicyExamples` | src/util/plotting_helpers.py:59-66 | a feature touching the query only at a corner is dropped; one overlapping by a positive amount is kept with its record |
| `Render.Bound` | src/util/plotting_helpers.py:99-102 | definition of the boundary list `parts + [len(points)]`: entry `i` is offset `i`, the last entry the point count |
| `Render.PartSlice` | src/util/plotting_helpers.py:104 | definition of part `i` as the Python slice between boundaries `i` and `i + 1`, never longer than the points; `PartSliceInRange` gives its content |
| `Render.PartSlices` | src/util/plotting_helpers.py:99-104 | a shape yields one slice per part offset |
| `Render.BoundsOrdered` | src/util/plotting_helpers.py:99-102 | for well-formed offsets the boundary list (offsets, then the point count) is non-decreasing within the points |
| `Render.PartSliceInRange` | src/util/plotting_helpers.py:103-104 | for well-formed offsets part `i` is exactly the points between boundaries `i` and `i + 1` |
| `Render.PartsAreRanges` | src/util/plotting_helpers.py:103-104 | for well-formed offsets every part is the points between its two boundaries |
| `Render.FlattenPrefix` | src/util/plotting_helpers.py:103-104 | the first `m` parts laid end to end are the points from the first boundary up to boundary `m` |
| `Render.PartSlicesPartitionPoints` | src/util/plotting_helpers.py:99-104 | for well-formed offsets each part is its range of points, its length is the boundary difference, and the parts concatenate to every point from the first offset on |
| `Render.SplitExample` | src/util/plotting_helpers.py:99-104 | nine points with offsets `[0, 4]` split into the first 4 and the last 5 points |
| `Render.SinglePartShape` | src/util/plotting_helpers.py:99-104 | a shape with the single offset 0 produces one effect for all of its points |
| `Render.Categorize` | src/util/plotting_helpers.py:105-120 | definition of the closed dispatch: a label is unrecognised exactly when it is neither a grounded label nor "Ice shelf" |
| `Render.PartEvent` | src/util/plotting_helpers.py:105-120 | definition of one part's effect: a draw of that part with the given fill in one of the first two colours exactly for the four known labels, otherwise a diagnostic naming the label; `DispatchTable` gives the colour per label |
| `Render.SliceEvents` | src/util/plotting_helpers.py:103-120 | the first `m` parts produce exactly `m` effects |
| `Render.SliceEventsAt` | src/util/plotting_helpers.py:103-120 | the first `m` parts produce `m` effects, effect `i` being the dispatch of part `i` |
| `Render.ShapeEventsPerPart` | src/util/plotting_helpers.py:99-120 | a feature produces exactly one effect per part offset, effect `i` dispatching slice `i` |
| `Render.DispatchTable` | src/util/plotting_helpers.py:105-120 | the three grounded labels draw in `colors[0]`, "Ice shelf" in `colors[1]`, any other label is reported and draws nothing |
| `Render.UnknownReportedOncePerPart` | src/util/plotting_helpers.py:103-120 | an out-of-vocabulary classification yields one diagnostic per part and no draw |
| `Render.ShapeEventsRestyled` | src/util/plotting_helpers.py:110-118 | for one feature, switching `fill` changes only the fill flag of each draw |
| `Render.FillOnlyChangesStyle` | src/util/plotting_helpers.py:105-118 | for a whole call, `fill` changes only the style of each draw: same parts, colours, order, diagnostics and error |
| `Render.ClassificationOfLoadedRecord` | src/util/plotting_helpers.py:97 | with loaded field names, the classification is the record value under the first "Id_text" descriptor after the deletion flag |
| `Render.ClassificationMissingFromLoadedFields` | src/util/plotting_helpers.py:97 | with no "Id_text" descriptor after the deletion flag, the lookup raises the missing-field error |
| `Render.Classification` | src/util/plotting_helpers.py:97 | definition of `record[field_names.index("Id_text")]`: the missing-field error exactly when "Id_text" is not a field name, and on success a value of the record; `ClassificationOfLoadedRecord` pins down which value |
| `Render.PlotPrefix` | src/util/plotting_helpers.py:96-120 | definition of rendering the first `n` pairs, stopping at the first error; never more effects than those shapes have parts. `ErrorEndsRendering`, `PlotRaisesIff`, `OneEffectPerPart` and `FillOnlyChangesStyle` carry its properties |
| `Render.Plot` | src/util/plotting_helpers.py:96-120 | definition of a whole `plot_shapefile` call: with no zipped pairs an empty trace and no error, otherwise at most one effect per part |
| `Render.ErrorEndsRendering` | src/util/plotting_helpers.py:96-97 | once a pair has raised, later pairs change neither the trace nor the error |
| `Render.PlotParts` | src/util/plotting_helpers.py:98-120 | the part loop over `parts + [len(points)]` with the inline if-chain produces exactly the feature's effects `ShapeEvents` |
| `Render.PlotShapefile` | src/util/plotting_helpers.py:71-120 | the pair loop, resolving each classification and rendering each feature's parts, produces exactly the trace and error that `Plot` specifies |
| `Render.PlotRaisesIff` | src/util/plotting_helpers.py:96-97 | a call raises iff some zipped record cannot be classified; with no pairs nothing is raised |
| `Render.MissingFieldRaisesFirst` | src/util/plotting_helpers.py:96-97 | without "Id_text" the first pair raises before anything is drawn, and a call with no pairs succeeds with an empty trace |
| `Render.OneEffectPerPart` | src/util/plotting_helpers.py:96-120 | a call that does not raise produces as many effects as the zipped shapes have parts |
| `Render.DispatchExample` | src/util/plotting_helpers.py:96-120 | four single-part features "Ice shelf", "Grounded ice or land", "Isolated island", "Unknown Type" give a shelf draw, two grounded draws and one diagnostic, and no error |

## Left out

- Reading the dataset (`shapefile.Reader`, `sf.fields`, `sf.records()`, `sf.shapes()`) is file I/O through a library that is not part of this model; the descriptors, records and shapes are inputs, and `load_shapefile` is modelled only by its field-name projection.
- `plot_inset` is not modelled: it creates a cartopy stereographic axis, hides spines and ticks and adds a matplotlib rectangle, all plotting-library calls.
- The matplotlib calls `ax.fill` and `ax.plot` are observed only as `Draw` events; line width and stacking order (`zorder`) are not modelled, and the `print` call only as an `UnknownClassification` event.
- Coordinates are `real`: floating-point rounding and NaN (for which every comparison is false) are not modelled.
- Records are lists of strings; a record value of another type (a number, a date) is not modelled.
- Boxes are four-field values, so a malformed box list cannot be expressed. With fewer than four floats Python may raise `IndexError`, but only when the short-circuiting `and` chain reaches the missing entry; a 3-entry query box against a shape whose `xmin >= bbox[2]` returns without error.
- Render.PlotShapefile: requires at least two colours, as the docstring demands; with fewer, Python raises `IndexError` only when a part actually needs the missing colour, and that path is not modelled.
