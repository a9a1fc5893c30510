# demakein core in Dafny

demakein designs woodwind instruments and makes them. A designer turns a
few bore parameters into a state vector. An optimiser searches that vector
under a constraint score. The maker then cuts the finished bore into
jointed pieces, packs them onto stock, and turns each piece into mill
toolpaths. This project models the parts of that pipeline that can be
stated exactly, with one Dafny module per source file.

- `Design`, `Instruments` (demakein/design.py): note names and semitones,
  `low_high`, the layout of the state vector, the constraint score, the
  event and action ordering of `Instrument.prepare`, and the chord step and
  fallback of the resonance search.
- `Optimize` (demakein/optimize.py): the affine recombination of
  `make_update`, with its random draws as inputs, and the serial path of
  `improve`.
- `Profiles` (demakein/profile.py): piecewise-linear bore profiles,
  covering evaluation, reversal, moving, joining, clipping, stepping,
  `morph` and `make_profile`.
- `Legion` (demakein/legion.py): `chunk`, `interleave`, and the
  coordinator's core accounting, mail and reference-counted futures.
  `Future_reference` is modelled too.
- `Selection` (demakein/selection.py): the tag-selection expression
  parser, `select_and_sort` and `weight`.
- `Config` (demakein/config.py): flag extraction, command splitting,
  booleans, shell names, file-name sanitising and section parsing.
- `Geom` (demakein/geom.py): vectors and S-basis polynomials on reals.
- `Shape` (demakein/shape.py): polygon loops, object naming, and the index
  layout of extruded meshes.
- `Mask` (demakein/mask.py): offset boolean bitmaps, their algebra,
  run-length morphology and `make_mask`.
- `Packing` (demakein/pack.py): `plan_segments`, the `Pack` class and the
  bollard worklist of `render`.
- `Make` (demakein/make.py): cut placement, mirroring, socket windows,
  pieces, and the cut fractions handed to the milling planner.
- `DesignShawm` (demakein/design_shawm.py): the shawm's bore tables.
- `Cgal` (demakein/cgal.py): rounding, transforms, extents, and the vertex
  merging and triangle filtering done before a mesh is built.
- `Svg` (demakein/svg.py): the bounding box and command list of the
  drawing surface.
- `Workspace` (demakein/workspace.py): relative-path arithmetic.
- `MillPath` (mill/path.py): line and disc rasterisation, dilate and
  erode, and the `Miller` toolpath builder.
- `Send` (mill/send.py): shifting a command file by an offset.
- `Decode` (mill/old/decode.py): the command emitter `Mover`, the
  construction and bounds of an `Action`, and the greedy action
  reordering.
- `RasterOld` (mill/old/raster-old.py): offset slices, 3-D lines, the
  `Searcher` and the path builder `Raster.move_to`.
- `Art` (mill/old/art.py): the squared distance transform.

`Common` holds the shared helpers: Python's int(), str() and split/join,
sums, and Option and Result.

Floats are modelled as `real` wherever the code only adds, subtracts,
multiplies, divides and compares. Code that floors or rounds uses `int`,
with Python's rounding written out. Stateful objects are classes whose
methods name what they modify: `Coordinator`, `FutureReference`, `Pack`,
`Miller`, `Mover`, `Searcher`, `Raster`, `SVG`, `NameCounter`, `Tool` and
`Instrument`. In-place loops are methods proved against specification
functions.

## Model

| member | source | states |
|---|---|---|
| Art.ReachFirst | mill/old/art.py:20-24 | the inner loop of `_upscan` goes on exactly while f[i-j] >= f[i] + j², and stops at the first offset past i or where the cell holds less |
| Art.ScanFacts | mill/old/art.py:20-24 | one position's scan leaves f[i] alone; every other cell keeps its value or, below i, takes f[i] + (i-k)², which is no more than it held; the cells written form one run ending at i-1 |
| Art.PassDecreasing | mill/old/art.py:18-24 | `_upscan` never increases an entry |
| Art.PassZeros | mill/old/art.py:18-24 | on non-negative entries `_upscan` keeps every entry non-negative, and an entry is 0 afterwards exactly when it was 0 before |
| Art.At | mill/old/art.py:28-33 | every position of a row or column view, forwards or reversed, is a cell of the array |
| Art.AtInjective | mill/old/art.py:28-33 | distinct positions of a view are distinct cells, so a view writes through to each cell at most once |
| Art.IndexOf | mill/old/art.py:28-33 | every cell of a row (column) lies at some position of that row's (column's) views |
| Art.ScanFrom | mill/old/art.py:20-24 | the in-place inner loop for position i leaves the line equal to the scan of its old values |
| Art.Upscan | mill/old/art.py:18-24 | `_upscan` in place: the line becomes the pass of its old values, no entry grows, non-negative entries stay non-negative and 0 exactly where they were 0 |
| Art.UpscanView | mill/old/art.py:28-33 | `_upscan` on `f[i,:]`, `f[i,::-1]`, `f[:,i]` or `f[::-1,i]`: the view's values become the pass of their old values, every cell off the view keeps its value, no entry grows, and non-negative entries stay non-negative and 0 exactly where they were 0 |
| Art.Distance2Transform | mill/old/art.py:26-34 | the result has the bitmap's shape, every entry lies in [0, min(h, w)²], and an entry is 0 exactly on the bitmap's set cells |
| Common.RoundHalfUp | demakein/cgal.py:101-102 | `int_round` is an integer within half a unit of its argument, halves rounding up |
| Cgal.IntRoundNearest | demakein/cgal.py:101-102 | `int_round` gives the nearest integer (ties up) and is exact on integers |
| Cgal.TransformLinear | demakein/cgal.py:118-122 | `transform_point_3` is linear in the point, and the identity matrix leaves points unchanged |
| Cgal.Extent3 | demakein/cgal.py:124-132 | each axis bound of the extent is a bound of every point and is attained by some point |
| Cgal.MergeVertices | demakein/cgal.py:322-333 | every vertex maps to the index of its rounded point; the points are exactly the distinct rounded vertices in order of first appearance, and merges plus distinct points count every vertex |
| Cgal.MergedPointsMembers | demakein/cgal.py:322-333 | a point is among the merged points of the first n vertices exactly when some of those vertices rounds to it |
| Cgal.MergeSameIndex | demakein/cgal.py:322-333 | two vertices get the same index exactly when their rounded coordinates agree |
| Cgal.KeptTrisDistinct | demakein/cgal.py:335-340 | no triangle that reaches the builder has a repeated corner |
| Cgal.FilterTriangles | demakein/cgal.py:335-346 | triangles that merging made degenerate are counted as losses and the rest passed on in order; losses plus kept count every triangle |
| Cgal.Create | demakein/cgal.py:315-346 | creation fails exactly when some triangle does not have three corners; otherwise the points are the distinct rounded vertices in first-appearance order, the facets are the remapped triangles with no repeated corner, and merges and losses account for every vertex and triangle |
| Cgal.RemapsUnique | demakein/cgal.py:322-333 | with distinct points, the vertex-to-point remapping is determined by the points |
| Cgal.IndexPoint | demakein/cgal.py:398-401 | a new point is appended and indexed, a known one keeps its index; the index map stays exact |
| Cgal.IndexTriangle | demakein/cgal.py:396-402 | the triangle's three indices point at its corners in the extended vertex list, and coincide exactly when the triangle repeats a corner |
| Cgal.LoadStl | demakein/cgal.py:392-406 | loading fails exactly when some triangle repeats a point; otherwise the vertices are distinct and each triangle is indexed onto its three corners, none degenerate |
| Config.FriendlyOf | demakein/config.py:23-28 | the name keeps its length and each special character is replaced by '_' in place |
| Config.FilesystemFriendlyName | demakein/config.py:23-28 | the one-replace-per-character loop computes the sanitised name |
| Config.FriendlyIdempotent | demakein/config.py:23-28 | only '_' is left of the special characters, and sanitising twice changes nothing more |
| Config.ScanFlag | demakein/config.py:55-77 | on success no occurrence of the option is left in the arguments |
| Config.ScanPrefix | demakein/config.py:55-77 | arguments before the first occurrence of the option pass through unchanged |
| Config.ScanFirstOccurrence | demakein/config.py:60-75 | one round of the loop takes out the first occurrence and its argument, and a later value overrides it |
| Config.ScanLast | demakein/config.py:66-67 | an option as the last argument, with no value after it, is an error |
| Config.ScanBadValue | demakein/config.py:69-73 | a value the conversion rejects is an error |
| Config.GetFlagValue | demakein/config.py:55-77 | the loop fails exactly when the scan does; otherwise it reports presence exactly when a value was read, the value after the last occurrence, and the arguments without every occurrence |
| Config.ScanAppend | demakein/config.py:55-77 | after arguments that scan cleanly, later arguments' value wins and the kept arguments are joined in order |
| Config.ScanNoOption | demakein/config.py:55-77 | without the option nothing is read and every argument is kept |
| Config.ScanLastValue | demakein/config.py:55-77 | the reported value is the one after the last occurrence of the option |
| Config.ExpectNoFurtherFlags | demakein/config.py:79-84 | an error exactly when some argument looks like a flag or ends with ':' |
| Config.SplitCommands | demakein/config.py:87-99 | the default command's arguments hold no command word, each later piece starts at a command and holds no other command word |
| Config.SplitCommandsRebuild | demakein/config.py:87-99 | the pieces with their command words put back give the whole command line, in order |
| Config.SplitCommandsDefault | demakein/config.py:93-96 | the default command gets exactly the arguments before the first command word |
| Config.AsBool | demakein/config.py:101-107 | the yes words in any case are true, the no words false, anything else must read as the integer 0 or 1 and is an error otherwise |
| Config.AsBoolDescribe | demakein/config.py:101-113 | describing a boolean and reading it back gives the boolean |
| Config.FlagName | demakein/config.py:201-202 | "--" then the name with '_' as '-', lower-cased, trailing dashes removed |
| Config.FlagNameChars | demakein/config.py:201-202 | a flag name holds no '_' and no upper-case letter |
| Config.SectionName | demakein/config.py:317-318 | the dashed lower-case name without trailing dashes, then ':' |
| Config.PositionalName | demakein/config.py:183-184 | the dashed lower-case name in angle brackets |
| Config.SectionNameIsSection | demakein/config.py:79-84 | a section's name is always taken for a section, never for a flag |
| Config.LeadingBase | demakein/config.py:145-153 | the loop stops at the first parameter that no base class has |
| Config.Tool.Decorate | demakein/config.py:141-155 | the parameter goes in after the leading run of base-class parameters and before this class's own; nothing else is added or lost |
| Config.SectionParse | demakein/config.py:309-315 | an error exactly when stray flags are not allowed and some argument looks like a flag or a section; otherwise the value so far with the arguments appended, or the arguments alone |
| Decode.ShiftRoundTrip | mill/old/decode.py:178-191 | shifting a canonical command by (x, y) and then by (-x, -y) gives it back whenever the first shift succeeds |
| Decode.MoveRoundTrip | mill/old/decode.py:185-190 | a move inside the work area shifted back by the opposite offset returns to its original text |
| Decode.CanonicalMove | mill/old/decode.py:185-190 | a canonical move is the 'Z%d,%d,%d' text of a position inside the work area |
| Decode.ShiftListRoundTrip | mill/old/decode.py:178-191 | shifting a whole list back restores every command |
| Decode.TenthsText | mill/old/decode.py:55 | the speed text has a decimal point and at least one digit on each side |
| Decode.SpeedCommand | mill/old/decode.py:55 | 'V%.1f' starts with 'V' and is not a move |
| Decode.MoveCommand | mill/old/decode.py:57 | 'Z%d,%d,%d' of a position is a move |
| Decode.GotoCommands | mill/old/decode.py:35-58 | going to the current position emits nothing; otherwise the last command is the move, preceded by the new speed's command exactly when the speed changes; it fails exactly when a move changes the speed to None (the TypeError of 'V%.1f' % None) |
| Decode.Mover.constructor | mill/old/decode.py:21-30 | the commands are the start commands and a move to the start position; the ratio is horizontal over vertical speed and no speed is set |
| Decode.Mover.Close | mill/old/decode.py:32-33 | the end commands are appended |
| Decode.Mover.Goto | mill/old/decode.py:35-58 | succeeds exactly when the goto commands exist, and then appends them; a move to the current position changes nothing, otherwise position and speed become the new ones; on the TypeError nothing changes |
| Decode.GotoUnsetSpeed | mill/old/decode.py:54-57 | moves recorded before any 'V' command (speed None) emit only the move while the speed is unset |
| Decode.GotoUnsetAfterSet | mill/old/decode.py:54-56 | once a speed is set, a move with speed None fails |
| Decode.GotoTwice | mill/old/decode.py:36-58 | going to the same place twice emits nothing the second time |
| Decode.GotoSameSpeed | mill/old/decode.py:54-57 | keeping the speed, a goto emits exactly the move |
| Decode.NewAction | mill/old/decode.py:62-71 | an empty motion list is a ValueError; otherwise lo and hi bound every motion on x, y and z and each bound is attained by some motion, and small holds exactly when both xy extents are at most 6 mm |
| Decode.CostToMoveTo | mill/old/decode.py:73-78 | the cost is never negative and is zero exactly when the first action ends where the second starts, in xy |
| Decode.BlockedBySymmetric | mill/old/decode.py:80-86 | blocking is symmetric |
| Decode.BlockedByReflexive | mill/old/decode.py:80-86 | an action with sensible bounds blocks itself for any non-negative tool diameter |
| Decode.SharedPointBlocks | mill/old/decode.py:80-86 | two actions sharing an xy position block each other for any non-negative tool diameter |
| Decode.CheckUnblocked | mill/old/decode.py:301-306 | the for/else scan from i-1 down to 0 finds exactly whether no earlier action blocks action i |
| Decode.PickBest | mill/old/decode.py:292-307 | the pick is an unblocked action within the first 51, of least cost from the last action among those, and the first such on ties |
| Decode.Reorder | mill/old/decode.py:288-312 | the reordering keeps the first action first and is a permutation of the actions |
| Design.Natural | demakein/design.py:30-48 | the table gives a semitone within one octave for the seven natural letters and a KeyError otherwise |
| Design.NameShape | demakein/design.py:28 | each semitone name is a natural letter, possibly followed by one accidental that moves it to that semitone |
| Design.NameLetters | demakein/design.py:28-55 | each semitone name, followed by octave text, parses back to its semitone and leaves the octave text untouched |
| Design.NameRoundTrip | demakein/design.py:41-79 | for every semitone s, parsing semitone_name[s % 12] + str(s // 12) gives s back: naming inverts the semitone part of fqc |
| Design.NameSemitoneOf | demakein/design.py:48-57 | a semitone name followed by octave q parses to that semitone plus 12·q |
| Design.NoStar | demakein/design.py:42-46 | a note name without '*' takes the branch with no multiplier |
| Design.ReferencePitch | demakein/design.py:57-59 | "A4" is semitone 57, the 440 Hz reference, and semitone 57 is named "A4" |
| Design.LowHigh | demakein/design.py:320-331 | both lists are as long as the input; a pair contributes its two items, a single value goes to both lists, and any other sequence length fails the assertion |
| Design.InitialStateVec | demakein/design.py:462-474 | the four length assertions fail exactly when a guess list has the wrong length; otherwise the vector has length 1 + 2·n_holes + (inner − 2) + (outer − 2) |
| Design.Squares | demakein/design.py:471 | each diameter fraction is squared in place |
| Design.Slice | demakein/design.py:498-509 | a slice that fits is the plain subsequence |
| Design.Unpacked | demakein/design.py:494-511 | the cursor assertion holds exactly when the vector has the block layout's length |
| Design.Unpack | demakein/design.py:484-511 | the cursor walk over the blocks succeeds exactly when it ends at the vector's length, and then yields the block layout: length, hole positions and kinks as fractions of the length |
| Design.UnpackInitial | demakein/design.py:462-511 | unpacking the initial state vector gives the guesses back: length = initial length × scale, positions and kinks as those fractions of it, and the squared diameter fractions |
| Design.Gaps | demakein/design.py:561-571 | one separation check per pair of consecutive breakpoints, each the gap minus the minimum separation times the length |
| Design.MinDiameterChecks | demakein/design.py:594-597 | one check per minimum hole diameter, the diameter minus the minimum |
| Design.Breakpoints | demakein/design.py:561-567 | [0] + kinks + [length] has two more entries than the kinks |
| Design.PenaltyZero | demakein/design.py:613-617 | the penalty is never negative and is zero exactly when no check is negative |
| Design.PenaltyAppend | demakein/design.py:613-614 | the penalty of concatenated checks is the sum of their penalties |
| Design.ConstraintScore | demakein/design.py:553-617 | the constraint score is the penalty of every check (None limits skipped), never negative, and zero exactly when every check is non-negative |
| Design.AddGaps | demakein/design.py:562-565 | the separation loop appends exactly the gap checks |
| Design.HoleScores | demakein/design.py:573-611 | the hole part appends exactly the hole checks: clearances, spacings, diameters and balance |
| Design.AddMinSpacing | demakein/design.py:582-586 | the loop appends one check per minimum spacing that is not None |
| Design.AddMaxSpacing | demakein/design.py:588-592 | the loop appends one check per maximum spacing that is not None |
| Design.AddMinDiameters | demakein/design.py:594-597 | the loop appends one check per minimum diameter |
| Design.AddMaxDiameters | demakein/design.py:599-603 | the loop appends one check per maximum diameter that is not None |
| Design.AddBalance | demakein/design.py:605-611 | the loop appends one balance check per limit that is not None |
| Design.NegativeSum | demakein/design.py:613-614 | the loop sums the negated negative checks, giving the penalty |
| Design.ChordZero | demakein/design.py:263-277 | the intercept is a zero of the line through both samples, and the result is None exactly when the gradient exceeds max_grad |
| Design.ChordBracket | demakein/design.py:276 | with x1 < x2 and y1 ≥ 0 > y2 the zero lies within [x1, x2], as the commented assertion says |
| Design.Fallback | demakein/design.py:295-299 | after max_steps the result is an outer probe with gradient 0.0: the last one exactly when its score is smaller in magnitude (and distinct), otherwise the first |
| DesignShawm.InRange | demakein/design_shawm.py:7-8 | n values; value k sits at fraction (k+2)/(n+2) of the way from low to high |
| DesignShawm.InRangeIncreasing | demakein/design_shawm.py:7-8 | for low < high the values increase strictly and lie strictly between low and high |
| DesignShawm.BoreScaled | demakein/design_shawm.py:11-17 | every table entry is scaled by bore/6, entry for entry |
| DesignShawm.BoreScaledBaseline | demakein/design_shawm.py:11-17 | at a 6 mm bore the table is unchanged, and for a positive bore scaling keeps the order of the entries |
| DesignShawm.MinInnerFractionSep | demakein/design_shawm.py:33-36 | one separation per gap between kinks; every one but the last is capped at 0.05 and the last is 0.1 |
| DesignShawm.Separation | demakein/design_shawm.py:35-36 | the separation of one gap never exceeds 0.05 |
| DesignShawm.PrefixMins | demakein/design_shawm.py:41-42 | the in-place loop turns the separations into running sums of (separation + 0.01) |
| DesignShawm.InitialInnerFractions | demakein/design_shawm.py:39-47 | one fraction per inner kink: the larger of that kink's least position and 1 - 2·d[i]/d[0], so never below its least position |
| DesignShawm.RunningMinIncreasing | demakein/design_shawm.py:41-42 | with non-negative separations each least position lies at least 0.01 per step beyond the earlier ones |
| Geom.Mag2 | demakein/geom.py:38-39 | the squared magnitude is never negative |
| Geom.XYZAdditive | demakein/geom.py:13-26 | vector addition commutes and undoes subtraction, and negation is scaling by -1 |
| Geom.XYZProducts | demakein/geom.py:28-36 | the dot product is symmetric, the cross product anti-commutes, and a vector is orthogonal to its cross product with any other |
| Geom.LinearLaws | demakein/geom.py:49-72 | a `Linear` runs from a0 at 0 to a1 at 1 through `hat` at the midpoint, `tri` is the rise, and sums, differences and multiples act pointwise |
| Geom.PowAdd | demakein/geom.py:81-88 | powers of s multiply by adding exponents |
| Geom.Call | demakein/geom.py:81-88 | the evaluation loop with a running power of s computes the series value Σ fᵢ(t)·sⁱ |
| Geom.EvalEnds | demakein/geom.py:75-88 | a series is f[0].a0 at t = 0 and f[0].a1 at t = 1, where s vanishes |
| Geom.Scaled | demakein/geom.py:93-94 | every term is multiplied by the factor |
| Geom.EvalScaled | demakein/geom.py:93-94 | the scaled series evaluates to the factor times the series, everywhere |
| Geom.Shifted | demakein/geom.py:96-97 | i zero terms go in front of the unchanged series |
| Geom.ShiftedLaws | demakein/geom.py:96-97 | shifts compose by adding, and dropping the leading i terms undoes a shift by i |
| Geom.ShiftedEnds | demakein/geom.py:96-97 | a series shifted by at least one vanishes at both ends |
| Geom.Truncated | demakein/geom.py:99-100 | the first n terms, or the whole series when it is shorter |
| Geom.Padded | demakein/geom.py:102-108 | the series followed by zero terms up to the size |
| Geom.EvalPadded | demakein/geom.py:102-108 | padding with zero terms does not change the value |
| Geom.Plus | demakein/geom.py:110-112 | both operands padded to the longer length and added term by term |
| Geom.Minus | demakein/geom.py:114-116 | both operands padded to the longer length and subtracted term by term |
| Geom.EvalPlus | demakein/geom.py:110-112 | the sum of two series evaluates to the sum of their values, everywhere |
| Geom.EvalMinus | demakein/geom.py:114-116 | the difference evaluates to the difference of their values, everywhere |
| Geom.Multiplied | demakein/geom.py:118-132 | the product has \|a\| + \|b\| terms, its leading term is the product's leading term, and it is exact at t = 0 and t = 1 |
| Geom.DerivativeOf | demakein/geom.py:161-172 | one derivative term per term of the series |
| Geom.Derivative | demakein/geom.py:161-172 | the loop, with its separate last term, computes the derivative series |
| Geom.IntegralOf | demakein/geom.py:174-183 | one term more than the series |
| Geom.Integral | demakein/geom.py:174-183 | the forward loop of symmetric terms followed by the backward loop adding the antisymmetric parts computes the integral series |
| Geom.DerivativeOfIntegralAt | demakein/geom.py:161-183 | term k of the derivative of the integral is term k of the series |
| Geom.DerivativeOfIntegral | demakein/geom.py:161-183 | the derivative undoes the integral: derivative(integral(f)) is f with one zero term appended |
| Instruments.StepEventsAre | demakein/design.py:180-182 | an event comes from the step loop exactly when it is a breakpoint of the stepped profile strictly inside (0, length), tagged with its own index |
| Instruments.HoleEventsAre | demakein/design.py:184-185 | an event comes from the hole loop exactly when it is a hole at its position, tagged with its index |
| Instruments.EventsAre | demakein/design.py:176-185 | the events are the end, the interior breakpoints and the holes, and nothing else |
| Instruments.BuildEvents | demakein/design.py:176-185 | the two event loops build exactly that event list, in that order |
| Instruments.InsertEvent | demakein/design.py:187 | insertion adds exactly one event and puts it in front when its position is not after the first |
| Instruments.InsertSorted | demakein/design.py:187 | insertion keeps a list in position order |
| Instruments.SortEvents | demakein/design.py:187 | the sort is a permutation of the events |
| Instruments.SortSorted | demakein/design.py:187 | the sorted events are in position order |
| Instruments.InsertAtPos | demakein/design.py:187 | insertion puts the new event ahead of the events at its own position |
| Instruments.SortStable | demakein/design.py:187 | the sort is stable: the events at any one position keep their original order (a step before a hole at the same place) |
| Instruments.PipesAppend | demakein/design.py:193-198 | pipe count and total pipe length add over concatenated action lists |
| Instruments.EventActionsCount | demakein/design.py:193-234 | each event adds one pipe, of the distance from the previous position, and a junction unless it is the end or a step that fails its assertion |
| Instruments.PlanCount | demakein/design.py:189-234 | a completed plan has one pipe per event and one junction per step or hole |
| Instruments.PlanReaches | demakein/design.py:191-200 | the pipe lengths telescope: they add up to the distance from the starting position to the last event |
| Instruments.PlanPipesNonNegative | demakein/design.py:187-200 | with sorted events and none before the start, no pipe has a negative length |
| Instruments.ChainedPlanOk | demakein/design.py:202-205 | the step assertion never fails when each step's high side is the next step's low side and the running diameter starts at the first step's low side |
| Instruments.SortKeepsIndices | demakein/design.py:187 | indices valid before the sort stay valid after it |
| Instruments.EventIndicesOk | demakein/design.py:176-187 | every step index of the sorted events names a breakpoint and every hole index a hole |
| Instruments.PlanStep | demakein/design.py:193-234 | one iteration: the first event's actions, then the rest of the plan from its position and the new diameter, unless the event fails |
| Instruments.Act | demakein/design.py:189-234 | the action loop builds exactly the planned actions, stopping at a failed step assertion |
| Instruments.ActOn | demakein/design.py:193-234 | one event's body appends its actions, says whether the step assertion held and gives the next running diameter |
| Instruments.Schedule | demakein/design.py:176-234 | the event indices are valid and the actions are the plan from the flange-corrected start over the sorted events |
| Instruments.Instrument.constructor | demakein/design.py:153-164 | an instrument starts with the given bore, holes and cone step and no actions |
| Instruments.Instrument.Prepare | demakein/design.py:173-234 | prepare steps the inner profile (a chained profile at the stepped positions), then sets the actions to the plan over the sorted events, leaving the other fields unchanged |
| Legion.Chunk | demakein/legion.py:99-107 | the chunks are non-empty, concatenate back to the input, and all but the last hold exactly chunk_size items |
| Legion.Interleave | demakein/legion.py:109-118 | the output is exactly the round-robin order `RoundRobin(its)` (each round yields the heads of the lists still holding items, in list order, then continues with their tails); every output item is tagged with the iterator it came from, and the items taken from iterator k are exactly iterator k's items in their order |
| Legion.DealStep | demakein/legion.py:112-118 | one turn of the round-robin loop at cursor `i % len` keeps the dealing invariant, leaves what is already output plus what the cursor still yields unchanged, and strictly decreases the items left plus live iterators |
| Legion.RemainingTurn | demakein/legion.py:113-118 | at the cursor, a non-empty list yields its head and the cursor moves on; a used-up list is deleted and the cursor stays, so the next list is served |
| Legion.RoundRobinFirstRound | demakein/legion.py:112-116 | while no list is empty, the first round yields each list's head, in list order |
| Legion.RoundRobinExample | demakein/legion.py:109-118 | interleaving [[1, 2], [3]] yields 1, 3, 2, not the concatenation |
| Legion.DealtDone | demakein/legion.py:112 | once no iterator is live, every iterator has been dealt in full and in order |
| Legion.InsertDesc | demakein/legion.py:248 | inserting a waiter keeps the queue in descending request order and adds exactly that waiter |
| Legion.SortDesc | demakein/legion.py:248 | sorting by -request gives a non-increasing permutation of the waiters |
| Legion.SortKeepsTies | demakein/legion.py:248 | the sort is stable: waiters with equal requests stay in arrival order |
| Legion.ScanPartition | demakein/legion.py:249-256 | every waiter is either granted or kept, none lost or duplicated |
| Legion.ScanCount | demakein/legion.py:249-256 | used grows by exactly the granted requests, and never ends above cores when it started within them or when anything was granted |
| Legion.ScanMaximal | demakein/legion.py:249-256 | with non-negative requests, no kept waiter would fit in the cores left after the scan |
| Legion.ScanKeepsOrder | demakein/legion.py:249-256 | the kept waiters stay in descending request order, ties by arrival |
| Legion.GrantLoop | demakein/legion.py:249-256 | the in-place deletion loop leaves exactly the kept waiters, the final used count, and signals exactly the granted tickets in order |
| Legion.UpdateKeepsOrder | demakein/legion.py:243-256 | after _update the queue is sorted by descending request, ties by arrival |
| Legion.UpdateKeepsTickets | demakein/legion.py:243-256 | _update only removes waiters: no new ticket appears |
| Legion.Regrant | demakein/legion.py:243-256 | sort then grant: the new queue, count and signals are the rescheduled outcome, and ordering and ticket bounds are kept |
| Legion.Coordinator.constructor | demakein/legion.py:168-185 | a new coordinator holds one core for the main process, has no waiters, no mail and no futures |
| Legion.Coordinator.Set | demakein/legion.py:187-190 | the job command, kill command and core count become the settings applied in order up to the first unknown key; it fails exactly when there is an unknown key, keeping the settings made before it, and nothing else changes |
| Legion.ApplyLastWins | demakein/legion.py:187-190 | after a run of settings, each key holds the value of its last setting |
| Legion.ApplyUntouched | demakein/legion.py:187-190 | a key never set keeps its old value |
| Legion.Coordinator.SetMail | demakein/legion.py:192-197 | mail numbers are handed out 0, 1, 2, … and the value is stored under a number not used before; every other field, the job and kill commands included, is unchanged |
| Legion.Coordinator.GetMail | demakein/legion.py:199-201 | returns and removes the stored value; a missing number is an error that changes nothing; every other field, the job and kill commands included, is unchanged |
| Legion.Coordinator.NewFuture | demakein/legion.py:203-208 | a fresh number, undelivered, with one reference; every other field, the job and kill commands included, is unchanged |
| Legion.Coordinator.RefFuture | demakein/legion.py:210-213 | adds one reference; a missing number fails the assertion; every other field, the job and kill commands included, is unchanged |
| Legion.Coordinator.DerefFuture | demakein/legion.py:215-220 | drops one reference and removes the entry when none is left; a missing number fails the assertion; every other field, the job and kill commands included, is unchanged |
| Legion.Coordinator.DeliverFuture | demakein/legion.py:222-226 | stores the value of a known future and changes nothing for an absent one; every other field, the job and kill commands included, is unchanged |
| Legion.Coordinator.GetFuture | demakein/legion.py:228-237 | a delivered future yields its value and drops one reference; an undelivered one would block; an absent one is a KeyError; every other field, the job and kill commands included, is unchanged |
| Legion.Coordinator.Update | demakein/legion.py:243-256 | the queue is rescheduled from the current used count and cores; ordering is kept; every other field, the job and kill commands included, is unchanged |
| Legion.Coordinator.SetCores | demakein/legion.py:274-277 | the core count is replaced and the queue rescheduled; every other field, the job and kill commands included, is unchanged |
| Legion.Coordinator.ChangeCoresUsed | demakein/legion.py:283-287 | used moves by delta and the queue is rescheduled; every other field, the job and kill commands included, is unchanged |
| Legion.Coordinator.ReleaseCore | demakein/legion.py:289-290 | used drops by one and the queue is rescheduled; every other field, the job and kill commands included, is unchanged |
| Legion.Coordinator.TradeCores | demakein/legion.py:292-307 | when new ≤ old, used becomes used − old + new with nothing queued; otherwise old is released and one waiter for new is queued under a fresh ticket before rescheduling; every other field, the job and kill commands included, is unchanged |
| Legion.Coordinator.ReturnCores | demakein/legion.py:295-299 | the branch that gives cores back queues nothing; every other field, the job and kill commands included, is unchanged |
| Legion.Coordinator.QueueRequest | demakein/legion.py:301-307 | the waiting branch releases old and queues one request for new; every other field, the job and kill commands included, is unchanged |
| Legion.Coordinator.AcquireCore | demakein/legion.py:309-310 | always queues a request for one core; every other field, the job and kill commands included, is unchanged |
| Legion.AnswerOf | demakein/legion.py:622-625 | the local time becomes the later of both times, and the answer raises exactly when an exception was stored |
| Legion.FutureReference.constructor | demakein/legion.py:607-612 | a new handle has not retrieved its future |
| Legion.FutureReference.FromState | demakein/legion.py:639-642 | unpickling restores number, retrieved flag and cached outcome |
| Legion.FutureReference.Call | demakein/legion.py:616-625 | the coordinator is asked at most once: a retrieved handle answers from its cache, otherwise a delivered future is fetched, cached and dereferenced; the coordinator's other fields, its mail and future counters, ticket counter and job and kill commands included, are unchanged |
| Legion.FutureReference.Delete | demakein/legion.py:627-629 | a handle that never retrieved gives back one reference; a retrieved one changes nothing; the coordinator's other fields, its mail and future counters, ticket counter and job and kill commands included, are unchanged |
| Legion.FutureReference.GetState | demakein/legion.py:631-637 | pickling an unretrieved handle adds one reference; the state is number, retrieved flag and outcome; the coordinator's other fields, its mail and future counters, ticket counter and job and kill commands included, are unchanged |
| Make.PyIndex | demakein/make.py:152 | Python's negative index (as in `hole_diameters[hole]` with hole = -1) reads an element of the list |
| Make.CutClear | demakein/make.py:145-156 | with the corrected upper bound, a cut placed at fraction `above` of the clear space lies at least two hole diameters above the hole below (or above 0) and two diameters below the hole above (or below the length) |
| Make.CutEnds | demakein/make.py:156 | above = 0 puts the cut at the lower bound and above = 1 at the upper bound of the clear space |
| Make.UpperBoundAsWrittenTooClose | demakein/make.py:151-152 | the upper bound as written subtracts the diameter of the hole below: for holes at 10 and 50 (diameters 2 and 8) it allows a cut at 46, closer to the upper hole than twice its diameter, and for hole = -1 it uses the last hole's diameter |
| Make.AllCuts | demakein/make.py:142-159 | one cut list per division, one cut per (hole, above) pair, with the corrected upper bound of Make.CutClear |
| Make.GetCuts | demakein/make.py:138-159 | the nested loops of get_cuts build exactly the cut lists of every division (with the corrected upper bound) |
| Make.UpCuts | demakein/make.py:269 | mirroring for top-down making keeps the number of cuts |
| Make.UpCutsSorted | demakein/make.py:269 | mirrored ascending cuts are still ascending |
| Make.UpCutsInvolution | demakein/make.py:269 | mirroring twice gives the cuts back, and cuts within the instrument stay within it |
| Make.JoinOf | demakein/make.py:280-287 | only the join names weld, straight and taper are accepted; any other name is an error |
| Make.SocketWindow | demakein/make.py:297-302 | the socket is 0.8 outer diameters long, ends at the cut when made top-down or welded, and otherwise starts at the cut |
| Make.Oriented | demakein/make.py:268-269 | orienting the cuts keeps their number |
| Make.OuterOriented | demakein/make.py:278 | the reversed and moved outer profile is again a well-formed profile |
| Make.UpSocketDiameter | demakein/make.py:277-292 | the outer diameter read at a mirrored cut of the turned-over profile is the original profile's diameter at the cut (from above) |
| Make.OneUnflipped | demakein/make.py:334-338 | with flip_top exactly one piece keeps its orientation (the last made top-down, the first made bottom-up); without it every piece is turned over |
| Make.CutAll | demakein/make.py:289-331 | the cutting loop yields one socket window per cut, sized by the outer diameter there, and pieces spanning consecutive cuts from 0 up to the length |
| Make.TopFirst | demakein/make.py:332-338 | the pieces are listed in reverse order, each turned over or not as flip_top and up say |
| Make.Segment | demakein/make.py:259-340 | an unknown join is an error; otherwise one window per cut and the pieces top first, adjacent pieces meeting at the oriented cuts, covering 0 to the length |
| Make.Insert | demakein/make.py:481 | inserting into a strictly ascending list keeps it strictly ascending and adds exactly the new value |
| Make.SortedSet | demakein/make.py:481 | sorted(set(xs)) is strictly ascending and holds exactly the values of xs |
| Make.Fractions | demakein/make.py:481 | every cut of every scheme appears divided by the length |
| Make.FractionsFromCuts | demakein/make.py:481 | every fraction is some scheme's cut divided by the length |
| Make.FractionsInUnit | demakein/make.py:481 | cuts within the instrument give fractions within [0, 1] |
| Make.MakeWorkpieces | demakein/make.py:479-482 | a zero length is an error; otherwise the fractions are the distinct cut fractions in ascending order and the plan is the first of least score among the passing candidates, an error when there is none (cuts use the corrected upper bound) |
| Mask.BoundIntersection | demakein/mask.py:9-18 | an empty rectangle defers to the other operand |
| Mask.BoundUnion | demakein/mask.py:20-29 | an empty rectangle defers to the other operand |
| Mask.IntersectionInside | demakein/mask.py:9-18 | the intersection of two non-empty rectangles has a non-negative size and, when it has cells, lies inside both |
| Mask.IntersectionContains | demakein/mask.py:9-18 | for non-empty rectangles a cell is in the intersection exactly when it is in both |
| Mask.UnionContains | demakein/mask.py:20-29 | the union is a rectangle containing every cell of either operand |
| Mask.BoundsOf | demakein/mask.py:41-42 | a grid's bounds have non-negative size |
| Mask.Shift | demakein/mask.py:38-39 | the same data at the new offset: each cell reads the cell it was moved from |
| Mask.Zeros | demakein/mask.py:123-124 | a grid of the given bounds with no cell set |
| Mask.Ones | demakein/mask.py:120-121 | a grid of the given bounds with exactly its own cells set |
| Mask.Clip | demakein/mask.py:44-54 | a grid of the requested bounds holding the old cells where they overlap and clear elsewhere; clipping to its own bounds returns the grid itself |
| Mask.Apply | demakein/mask.py:56-59 | both grids clipped to the bounds and combined cell by cell, clear outside the bounds |
| Mask.GetAnd | demakein/mask.py:65-70 | `&` is the cellwise conjunction, everywhere |
| Mask.GetOr | demakein/mask.py:61-72 | `\|` is the cellwise disjunction, everywhere |
| Mask.AndNot | demakein/mask.py:74-75 | the result keeps the left operand's bounds |
| Mask.GetAndNot | demakein/mask.py:74-75 | `and_not` clears exactly the cells set in the right operand |
| Mask.GetInside | demakein/mask.py:31-42 | a set cell lies inside its grid's bounds |
| Mask.Spans | demakein/mask.py:77-86 | the maximal runs of set cells, row by row in order; every run lies on set cells and every set cell lies on some run |
| Mask.Emit | demakein/mask.py:82-86 | emitting a run appends it and extends the covered part of the row to its end |
| Mask.CoveredAll | demakein/mask.py:77-86 | once every row is scanned, every set cell is covered by a run |
| Mask.BinOp | demakein/mask.py:69-72 | the matrix operation behind each cellwise operator combines cell by cell, everywhere |
| Mask.Morph | demakein/mask.py:88-102 | `morph` fails exactly on an empty mask; with `\|` the result is the dilation (a cell is set when the grid has a set cell at it minus some mask offset), with `&` the erosion (set when all such cells are) |
| Mask.MorphStep | demakein/mask.py:95-100 | each span folds the memoised run, placed at the span, into the result |
| Mask.EnsureMemo | demakein/mask.py:90-93 | `get_span` grows the memo until it holds the run of length n |
| Mask.GrowMemo | demakein/mask.py:91-92 | each growth step appends the next run |
| Mask.GrowRun | demakein/mask.py:91-92 | folding the n-th shifted copy into the run of n - 1 gives the run of n |
| Mask.PlaceRun | demakein/mask.py:96 | the run shifted to a span covers exactly that span's shifted copies |
| Mask.MorphMeaning | demakein/mask.py:88-108 | folding over spans that cover exactly the mask's set cells gives the dilation for `\|` and the erosion for `&` |
| Mask.RunOr | demakein/mask.py:90-93 | a run under `\|` is set where one of its shifted copies is |
| Mask.RunAnd | demakein/mask.py:90-93 | a run under `&` is set where all its shifted copies are |
| Mask.Dilate | demakein/mask.py:104-105 | `dilate` fails exactly on an empty mask and otherwise gives the dilation, cell by cell |
| Mask.Erode | demakein/mask.py:107-108 | `erode` fails exactly on an empty mask and otherwise gives the erosion, cell by cell |
| Mask.Ceil | demakein/mask.py:144-145 | `int_ceil` is the least integer not below its argument |
| Mask.Normalise | demakein/mask.py:154-161 | the key runs left to right; it is the segment itself with count +1 when the segment does, else the flipped segment with -1 |
| Mask.TallyAppend | demakein/mask.py:153-161 | counts over two lists of segments add up |
| Mask.NetZero | demakein/mask.py:153-161 | a non-vertical segment traversed once each way adds nothing to any key's count |
| Mask.KeyFromLine | demakein/mask.py:153-161 | every key of `line_count` comes from some segment |
| Mask.LineKeyIn | demakein/mask.py:153-161 | every segment's key is a key of `line_count` |
| Mask.KeysDistinct | demakein/mask.py:153-161 | the keys of `line_count` are distinct |
| Mask.CountLines | demakein/mask.py:153-161 | the dictionary loop gives each key, in insertion order, the net count of its segments |
| Mask.TallyAbsent | demakein/mask.py:153-161 | a segment that is no key has count 0 |
| Mask.LineYBetween | demakein/mask.py:171-173 | inside a segment's x-range the row drawn lies between the ceilings of its end heights |
| Mask.DrawKey | demakein/mask.py:165-174 | each column of the key's x-range gets n added in the row of its line, and no other cell changes |
| Mask.DrawAll | demakein/mask.py:165-174 | after the drawing loop each cell holds the sum of the counts drawn into it over all keys |
| Mask.AccumulateRow | demakein/mask.py:176-177 | one step of the running sum: row y becomes its column sums, other rows stay |
| Mask.Accumulate | demakein/mask.py:176-177 | after the loop each cell holds the marks of its column from row 0 down to it |
| Mask.Positive | demakein/mask.py:179 | `count > 0` cell by cell, with the grid's shape |
| Mask.KeysInGrid | demakein/mask.py:147-161 | every key lies in the grid when every segment does, and runs left to right |
| Mask.Extent | demakein/mask.py:148-151 | the grid, from the floor of the lowest coordinates to the ceiling of the highest, contains every segment, and each of its four edges is within one cell of some segment's end |
| Mask.ExtentFloorCeil | demakein/mask.py:148-151 | a grid that holds every segment and is tight on all four edges, as Extent's is, starts at the floor of the lowest coordinates and ends at the ceiling of the highest |
| Mask.MakeMask | demakein/mask.py:147-179 | no segments gives no mask; otherwise the grid contains every segment and a cell is set exactly when the running sum of the marks above it in its column is positive |
| Mask.KeysPair | demakein/mask.py:153-161 | appending a segment and its reverse adds at most its key, at the end of the key order |
| Mask.MarksNetZero | demakein/mask.py:165-174 | a segment drawn once each way leaves every cell's marks unchanged |
| Mask.ColumnNetZero | demakein/mask.py:147-179 | a segment drawn once each way leaves every mask cell unchanged |
| Optimize.Weights | demakein/optimize.py:47-49 | the shifted weights keep one entry per pool vector |
| Optimize.WeightsSumToOne | demakein/optimize.py:42-49 | whatever the normal draws and the picked index, the weights of make_update sum to exactly one |
| Optimize.Recombine | demakein/optimize.py:51-54 | the weighted combination has the dimension of the pool vectors |
| Optimize.Perturb | demakein/optimize.py:64-69 | the noise keeps the dimension |
| Optimize.MakeUpdate | demakein/optimize.py:26-71 | the proposed point has the dimension of the pool vectors |
| Optimize.UpdateOfOnePoint | demakein/optimize.py:42-54 | without noise, a pool whose members are all one point proposes that point again |
| Optimize.UpdateTranslates | demakein/optimize.py:42-69 | the update is affine: moving every pool vector by t moves the proposal by t, for the same draws, with or without noise |
| Optimize.Evaluate | demakein/optimize.py:91-95 | the constraint score comes first, and the objective is consulted only when the constraint score is zero |
| Optimize.FeasibleFirst | demakein/optimize.py:160-166 | in tuple order every feasible candidate ranks before every infeasible one, whatever the objectives |
| Optimize.Sort | demakein/optimize.py:153 | sorted() gives an ascending permutation of the objectives |
| Optimize.SortCount | demakein/optimize.py:153 | sorting keeps the number of entries below any bound |
| Optimize.SortedRank | demakein/optimize.py:155 | the entry at index k of a sorted list is the (k+1)-th smallest: at most k entries lie below it and at least k+1 at or below it |
| Optimize.Cutoff | demakein/optimize.py:153-158 | the cutoff keeps the best constraint score; its objective is 1e30 when the pool is not larger than pool_size and otherwise one of the pool's objectives |
| Optimize.CutoffRank | demakein/optimize.py:153-158 | when the pool is larger than pool_size, at most pool_size objectives lie below the cutoff and more than pool_size at or below it |
| Optimize.Retain | demakein/optimize.py:161 | exactly the members whose score is at most the cutoff are kept |
| Optimize.Worst | demakein/optimize.py:179 | the largest score of the pool in tuple order is one of its scores |
| Optimize.Spread | demakein/optimize.py:175-176 | the spread of a coordinate is never negative |
| Optimize.SpreadIsRange | demakein/optimize.py:175-176 | no two members differ by more than the spread in a coordinate, and some two differ by exactly it |
| Optimize.XSpan | demakein/optimize.py:172-177 | the loop computes the largest spread over all coordinates, starting from 0.0 |
| Optimize.MaxSpreadTight | demakein/optimize.py:181 | the largest spread is below xtol exactly when every coordinate's spread is |
| Optimize.PoolSize | demakein/optimize.py:103 | int() truncates: pool_size is the whole part of the dimension times pool_factor |
| Optimize.Begin | demakein/optimize.py:89-106 | the search starts with the start point alone in the pool, scored, and every counter at zero |
| Optimize.Candidate | demakein/optimize.py:125-133 | the candidate has the search's dimension and is scored by the constraint-first rule |
| Optimize.Step | demakein/optimize.py:124-188 | one pass counts the try, counts it as real when feasible, admits it only within the cutoff (dropping members above the cutoff), makes it the best only when strictly better, never worsens the best, and is done exactly on convergence or after 1000000 real tries without improvement |
| Optimize.Finished | demakein/optimize.py:171-188 | done exactly when the pool is full, the best is feasible and the points lie within xtol or (after 5000 admissions) the objectives within ftol, or when 1000000 real tries brought no improvement |
| Optimize.Improve | demakein/optimize.py:78-201 | the serial optimiser returns the best point found, scored consistently, never worse than the start point, and stops when done or when the draws run out |
| Packing.EveryChoiceTried | demakein/pack.py:8-10 | the loop over `range(1 << len(cuts))` tries every subset of the cuts: each choice of flags is the bit pattern of one i below 2ⁿ |
| Packing.Midpoints | demakein/pack.py:13 | one midpoint per pair of consecutive entries of upper |
| Packing.MergeLower | demakein/pack.py:14-19 | the in-place deletion loop computes the merged lower list |
| Packing.MergedKeeps | demakein/pack.py:14-19 | the merge only deletes: the result is lower with some entries other than the first and last removed |
| Packing.MergedSpaced | demakein/pack.py:14-19 | for sorted input the merged list stays sorted and every window of three entries spans more than the ratio |
| Packing.ChosenFrom | demakein/pack.py:10 | the chosen cuts come from the cuts, in order, so sorted cuts give a sorted choice |
| Packing.StartSorted | demakein/pack.py:10-13 | sorted fractions in [0, 1] give a sorted upper and a sorted starting lower |
| Packing.PlanLowerSpaced | demakein/pack.py:10-19 | the merged lower of a plan built from sorted fractions has every window of three entries spanning more than the ratio |
| Packing.CheckGaps | demakein/pack.py:21-27 | the gap check passes exactly when no gap between consecutive entries of upper or lower exceeds the ratio |
| Packing.Candidates | demakein/pack.py:8-19 | one candidate plan per subset tried |
| Packing.KeptAreGood | demakein/pack.py:28-29 | only plans whose gaps pass are kept |
| Packing.GoodAreKept | demakein/pack.py:28-29 | every plan whose gaps pass is kept |
| Packing.ClosestBound | demakein/pack.py:33-37 | the scorer's closest distance is at most 10³⁰ and at most the distance of every interior pair |
| Packing.ClosestAttained | demakein/pack.py:33-37 | the closest distance is 10³⁰ or the distance of some interior pair |
| Packing.ClosestLoop | demakein/pack.py:34-37 | the nested loops compute the closest distance between interior entries of upper and lower |
| Packing.ScorePlan | demakein/pack.py:33-38 | the scorer gives (total length, length of upper, minus the closest distance) |
| Packing.TryCandidate | demakein/pack.py:9-28 | one pass of the loop builds the plan for subset i and reports whether its gaps pass |
| Packing.Best | demakein/pack.py:40 | `min(plans, key=scorer)`: no plan scores lower than the one chosen, and every plan before it scores higher |
| Packing.PlanSegments | demakein/pack.py:6-46 | an error exactly when no plan passes; otherwise a passing plan that no passing plan beats on score and that every earlier passing plan scores worse than: the first of least score |
| Packing.FirstLeastUnique | demakein/pack.py:39 | there is only one first plan of least score |
| Packing.Moved | demakein/pack.py:89-90 | every point of the outline is translated by (x, y) |
| Packing.Pack.constructor | demakein/pack.py:77-82 | the sheet keeps the sizes and copies the lists |
| Packing.Pack.Copy | demakein/pack.py:84-85 | a fresh sheet with the same sizes and lists |
| Packing.Pack.Put | demakein/pack.py:87-91 | exactly one item and its outline moved to (x, y) are appended; the sizes stay |
| Packing.Pack.Valid | demakein/pack.py:93-105 | a placement is accepted exactly when the dilated extent fits the sheet and the dilated outline meets none of the placed outlines |
| Packing.Classify | demakein/pack.py:156-167 | the corrected tests: a split needs the item strictly inside the interval, keeping the lower or upper part needs that end of the item inside it |
| Packing.ClassifyClear | demakein/pack.py:156-169 | with the corrected tests an interval is left alone exactly when the item's span misses it |
| Packing.AsWrittenMissesOverlap | demakein/pack.py:156-169 | with the tests as written an item starting exactly where the interval starts and ending inside it does not block the interval, where the corrected tests keep only the part above the item |
| Packing.Pieces | demakein/pack.py:156-167 | at most two pieces pushed back, each a proper part of the popped interval at the same x |
| Packing.FirstBlocker | demakein/pack.py:151-169 | the inner loop finds the first near item whose span affects the interval, or reports that no near item does (the loop's else branch); it uses the corrected fourth test |
| Packing.Ends | demakein/pack.py:154-155 | the two span ends of every item |
| Packing.PiecesLighter | demakein/pack.py:149-167 | the pieces pushed back weigh less than the popped interval, so the worklist loop ends |
| Packing.Candidates0 | demakein/pack.py:147 | every candidate bollard spans the whole sheet height |
| Packing.Bollards | demakein/pack.py:137-169 | every bollard kept lies on the sheet, and no near item's span affects any bollard kept (under the corrected fourth test) |
| MillPath.Steps | mill/path.py:53 | steps is the larger of the two absolute axis deltas |
| MillPath.Line | mill/path.py:50-64 | a line has steps + 1 points (a single point when both ends coincide) |
| MillPath.LineEnds | mill/path.py:55-63 | the first point is the start and point number steps is exactly the end: the rounding offset steps // 2 never overshoots |
| MillPath.LineAdjacent | mill/path.py:59-63 | consecutive points are neighbours: each coordinate moves by at most one per step, towards the end |
| MillPath.LineMajorAxis | mill/path.py:59-63 | along the longer axis every step advances exactly one unit |
| MillPath.LinePoints2 | mill/path.py:50-64 | the loop returns exactly the points of the line |
| MillPath.RowMembers | mill/path.py:262-264 | the inner loop keeps exactly the row's points within the radius to the left of x |
| MillPath.RowsMembers | mill/path.py:261-264 | the outer loop keeps exactly the points within the radius in the rows below y |
| MillPath.DiskMembers | mill/path.py:258-265 | circle_points holds exactly the lattice points within the radius (with coordinates bounded by int(radius)) |
| MillPath.DiskRowMajor | mill/path.py:258-265 | the points are listed row by row, left to right, so none appears twice |
| MillPath.CirclePoints | mill/path.py:258-265 | the nested loops build exactly that disc |
| MillPath.EndMill | mill/path.py:267-268 | the end mill is the disc at height 0, point for point |
| MillPath.Zeros | mill/path.py:217 | numpy.zeros gives an all-false grid of the mask's shape |
| MillPath.OrWindow | mill/path.py:222-225 | an in-place slice |= sets exactly the cells of the window whose shifted partner is set, and leaves the rest |
| MillPath.FloorSqrt | mill/path.py:219 | int(sqrt(v)) is the integer square root |
| MillPath.Reach | mill/path.py:219 | the half-width at row offset t is the largest x with x² + t² within radius² |
| MillPath.ReachBounds | mill/path.py:218-221 | the half-width never exceeds int(radius) and shrinks away from the centre row, so the widening loop only ever grows |
| MillPath.ReachIff | mill/path.py:218-219 | at row offset dy the columns within the half-width are exactly the disc's |
| MillPath.HSpanIff | mill/path.py:220-223 | a cell of the widened row is set exactly when some cell within the current amount to its left or right is set in the mask |
| MillPath.VSpanIff | mill/path.py:218-225 | after the rows from int(radius) down to t, a cell is set exactly when some set mask cell lies at a disc offset with row distance at least t |
| MillPath.Widen | mill/path.py:220-223 | the widening loop ORs the mask shifted left and right by each further amount, up to the target |
| MillPath.RowPass | mill/path.py:224-225 | the two row passes for offset y OR the widened mask into the result shifted up and down by y |
| MillPath.Dilate | mill/path.py:211-226 | a result cell is set exactly when some set mask cell lies within the radius of it |
| MillPath.DilatedContains | mill/path.py:211-226 | for radius > -1 the dilation contains the mask |
| MillPath.Complement | mill/path.py:234 | ~mask flips every cell |
| MillPath.ErodedIsUndilated | mill/path.py:233-234 | erosion is the complement of the dilated complement: a cell survives exactly when every cell within the radius is set |
| MillPath.Erode | mill/path.py:233-234 | a result cell is set exactly when every cell within the radius is set in the mask, so for radius > -1 the erosion lies inside the mask |
| MillPath.ResRound | mill/path.py:336-342 | int(res·v + 0.5) rounds half up for values of at least -0.5 and truncates toward zero below that |
| MillPath.ResStep | mill/path.py:348 | the finishing step is the rounded value, but at least one unit |
| MillPath.Next | mill/path.py:380 | (i + 1) % len(points) is a valid index |
| MillPath.Closeness | mill/path.py:382 | each term of the drill score lies in (0, 1] and is 1 exactly at an earlier drill point |
| MillPath.DrillScore | mill/path.py:382 | the drill score lies between 0 and the number of drill points, and is positive when there is any |
| MillPath.DrilledScoresHigh | mill/path.py:382 | a point already drilled scores at least one |
| MillPath.TravelScore | mill/path.py:402 | the travel score is a squared distance: never negative, and zero exactly at the last position |
| MillPath.ChosenStep | mill/path.py:381-387 | one candidate point keeps the scan's invariant, replacing the best only on a strictly smaller score |
| MillPath.ChosenDone | mill/path.py:379-387 | after the scan the best score is at most every candidate's score |
| MillPath.ScanEdge | mill/path.py:381-387 | the inner loop over one edge's points keeps the scan invariant |
| MillPath.ChooseStart | mill/path.py:376-387 | the chosen start is the first point of least score over every edge's line points, with best the index after its edge; with no score below 1e30 it stays points[0] |
| MillPath.StartContour | mill/path.py:376-389 | the contour becomes the best start followed by the points rotated to begin after its edge |
| MillPath.ContourMoves | mill/path.py:416-424 | a fast move to tool-up and to the plunge height, one slow move per point at depth z, a slow return to the start and a fast retract |
| MillPath.ContourMovesCut | mill/path.py:416-424 | every slow move is at the cutting depth and the slow moves form a closed loop |
| MillPath.ResetMove | mill/path.py:412-414 | the z-reset move is fast and at the z-reset height |
| MillPath.Rotated | mill/path.py:389-408 | the rotated contour starts at the chosen point and holds every original point exactly once after it |
| MillPath.Miller.constructor | mill/path.py:360-366 | a new miller has an empty path, no drill points and a zero cut count |
| MillPath.Miller.MoveTo | mill/path.py:368-369 | move_to appends one entry to the path |
| MillPath.Miller.CutFrom | mill/path.py:416-424 | the contour's moves are appended to the path |
| MillPath.Miller.CutContour | mill/path.py:371-424 | an exterior contour starts at the point farthest from earlier drill points (which it records); otherwise, with a path, at the point nearest the last position; the cut count grows by one, and every zreset_per-th cut first homes z |
| Profiles.NewProfile | demakein/profile.py:7-12 | a profile keeps the given positions and low values; without a high list its high values are the low values |
| Profiles.BisectLeft | demakein/profile.py:19 | `bisect_left`: the index lies in [0, \|s\|], the entry there is at least x and the entry before it is below x |
| Profiles.BisectLeftBelow | demakein/profile.py:19 | every entry before the bisection point is below x |
| Profiles.BisectLeftAt | demakein/profile.py:19 | in a sorted list the bisection point is the one index whose left neighbour is below x and whose entry is at least x |
| Profiles.Start | demakein/profile.py:34-36 | the start is a breakpoint and, for sorted positions, no breakpoint lies before it |
| Profiles.End | demakein/profile.py:38-40 | the end is a breakpoint and, for sorted positions, no breakpoint lies after it |
| Profiles.Maximum | demakein/profile.py:42-44 | the maximum is one of the low or high values and no low or high value exceeds it |
| Profiles.EvalBetweenEntries | demakein/profile.py:14-28 | every value of the profile lies between some high value and some low value of its breakpoints |
| Profiles.EvalBounded | demakein/profile.py:14-28 | every value the profile takes, on either side, lies between its smallest and its largest breakpoint value |
| Profiles.EvalOutside | demakein/profile.py:15-18 | before the first breakpoint the value is low[0]; after the last it is high[-1] |
| Profiles.EvalAt | demakein/profile.py:19-23 | at breakpoint j the side flag selects high[j] or low[j] |
| Profiles.EvalIn | demakein/profile.py:19-28 | strictly between breakpoints j-1 and j the value is the linear interpolation from high[j-1] to low[j], hence between those two values |
| Profiles.NoHighIsContinuous | demakein/profile.py:7-28 | a profile built without a high list takes the same value on both sides everywhere |
| Profiles.Reversed | demakein/profile.py:86-89 | the reversed profile is well formed (equal-length lists) |
| Profiles.ReversedSorted | demakein/profile.py:86-89 | reversing increasing positions gives increasing positions |
| Profiles.ReversedStrictlySorted | demakein/profile.py:86-89 | reversing strictly increasing positions gives strictly increasing positions |
| Profiles.ReversedEval | demakein/profile.py:86-89 | for strictly increasing positions the reversed profile at x on one side is the original at -x on the other side, everywhere |
| Profiles.ReversedTwice | demakein/profile.py:86-89 | reversing twice gives back the same positions, low and high values |
| Profiles.Moved | demakein/profile.py:91-93 | moving keeps the low and high values and a well-formed profile |
| Profiles.MovedEval | demakein/profile.py:91-93 | the moved profile at x is the original at x - offset, on either side |
| Profiles.AppendedWith | demakein/profile.py:95-101 | the joined profile is well formed with one breakpoint fewer than the two together (the shared joint) |
| Profiles.AppendedWithEvalLeft | demakein/profile.py:95-101 | before the joint, and at it on the low side, the joined profile is the first profile |
| Profiles.AppendedWithEvalRight | demakein/profile.py:95-101 | after the joint, and at it on the high side, the joined profile is the second profile moved to start at the first's end |
| Profiles.InsideIndicesExact | demakein/profile.py:75-79 | the entries `clipped` keeps are exactly those strictly inside (start, end), each once, in their original order |
| Profiles.Clipped | demakein/profile.py:68-84 | the clipped profile is start, the kept inner breakpoints, end; at start it takes the old high-side value and at end the old low-side value |
| Profiles.ClippedStrictlySorted | demakein/profile.py:68-84 | for strictly increasing positions and start < end, the clipped positions increase strictly and every inner one lies inside (start, end) |
| Profiles.StepCount | demakein/profile.py:116 | each segment is cut into at least one piece |
| Profiles.StepSegment | demakein/profile.py:112-118 | the inner loop yields the evenly spaced interior points of segment i, one fewer than the piece count |
| Profiles.MidpointValues | demakein/profile.py:122 | one value per piece: the profile's value at the piece's midpoint |
| Profiles.StepPositions | demakein/profile.py:108-120 | the position loop produces the stepped positions, at least two of them |
| Profiles.AsStepped | demakein/profile.py:103-129 | the stepped profile is well formed, piecewise constant (each high equals the next low) and each piece holds the original's value at its midpoint |
| Profiles.AsSteppedKeepsBreakpoints | demakein/profile.py:108-120 | every original breakpoint is among the stepped positions |
| Profiles.SubStepsInside | demakein/profile.py:112-118 | the sub-step points of an increasing segment increase strictly and lie strictly inside it |
| Profiles.AsSteppedStrictlySorted | demakein/profile.py:108-120 | for strictly increasing breakpoints the stepped positions increase strictly |
| Profiles.StepConstant | demakein/profile.py:122-129 | a stepped profile is constant strictly between consecutive breakpoints, on both sides |
| Profiles.ConstantEval | demakein/profile.py:49-50 | a number used as an operand has its value everywhere |
| Profiles.InsertSorted | demakein/profile.py:51 | inserting into a strictly increasing list keeps it strictly increasing and adds exactly the new value |
| Profiles.SortedSet | demakein/profile.py:51 | `sorted(set(xs))` is strictly increasing and holds exactly the values of xs |
| Profiles.StrictlySortedUnique | demakein/profile.py:51 | two strictly increasing lists with the same values are equal, so `sorted(set(...))` is determined |
| Profiles.Morph | demakein/profile.py:46-66 | `morph` (and `max_with`, `min_with`, `+`, `-` through their operators): breakpoints exactly where either operand has one, strictly increasing |
| Profiles.MorphValues | demakein/profile.py:52-53 | at each of the morph's breakpoints its low and high values are the operator applied to both operands' values on that side |
| Profiles.MorphAtBreakpoint | demakein/profile.py:46-54 | at every breakpoint of either operand the morph is the operator applied to the operands' values, on either side |
| Profiles.MorphPositions | demakein/profile.py:51 | the morph's positions are `sorted(set(self.pos + other.pos))` |
| Profiles.MorphBefore | demakein/profile.py:46-54 | before every breakpoint the morph is the operator applied to both operands |
| Profiles.MorphAfter | demakein/profile.py:46-54 | beyond every breakpoint the morph is the operator applied to both operands |
| Profiles.MakeProfile | demakein/profile.py:283-296 | one breakpoint per item, in order; a two-field item has equal low and high; with only two-field items high equals low |
| RasterOld.SliceBound | mill/old/raster-old.py:51 | a slice bound as numpy reads it: within [0, n], a bound in [0, n] is kept and a negative bound down to -n counts from the end |
| RasterOld.OffsetSlicesPair | mill/old/raster-old.py:37-51 | for \|x\| <= sx and \|y\| <= sy both windows are (sy-\|y\|) by (sx-\|x\|) and inside the array, and the second starts at the first's start moved by (y, x) |
| RasterOld.OffsetSlicesTooWide | mill/old/raster-old.py:37-51 | for sx < x < 2·sx the two column windows differ in size: the first wraps round through a negative bound, the second is empty |
| RasterOld.Steps3 | mill/old/raster-old.py:76 | steps is the largest of the three absolute axis deltas |
| RasterOld.Line3Ends | mill/old/raster-old.py:75-88 | the first point is the start and point number steps is exactly the end (a single point when they coincide) |
| RasterOld.Line3Adjacent | mill/old/raster-old.py:75-88 | consecutive points of a 3-D line differ by at most one on each axis |
| RasterOld.LinePoints3 | mill/old/raster-old.py:75-88 | the loop returns the steps + 1 rounded points of the line, as the specification function gives them |
| RasterOld.UnseenFacts | mill/old/raster-old.py:261-266 | the items `good` appends are not in seen, pairwise distinct and drawn from the offsets, and together with seen they cover every offset |
| RasterOld.AppendUnseen | mill/old/raster-old.py:261-266 | appending the unseen items to a duplicate-free todo whose items are seen keeps todo duplicate-free and makes its items seen plus every offset |
| RasterOld.Searcher.constructor | mill/old/raster-old.py:243-245 | blat and ext are the circle points of r and r_ext |
| RasterOld.Searcher.Reset | mill/old/raster-old.py:247-250 | todo is a copy of blat, seen is its set, the cursor is 0, and the invariant (seen == set(todo), no duplicates, cursor in range) holds |
| RasterOld.Searcher.Next | mill/old/raster-old.py:255-259 | yields todo[i] and advances the cursor, or reports StopIteration at the end; the invariant is kept |
| RasterOld.Searcher.Good | mill/old/raster-old.py:261-266 | todo grows by exactly the unseen offsets around (x, y), in order, seen grows by all of them, and the invariant is kept |
| RasterOld.Lagrange | mill/old/raster-old.py:552-562 | Lagrange's identity for the dot products move_to computes: l1·l2 - dot² is the squared length of the cross product |
| RasterOld.ContinuesParallel | mill/old/raster-old.py:560 | a merged move (dot >= 0 and dot² == l1·l2) is parallel to the previous one: their cross product is zero |
| RasterOld.ReversalNotMerged | mill/old/raster-old.py:560 | a move straight back along the previous one is never merged |
| RasterOld.Extended | mill/old/raster-old.py:552-567 | the new path ends with (point, fast) and is the old path plus that entry, or, only when it had two or more entries, the old path without its last entry plus that entry |
| RasterOld.ExtendedNoStall | mill/old/raster-old.py:552-567 | a path with no two consecutive entries at the same position keeps that property under move_to, also when the last entry is dropped |
| RasterOld.Raster.constructor | mill/old/raster-old.py:352-353 | the position is (edge clearance, edge clearance, tool-up) and the path is that single fast entry |
| RasterOld.Raster.MoveTo | mill/old/raster-old.py:534-567 | a move to the current position changes nothing; otherwise the path is extended as move_to does and the position becomes the point; the path keeps ending at the position with no stalls |
| Selection.TermSpecification | demakein/selection.py:6-8 | without '=' the term itself; otherwise the '='-free text before the first '=' |
| Selection.TermName | demakein/selection.py:10-12 | without '=' the term itself; otherwise a proper suffix of the term |
| Selection.TermParts | demakein/selection.py:6-12 | a term with '=' is its specification, '=', then its name |
| Selection.NameLen | demakein/selection.py:25-27 | a name is the longest run at the front that holds none of `[]:/^` |
| Selection.Combine | demakein/selection.py:45-50 | ':' is and, '/' is or, and '^' is exclusive or |
| Selection.ParseAtom | demakein/selection.py:18-29 | a parsed bracket or name leaves a proper suffix of the input |
| Selection.ParseUnary | demakein/selection.py:31-38 | a parsed unary term leaves a proper suffix of the input |
| Selection.ParseExpr | demakein/selection.py:40-51 | a parsed expression leaves a proper suffix that does not start with an operator |
| Selection.ParseChain | demakein/selection.py:42-51 | the operator loop leaves a suffix that does not start with an operator |
| Selection.Matches | demakein/selection.py:15-60 | the empty expression matches nothing; any other succeeds exactly when it parses and leaves nothing over, and the error for leftover text quotes the leftover text twice |
| Selection.ScanName | demakein/selection.py:25-27 | the scanning loop stops at the end of the name |
| Selection.Parse2 | demakein/selection.py:18-29 | the recursive-descent procedure computes the atom parse, errors included |
| Selection.Parse1 | demakein/selection.py:31-38 | the procedure computes the unary parse, errors included |
| Selection.Parse | demakein/selection.py:40-51 | the procedure, with its operator loop, computes the expression parse, errors included |
| Selection.AtomRoundTrip | demakein/selection.py:18-29 | a printed atom parses back to its value and leaves the text after it |
| Selection.UnaryRoundTrip | demakein/selection.py:31-38 | a printed atom with or without '-' parses back to its value, negated by the '-' |
| Selection.OpsRoundTrip | demakein/selection.py:42-50 | the operator loop reads printed operators back and applies them left to right |
| Selection.ChainRoundTrip | demakein/selection.py:40-51 | a printed chain parses back to its value and leaves the closing text |
| Selection.MatchesRoundTrip | demakein/selection.py:15-60 | `matches` of a printed expression is its value: '-' binds to one atom, brackets group, operators apply left to right |
| Selection.MatchesUnclosed | demakein/selection.py:20-22 | a missing ']' is a parse error |
| Selection.MatchesLeftover | demakein/selection.py:56-59 | a complete expression followed by `]` fails with "Could not parse: ], don't know what to do with: ]" |
| Selection.KeyTrichotomy | demakein/selection.py:76-81 | any two sort keys are ordered one way, equal, or ordered the other way |
| Selection.SortKey | demakein/selection.py:76-79 | the key has one entry per sort part: 0 where the tags match that part, 1 where they do not |
| Selection.InsertStableOrdered | demakein/selection.py:81 | inserting an entry that came later keeps the list ordered by key, then original position, and adds exactly that entry |
| Selection.SortStableOrdered | demakein/selection.py:81 | the stable sort orders by key then original position and is a permutation of its input |
| Selection.Select | demakein/selection.py:68-69 | every item's tags parse, the kept items all match the selection, and every matching item is kept |
| Selection.SelectConcat | demakein/selection.py:68-69 | selecting from a concatenation selects from each part and concatenates: the kept items are in input order |
| Selection.SelectOne | demakein/selection.py:68-69 | one item is kept once when it matches, dropped when it does not, and its parse error is the error |
| Selection.SelectDropsOnly | demakein/selection.py:68-69 | selecting only drops items: the kept ones, with their repetitions, all come from the input |
| Selection.Entries | demakein/selection.py:76-81 | each selected item is paired with its own key and its position |
| Selection.SelectAndSortSpec | demakein/selection.py:63-83 | the result is ordered by key and, for equal keys, by original order; its items are the selected items as a multiset, each entry's key is its item's sort key, and each entry's pos is the index of its item among the selected items |
| Selection.SortedEntriesKeyed | demakein/selection.py:75-81 | every entry of a permutation of the keyed selected items carries its item's sort key and that item's index among the selected items |
| Selection.LastClose | demakein/selection.py:91 | the last '}' of the text, or none when the text has no '}' |
| Selection.BracePrefix | demakein/selection.py:91 | a match splits the part into '{', a weight text, '}', and a '}'-free rest; no match when the part does not start with '{' or has no later '}' |
| Selection.PartWeightPlain | demakein/selection.py:89-96 | a part without a "{w}" prefix weighs 1.0 when it matches and 0.0 when it does not, and is an error exactly when it does not parse |
| Selection.Weight | demakein/selection.py:86-97 | the summing loop adds up the part weights and stops at the first error |
| Selection.ErrorStays | demakein/selection.py:88-97 | once a part fails, the weight is that error whatever follows |
| Selection.WeightCountsMatches | demakein/selection.py:86-97 | without "{w}" prefixes the weight is the number of parts that match |
| Send.FormatZ | mill/send.py:33 | the move text starts with 'Z' |
| Send.ParseFields | mill/send.py:28 | when every field is an integer the result holds one parsed value per field, in order |
| Send.ShiftCommand | mill/send.py:23-33 | a command not starting with 'Z' is kept as it is; a move that succeeds stays a move |
| Send.ShiftFields | mill/send.py:29-33 | the offset fields are checked against the work area and written back as a move |
| Send.ParseFormatZ | mill/send.py:28-33 | a move written by 'Z%d,%d,%d' reads back as its three coordinates |
| Send.ShiftMove | mill/send.py:28-33 | a canonical move is shifted exactly when the offset position lies inside the work area (0 ≤ x < 200·40, 0 ≤ y < 150·40), and then becomes the move to that position |
| Send.Shift | mill/send.py:21-34 | shift succeeds exactly when every command does, and then shifts each command in order; the first failing assertion is an error |
| Send.SplitCommands | mill/send.py:91-92 | at least one command results, none containing ';' |
| Send.SplitCommandsCover | mill/send.py:91 | joined with ';' the pieces give back the stripped text without its trailing ';'s |
| Send.Offset | mill/send.py:105 | int(v·40) truncates toward zero: an offset in mm as whole 1/40 mm steps |
| Send.ShiftBody | mill/send.py:96-106 | no '!MC1' is a ValueError; otherwise the commands before the first '!MC1' are kept and the rest shifted, failing exactly when one of them fails |
| Send.Run | mill/send.py:90-106 | the file's commands before the first '!MC1' are sent as they are and the rest shifted by the offset in 1/40 mm |
| Send.MotorOnUnchanged | mill/send.py:22-25 | the '!MC1' command itself is not a move, so shifting leaves it unchanged |
| Send.BodyEnd | mill/send.py:99-101 | the body ends at the first command from start that begins with '!', or at the end of the list |
| Shape.NameCounter.MakeName | demakein/shape.py:25-30 | a given name is returned unchanged and the counter kept; otherwise the counter goes up by one and the name is "obj" followed by the new count |
| Shape.GeneratedNamesDistinct | demakein/shape.py:26-30 | names generated for different counter values differ |
| Shape.EdgeAt | demakein/shape.py:59-68 | shoelace term i pairs point i with the point before it, the first term pairing the last point with the first |
| Shape.Area | demakein/shape.py:59-68 | the accumulator loop, with the previous point carried in `last`, computes half the shoelace sum |
| Shape.ExtentEncloses | demakein/shape.py:92-97 | every point lies inside the extent and each of its four limits is reached by some point |
| Shape.EnclosesUnique | demakein/shape.py:92-97 | limits that enclose the loop in that sense are exactly its extent |
| Shape.Scale2 | demakein/shape.py:102-103 | each point has x times fx and y times fy |
| Shape.Scale | demakein/shape.py:99-100 | each point has both coordinates times the factor |
| Shape.Offset | demakein/shape.py:114-115 | each point is translated by (dx, dy) |
| Shape.FlipX | demakein/shape.py:117-118 | the points in reverse order with x negated |
| Shape.FlipY | demakein/shape.py:120-121 | the points in reverse order with y negated |
| Shape.ScaleIsScale2 | demakein/shape.py:99-103 | `scale(f)` is `scale2(f, f)` |
| Shape.AreaScale2 | demakein/shape.py:59-68 | scaling x by fx and y by fy scales the signed area by fx·fy |
| Shape.AreaScale | demakein/shape.py:99-100 | scaling by f scales the signed area by f², the fact `with_area` relies on |
| Shape.AreaOffset | demakein/shape.py:114-115 | translating a loop leaves its signed area unchanged |
| Shape.AreaFlipX | demakein/shape.py:117-118 | mirroring in x and reversing keeps the signed area |
| Shape.AreaFlipY | demakein/shape.py:120-121 | mirroring in y and reversing keeps the signed area |
| Shape.ExtentOffset | demakein/shape.py:92-115 | translating a loop translates its extent |
| Shape.RectangleArea | demakein/shape.py:190-196 | the rectangle's signed area is (x1 - x0)(y1 - y0), positive exactly when its corners run counter-clockwise |
| Shape.SquareArea | demakein/shape.py:162-168 | `square(s)` is the rectangle from (s, s) to (-s, -s), with area 4s² |
| Shape.SideFacesOk | demakein/shape.py:306-319 | the two triangles of each side quad index vertices of the rings and, for rings of two or more points, have three distinct corners |
| Shape.CapFacesOk | demakein/shape.py:321-324 | the two fan triangles at each point of the end rings index the ring vertices and their centroid and have distinct corners |
| Shape.ExtrusionVerts | demakein/shape.py:294-302 | ring i is shape i lifted to height zs[i] and stored at i·n + j, followed by the two end centroids |
| Shape.ExtrusionSides | demakein/shape.py:305-319 | two triangles per quad between consecutive rings, every one on ring vertices |
| Shape.ExtrusionEnds | demakein/shape.py:321-324 | two fan triangles per ring point, closing both ends |
| Shape.Extrusion | demakein/shape.py:290-326 | nz·n + 2 vertices, 2·n·nz triangles, every triangle indexing existing vertices |
| Shape.Block | demakein/shape.py:328-347 | eight corners, the top four pushed out by the ramp, and twelve triangles, two on each of the six sides |
| Shape.Insert | demakein/shape.py:358-361 | inserting into a strictly increasing list keeps it strictly increasing and adds exactly the value |
| Shape.SortedPositions | demakein/shape.py:358-361 | the breakpoints of all the profiles, each once, in increasing order |
| Shape.Lows | demakein/shape.py:364 | one diameter per profile |
| Shape.Highs | demakein/shape.py:365 | one diameter per profile |
| Shape.ExtrudeProfile | demakein/shape.py:350-374 | the positions are every breakpoint once, increasing; the heights are non-decreasing, one per cross-section; each position appears twice where a profile steps there and once otherwise |
| Shape.ZsUpToBounded | demakein/shape.py:363-372 | every height emitted so far is one of the positions seen so far |
| Shape.ZsUpToSorted | demakein/shape.py:363-372 | the heights are non-decreasing |
| Shape.ZsUpToCount | demakein/shape.py:363-372 | each position is emitted twice where a profile steps there and once otherwise (the first and last once) |
| Shape.SectionsMatchZs | demakein/shape.py:363-372 | there is one cross-section per height |
| Svg.Mirrored | demakein/svg.py:91-92 | one point per input point, x scaled by the factor and y negated |
| Svg.ContinuousProfilePoints | demakein/svg.py:84-90 | a profile without steps is drawn through one point per breakpoint: its value and its position |
| Svg.StepDrawnTwice | demakein/svg.py:86-90 | a step at an interior breakpoint is drawn as two points at the same position, the low value then the high value |
| Svg.ProfilePoints | demakein/svg.py:85-90 | the points loop of `profile` yields exactly the drawn point list of the profile |
| Svg.SVG.constructor | demakein/svg.py:22-27 | a new drawing has no bounding box, no commands and nothing required |
| Svg.SVG.Require | demakein/svg.py:46-54 | the first point makes a degenerate box at it, later points widen the box to include them; the box stays the exact bounding box of every required point |
| Svg.SVG.RequireAll | demakein/svg.py:65 | requiring a list of points requires each in turn and keeps the exact bounding box; a box exists once any point was required |
| Svg.SVG.DrawCircle | demakein/svg.py:56-62 | the circle's two square corners are required and one circle command is appended |
| Svg.SVG.Line | demakein/svg.py:64-72 | every point is required and one polyline command is appended |
| Svg.SVG.DrawPolygon | demakein/svg.py:74-82 | every point is required and one polygon command is appended |
| Svg.SVG.DrawProfile | demakein/svg.py:84-92 | the profile's points are drawn twice, mirrored about the axis, as two polylines whose points are all required |
| Svg.SVG.DrawText | demakein/svg.py:94-102 | the text's extent (8 high, 6.4 per character) is required, one text command appended, and the next line's y is 8 units up |
| Svg.SVG.PageLayout | demakein/svg.py:29-35 | the page is the box plus a pad on every side, the pad being a tenth of the larger extent |
| Svg.SVG.PageContainsRequired | demakein/svg.py:29-35 | after translation every required point lies on the page at least the pad from each edge |
| Workspace.NormalizeAppendPlain | demakein/workspace.py:92 | normalising a path whose tail holds only ordinary components keeps that tail unchanged after the normalised prefix |
| Workspace.NormalizeUps | demakein/workspace.py:92 | leading `..` components of a relative path survive normalisation |
| Workspace.CommonPrefix | demakein/workspace.py:89-91 | the loop stops at the length of the longest common prefix of the two component lists |
| Workspace.PathAsRelativePath | demakein/workspace.py:80-92 | the relative path is one `..` per component of the working directory past the common prefix, then the rest of the target, and it is relative; the root directory is the single empty component |
| Workspace.RelativePathWalk | demakein/workspace.py:80-92 | following the relative path from the working directory reaches the target: the two conversions are inverse |
| Workspace.RelativePathAsPath | demakein/workspace.py:94-98 | an absolute path is returned unchanged; a relative one is joined onto the working directory and keeps that directory's absoluteness |
| Workspace.RelativePathAsPathPlain | demakein/workspace.py:94-98 | a relative path of ordinary components lands directly below the normalised working directory |

## Left out

- Acoustics in demakein/design.py are not modelled, because they need complex numbers, cos/sin, pow, log, atan2 or sqrt. This covers `pipe_reply`, the junction replies, the flange and hole length corrections, `resonance_score`, `score`, `wavelength`, the frequency factor of `fqc`, the log2 of `describe` (only its naming half is modelled), and the probe loop of `true_wavelength_near` (only the chord step and the fallback are).
- Design.Unpacked: the hole diameters stay as their state-vector fractions. signed_sqrt and the sin/sqrt hole geometry (inner hole positions, hole lengths) are not modelled, and neither are the curved profiles built from the kinks.
- Instruments.Instrument.Prepare: the flange correction is a parameter, because it uses pow. An action records its length and diameters instead of a reply function.
- Instruments.Instrument.Prepare: requires at least two inner breakpoints and cone_step > 0, because `as_stepped` raises IndexError on a one-point profile and divides by cone_step.
- Profiles.AsStepped: requires max_step > 0 and at least two breakpoints. The source raises there (ZeroDivisionError, IndexError), and a negative max_step is not modelled.
- Profiles: `curved_profile`, `solve` and `cornu_yx` are left out (trigonometry, numeric search, an external curve library). `max_with`, `min_with`, `+` and `-` are instances of `morph` and are covered through Profiles.Morph.
- Optimize.Improve: models only the serial path with workers == 1. The worker processes, `show_status`, the 20-second monitor and the printing are left out. Random draws are inputs, and Python's normalvariate is the standard draw times the deviation.
- Optimize.MakeUpdate: the weight deviation (1 + 2·random) / sqrt(n) is folded into the drawn weights, because it needs sqrt.
- Legion: processes, threads, the manager proxies, `job`, `Stage`, `future`/`thread_future`, `parallel_*`, the make/timestamp machinery and the `run_*` entry points are left out (concurrency, subprocesses, persistence).
- Legion: the lock is not modelled, and each method is one atomic step. threading.Event is a ticket, and setting it appends the ticket to `signalled`.
- Legion.Coordinator.GetFuture: an undelivered future answers WouldBlock instead of releasing a core, waiting and reacquiring one.
- Legion.Coordinator.constructor: the cpu count and the default job and kill commands are parameters (platform queries). `set_status` is left out (terminal title output).
- Selection: a name atom is read as the source's regular expression reads it. Python's `.` not matching a newline is not modelled.
- Config: `colored`, `wrap`, `describe_shell` and the help text formatting are left out (terminal output). The Configurable metaclass is left out, and `execute` is modelled as its command splitting, without running anything.
- Geom: `mag`, `unit`, `divided`, `sqrt`, `compose`, `solve`, `inverse`, `newtonoid`, `least_squares`, `Path` and `path()` are left out (sqrt and Newton iteration).
- Geom.Shifted: the identity Eval(Shifted(f, i), t) == (t·(1 − t))^i · Eval(f, t) for every t is not proved. Only the structural laws and the values at t = 0 and t = 1 are proved.
- Geom: polynomial coefficients are reals. Python's mix of ints, floats and vectors as coefficients is not modelled.
- Geom.Multiplied: proved for its length, its leading term and its exact values at t = 0 and t = 1, not as the full product identity.
- Shape: `circle`, `chorded_circle`, `squared_circle`, `rounded_rectangle`, `lens`, `Loop.circumpherence` and `with_area` are left out (trigonometry, sqrt).
- Shape.Extrusion: loop centroids are parameters, and the CGAL `create` calls, `make_segment`, `make_formwork`, `frame_extrusion` and `path_extrusion` are left out (foreign mesh library).
- Shape.ExtrudeProfile: each cross-section is returned as its diameter list rather than a polygon.
- Mask: `open` and `close` are compositions of the modelled dilate and erode. `trace`, `save` and `write_pbm` are left out (potrace subprocess, files).
- Mask.MakeMask: coordinates are reals without float rounding, and the int32 wrap-around of the count array is not modelled.
- Packing.Pack.Valid: the polygon intersection test is CGAL's and is a parameter. `Packable`, the solid construction of `render`, `pack()`, `deconstruct` and `cut_and_pack` are left out (foreign mesh library).
- Packing.FirstBlocker, Packing.Bollards: use the corrected fourth bollard test (Packing.ClassifyClear), not the test as written at demakein/pack.py:165. The as-written test is Packing.AsWrittenMissesOverlap (see Findings).
- Packing.Bollards: requires bit_diameter >= 0 and a non-negative item height. Without them the source's worklist need not shrink.
- Make.AllCuts, Make.GetCuts, Make.MakeWorkpieces: use the corrected upper bound of the clear space above a hole (the next hole's diameter), not demakein/make.py:152's `hole_diameters[hole]`. The as-written bound is Make.UpperBoundAsWrittenTooClose (see Findings).
- Make: the solid construction in `segment` (sockets, CSG, rotation, saving) is left out. Pieces are described by their z ranges and orientation. `Miller`, `make_instrument` and `cut_and_pack` are left out.
- Cgal: `rotation_matrix` (trigonometry), the `Shape`/`Shape_2` methods and the polyhedron builder are left out (foreign CGAL calls).
- Svg: the text of each SVG element and the file writing are left out. Commands are kept as values.
- Workspace: paths are lists of components. The object, pickle and JSON file I/O is left out.
- MillPath.Dilate, MillPath.Erode: the local numpy arrays are values, not arrays updated in place. Both require int(radius) to be at most the mask's height and width. A larger radius makes a slice bound such as `sx-dilation_amount` or `sy-y` negative (mill/path.py:222-225). numpy then pairs operands of different shapes, and `|=` raises ValueError for masks at least two cells wide. That error path is not modelled. A mask one cell wide or high gives empty slices and no error there, and the requires excludes that case as well.
- MillPath.Dilate: int(sqrt(…)) is the exact integer square root, and float rounding of the square root is not modelled.
- MillPath.Miller.CutContour: states that its start has the least score, not that it is the first such point on ties. MillPath.ChooseStart states the first-on-ties choice.
- MillPath.Miller.CutContour: point_score is a parameter. It requires zreset_per != 0, where the source raises ZeroDivisionError.
- MillPath: `contours` (OpenCV), `raster`, `read_stl`, `unmill`, `ball_mill`, `cut_inmask`, `cut_raster`, `get_commands` (sqrt velocities) and saving are left out.
- Send: the serial port `execute` and the printing are left out, and the result is the command list that would be sent.
- Decode.Mover.Goto: smart mode is left out (sqrt). 'V%.1f' rounds to tenths half up, and float ties are not modelled.
- Decode.Mover.constructor: requires vertical_v != 0, where the source raises ZeroDivisionError.
- Decode: the grouping of consecutive moves into actions in `do_it` (mill/old/decode.py:271-277) is not modelled. Actions are built from given motion lists.
- Decode: `do_it`'s file loading, plotting, `add_twitches` (random, sqrt) and `execute` (serial port) are left out. `shift` is the same code as in mill/send.py and is modelled by the Send members.
- RasterOld.Searcher.Next: requires the cursor to be at most the length of todo, which the source's own calls always meet.
- RasterOld: `raster`, `read_stl`, `unmill`, `ovoid_mill` and the top-level script are left out (STL and numpy pipelines, files). `line_points2` and `circle_points` are the same code as in mill/path.py and are modelled by the MillPath members.
- Art.UpscanView: numpy passes `_upscan` a view. The model copies the row or column in, runs `_upscan` on a one-dimensional array, and writes the result back, instead of writing through the view.
- Art: the test `fi == inf` is never true on the integer arrays the transform uses. `bulge`, `centroid`, `load_mask` and `save_raster` are left out (PIL, sqrt, files).
- Cgal.Extent3, Cgal.Create: Extent3 requires a non-empty point list, where the source's min([]) raises ValueError, and Create requires every triangle index to be in range, where the source raises IndexError.
- Config.LooksLikeFlag: Python's `$` also matches just before a trailing newline. The model rejects a flag ending in a newline.
- Profiles.BisectLeft: agrees with Python's bisect_left only on sorted lists, which are the only lists the source passes it.
- Python's int() on text with surrounding whitespace is not modelled. Text is parsed as an optional sign and digits.

## Findings

| source | as written | input that shows it | evidently intended | confidence | as-written member | corrected member |
|---|---|---|---|---|---|---|
| demakein/pack.py:165 | the fourth bollard test is `low < y_low < high <= y_high`, so an item whose span starts exactly at the interval's start and ends inside it passes none of the tests, and the interval is kept as clear | interval (0, 10), item span [0, 5] | `low <= y_low < high <= y_high`, the mirror image of the third test: keep only the part above the item | not executed | Packing.AsWrittenMissesOverlap | Packing.ClassifyClear |
| demakein/make.py:152 | the upper end of the clear space above hole h subtracts twice the diameter of hole h, not of hole h+1 (and, for h = -1, of the last hole) | holes at 10 and 50 with diameters 2 and 8: the cut may go at 46, 4 below a hole of diameter 8; holes at 30 and 60 with diameters 4 and 10, h = -1: the bound is 10 instead of 22 | `hole_positions[hole+1] - 2*hole_diameters[hole+1]`, mirroring the lower bound | not executed | Make.UpperBoundAsWrittenTooClose | Make.CutClear |
