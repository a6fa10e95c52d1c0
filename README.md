# JSVG core in Dafny

JSVG turns an SVG document into a tree of editable "drawables" that can be
redrawn on a canvas. This project models the three pieces of its logic that
do not touch the canvas. It proves what each piece promises.

- **The path-data scanner** (`PathParser`, docs/JSVG/path-parser.js). It reads
  the `d` attribute of a `path` element and returns a flat list of absolute
  points. It handles moveto, lineto, horizontal and vertical lineto and
  closepath. For arcs and curves it keeps only the end point of each group
  of arguments.
  - Module `PathParsing`: a class `PathParser` with the source's fields
    (`pathString`, `counter`, `currPoint`, `initPoint`, `allPoints`).
    Each method is proved against a function over a `Scan` record of those
    fields.
  - The tokeniser (`getParams`, `handleRounding`) is pure functions.
    The regex replace `/(\d+)(-)(\d+)/g` is written as a left-to-right
    scanner, `Respace`.
  - Module `PathExamples` (path_examples.dfy): "M0 0 L10 10" parsed end to
    end, through `getParams`, the dispatch and the handlers.
- **The scene graph** (docs/JSVG/drawables.js).
  - Module `Styles`: inline-style and presentation-attribute parsing into
    the initial values, and accessor definition.
  - Module `Geometry`: running min/max, the group's 2x3 matrices, and the
    reference-object arithmetic.
  - Module `Nodes`: one drawable as a value, with its two-layer property
    store, its bounds, its construction from an element, and the style
    cascade.
  - Module `SceneGraph`: a class `Scene` that owns the table of drawables.
    Its methods are the source's mutating operations: constructors, setters,
    `restoreState`, memoising bound getters, `findPoint`, `setReference`,
    `setChildReference`, `_propagateProperties`, `find` and `findAll`.
    A drawable refers to another by its index in the table.
- **The tree builder** (`traverse`, JSVG/svg-parser.js), module `TreeBuilder`.
  - It works over an element tree (tag, attributes, children).
  - The queue-and-divider loop is a generic function `Run`, with the two
    constructors as parameters.
  - `Run` is proved equal to plain recursive descent whenever no empty `g`
    is reached. The empty-group case is exposed by a concrete lemma: the
    empty group wraps all earlier results and they are kept as well.
  - `Traverse` is the imperative loop, building into a `Scene`.
- **JavaScript values** (module `JsValues`).
  - Numbers are `NaN | PosInf | NegInf | Fin(real)`, with JavaScript's
    `+ - * /`, `<`, `>`, truthiness and `||`.
  - Also modelled: `Math.min`/`Math.max` over lists, and `trim`, `split`,
    `indexOf` and `slice` with negative indices (`slice(-0)` is the whole
    array).

Presentation attributes override the inline style. The code applies them
second, which wins over any reading that inline style has priority. A name
given both ways is pushed twice onto `properties`. The second
`Object.defineProperty` then throws, because accessors defined without
`configurable` cannot be redefined. The model follows the code.

## Model

| member | source | states |
|---|---|---|
| JsValues.Or | docs/JSVG/drawables.js:151-154 | `a \|\| fallback`: a truthy number is kept; 0 and NaN give the fallback, so the result is never NaN and is truthy whenever the fallback is not 0 |
| JsValues.MathMin | docs/JSVG/drawables.js:506-507 | `Math.min(...xs)`: +Infinity for no values, NaN iff some value is NaN, otherwise one of the values and none is below it |
| JsValues.MathMax | docs/JSVG/drawables.js:528-529 | `Math.max(...xs)`: -Infinity for no values, NaN iff some value is NaN, otherwise one of the values and none is above it |
| JsValues.TrimStart | docs/JSVG/drawables.js:124 | the leading white space removed: a suffix of the text, everything cut is white space, and it does not start with white space |
| JsValues.TrimEnd | docs/JSVG/drawables.js:124 | the trailing white space removed: a prefix, everything cut is white space, and it does not end with white space |
| JsValues.TrimIsInnerSlice | docs/JSVG/drawables.js:124 | `trim()` returns an inner slice with only white space cut away on either side, and the slice neither starts nor ends with white space |
| JsValues.TrimIdempotent | docs/JSVG/drawables.js:134 | trimming twice is trimming once |
| JsValues.Split | docs/JSVG/drawables.js:118 | `split(sep)` yields at least one part and no part holds the separator |
| JsValues.SplitSingle | docs/JSVG/drawables.js:122 | the split has exactly one part iff the separator does not occur, and that part is the whole text |
| JsValues.JoinSplit | docs/JSVG/drawables.js:118 | joining the parts of a split with the separator gives back the text |
| JsValues.SplitJoin | docs/JSVG/drawables.js:118 | splitting a join of separator-free parts gives back the parts |
| JsValues.IndexOf | docs/JSVG/path-parser.js:149 | `indexOf`: -1 iff absent, otherwise the first position holding the value |
| JsValues.SliceIndex | JSVG/svg-parser.js:22-24 | the index `slice` uses: a non-negative index as is, a negative one counted from the end, clamped to 0 below and to the length above |
| Styles.InitiallyVisible | docs/JSVG/drawables.js:88-96 | `_setVisibility`: false only for "hidden" and "collapse"; its contract is stated by Nodes.OwnValuesVisible and Nodes.BuiltVisibility |
| Styles.MapAttr | docs/JSVG/drawables.js:132-140 | `_mapAttr`: a missing value throws, otherwise the trimmed (and for the two numeric styles parsed) value is stored and the name listed; stated per declaration by Styles.StyleEntryCases |
| Styles.StyleEntry | docs/JSVG/drawables.js:120-129 | one pass of the `_parseStyleAttr` loop; its cases (kept, throws, stored) are Styles.StyleEntryCases |
| Styles.InlineStyles | docs/JSVG/drawables.js:117-130 | `_parseStyleAttr` over the `;`-separated entries; its contract is Styles.InlineLastWins, Styles.InlineKeepsUndeclared, Styles.InlineTouchesOnlyStyles, Styles.InlineThrowsOnMissingValue and Styles.InlineListsName |
| Styles.PresentStyles | docs/JSVG/drawables.js:108-115 | `_getPresentStyle`; its contract is Styles.PresentationValues, Styles.PresentedKeepsNames and Styles.PresentedListsNames |
| Styles.HandleStyles | docs/JSVG/drawables.js:98-106 | `_handleStyles`: the inline style when non-empty, then the presentation attributes; its contract is Styles.HandleStylesKeeps, Styles.HandleStylesListsNames, Styles.HandleStylesAppends and Styles.PresentationOverridesInline |
| Styles.ParseStyleAttr | docs/JSVG/drawables.js:117-130 | the loop over the `;`-separated entries gives the result of `InlineStyles` on those entries |
| Styles.GetPresentStyle | docs/JSVG/drawables.js:108-115 | the loop over the style names gives the result of `PresentStyles` |
| Styles.AddAccessors | docs/JSVG/drawables.js:42-51 | defining the accessors succeeds iff no name is listed twice, and then defines exactly the listed names; otherwise it throws "cannot redefine property" |
| Styles.EntryValuePresent | docs/JSVG/drawables.js:122 | `[name, value] = entry.split(":")` has a value iff the entry holds a ':' |
| Styles.StyleEntryCases | docs/JSVG/drawables.js:120-139 | one inline entry: throws iff the trimmed name is a style name and there is no ':'; stores the mapped value for a style name; leaves the store alone otherwise |
| Styles.InlineTouchesOnlyStyles | docs/JSVG/drawables.js:117-140 | the inline style changes only initial values of style names and only appends style names to `properties` |
| Styles.InlineThrowsOnMissingValue | docs/JSVG/drawables.js:120-134 | any entry naming a style without ':' makes the whole inline parse throw |
| Styles.InlineKeepsUndeclared | docs/JSVG/drawables.js:117-140 | a style that no inline declaration names keeps its stored value, or its absence |
| Styles.InlineLastWins | docs/JSVG/drawables.js:117-140 | when the inline style does not throw, the last declaration of a style has a value part and the style holds that declaration's mapped value |
| Styles.InlineFirstLast | docs/JSVG/drawables.js:120-138 | the same for a first declaration that no later one overrides |
| Styles.InlineListsName | docs/JSVG/drawables.js:117-140 | every well-formed entry naming a style puts its name in `properties` |
| Styles.InlineListsFirst | docs/JSVG/drawables.js:117-140 | the first entry, when well formed and naming a style, puts its name in `properties` |
| Styles.PresentationValues | docs/JSVG/drawables.js:108-115 | each non-empty presentation attribute of a listed name stores its mapped value; every other name keeps its value or stays absent |
| Styles.StyleNamesDistinct | docs/JSVG/drawables.js:12-20 | the keys of `commandMapping` are distinct |
| Styles.PresentationOverridesInline | docs/JSVG/drawables.js:98-115 | after `_handleStyles` a non-empty presentation attribute decides its style's value, whatever the inline style said; other names keep their values |
| Styles.PresentedKeepsNames | docs/JSVG/drawables.js:108-115 | the presentation pass keeps the earlier `properties` as a prefix and only appends style names |
| Styles.PresentedListsNames | docs/JSVG/drawables.js:108-115 | each non-empty presentation attribute's name ends up in `properties` |
| Styles.PresentedAppendsName | docs/JSVG/drawables.js:108-115 | that name is appended after the earlier `properties`, at a position the lemma returns |
| Styles.InlineAndPresentationDuplicate | docs/JSVG/drawables.js:98-140 | a style given both inline and as a presentation attribute is listed twice in `properties` |
| Styles.HandleStylesListsNames | docs/JSVG/drawables.js:98-140 | `_handleStyles` keeps every earlier name and lists each style with a non-empty presentation attribute |
| Styles.HandleStylesKeeps | docs/JSVG/drawables.js:98-140 | `_handleStyles` keeps non-style values and names, and stores each presentation attribute's mapped value |
| Styles.HandleStylesAppends | docs/JSVG/drawables.js:98-140 | `_handleStyles` only appends style names to `properties` |
| Styles.MissingValueThrows | docs/JSVG/drawables.js:98-134 | a `style` attribute with an entry naming a style but no ':' makes `_handleStyles` throw |
| Geometry.Extreme | docs/JSVG/drawables.js:328-338 | `findPoint` over the children's values; its contract is Geometry.ExtremeIsBest and Geometry.ExtremeOfLargeValues, and Geometry.ScanExtreme is the loop itself |
| Geometry.ExtremeIsBest | docs/JSVG/drawables.js:328-338 | the running min/max is beaten by no value and not by the seed, and it is the seed or one of the values |
| Geometry.ExtremeSnoc | docs/JSVG/drawables.js:331-336 | one more value replaces the running extreme exactly when it beats it |
| Geometry.ExtremeOfLargeValues | docs/JSVG/drawables.js:328-338 | once some value beats the seed, the result is one of the values and no value beats it |
| Geometry.GreatestNeverBelowMinValue | docs/JSVG/drawables.js:330 | a maximum seeded with Number.MIN_VALUE is never below that positive constant |
| Geometry.AllNegativeGivesMinValue | docs/JSVG/drawables.js:665-673 | over only negative values the maximum is Number.MIN_VALUE, not any of the values |
| Geometry.ScanExtreme | docs/JSVG/drawables.js:328-338 | the loop of `findPoint` computes `Extreme` of the values it reads |
| Geometry.Transformed | docs/JSVG/drawables.js:310-319 | one pass of the matrix loop of `initDimensions`; Geometry.TranslationShifts states what a translation does to the box |
| Geometry.ThroughAll | docs/JSVG/drawables.js:309-320 | the whole matrix loop; Geometry.TranslationsKeepSize states that translations keep the size |
| Geometry.TranslationShifts | docs/JSVG/drawables.js:309-320 | a pure translate(e, f) moves both corners by (e, f) and keeps width and height |
| Geometry.TranslationsKeepSize | docs/JSVG/drawables.js:309-325 | a chain of translations keeps a finite box finite and keeps its width and height |
| Geometry.AggregateExample | docs/JSVG/drawables.js:304-308 | boxes [0,0,10,10] and [5,5,20,20] aggregate to left 0 and right 20 |
| Geometry.ReferenceChange | docs/JSVG/drawables.js:150-156 | `_getReferenceChange`; Geometry.LineAgreesAtOrigin and Geometry.LineScalesAboutOrigin state its effect on a line |
| Geometry.ReferenceTransform | docs/JSVG/drawables.js:187-205 | `_referenceTransform`; its contract is Geometry.ReferenceTracksFrame, Geometry.ScalingParts, Geometry.MissingRatioFallsBackToOne and Geometry.DegenerateReferenceOnlyMoves |
| Geometry.ScaleIsRatio | docs/JSVG/drawables.js:191-196 | a non-zero width ratio is truthy, is kept by `\|\| 1`, and scales the initial width to the current width |
| Geometry.AxisTracks | docs/JSVG/drawables.js:189-198 | on one axis the chosen translate and scale map the initial x to the current x and the initial x+width to the current x+width |
| Geometry.ReferenceTracksFrame | docs/JSVG/drawables.js:187-205 | with non-zero ratios `_referenceTransform` emits translate-then-scale, mapping the reference's initial position and far corner to its current ones |
| Geometry.MissingRatioFallsBackToOne | docs/JSVG/drawables.js:194-198 | a zero or NaN height ratio falls back to scale 1, and the y translation is then the plain move |
| Geometry.DegenerateReferenceOnlyMoves | docs/JSVG/drawables.js:201-203 | with no usable ratio only a translate is emitted, and nothing at all when the reference has not moved |
| Geometry.ScalingParts | docs/JSVG/drawables.js:194-200 | the emitted translate and scale, written out per axis |
| Geometry.ScalingExample | docs/JSVG/drawables.js:187-205 | a reference doubled in width maps (5, 5) to (10, 5) |
| Geometry.RectPlaced | docs/JSVG/drawables.js:443-454 | the dimensions `Rect.refTransform` writes; Geometry.RectAgreesWithReferenceTransform states that they match the reference transform |
| Geometry.RectRefTransform | docs/JSVG/drawables.js:443-454 | `Rect.refTransform` rewrites its four-element array in place: unchanged without a reference, else placed from the Rect's initial x/y and scaled |
| Geometry.RectAgreesWithReferenceTransform | docs/JSVG/drawables.js:443-454 | with non-zero ratios the Rect's formula puts its initial corner where `_referenceTransform` would, and scales width and height by the same ratios |
| Geometry.LineRefX | docs/JSVG/drawables.js:735 | `x * changeW + changeX` for an end point; stated by Geometry.LineAgreesAtOrigin |
| Geometry.LineRefY | docs/JSVG/drawables.js:736 | `y * changeH + changeY` for an end point; stated by Geometry.LineAgreesAtOrigin |
| Geometry.LineAgreesAtOrigin | docs/JSVG/drawables.js:732-740 | `Line.refTransform` (`p*scale + change`) agrees with `_referenceTransform` when the reference starts at the origin |
| Geometry.LineScalesAboutOrigin | docs/JSVG/drawables.js:732-740 | with a reference that starts away from the origin the two disagree: its initial x goes to 10 under one and to 20 under the other |
| PathParsing.CurveParams | docs/JSVG/path-parser.js:10-16 | the `curveParams` table: a positive step for each curve letter |
| PathParsing.FindCommand | docs/JSVG/path-parser.js:126 | `search(this.alpha)`: the first command letter, or -1 when there is none |
| PathParsing.NextCommand | docs/JSVG/path-parser.js:124-129 | the next command letter after the head, as an offset from the head, or -1 |
| PathParsing.ArgumentText | docs/JSVG/path-parser.js:132-134 | the text the arguments are read from: the longest prefix of the text after the letter without a command letter, i.e. up to the `idx` of `getParams` (or the whole rest when there is none) |
| PathParsing.RespaceOnlyInsertsSpaces | docs/JSVG/path-parser.js:137 | the digit-minus-digit replace only inserts spaces |
| PathParsing.RespaceChars | docs/JSVG/path-parser.js:137 | the replace introduces no character except a space |
| PathParsing.RespaceKeepsExponents | docs/JSVG/path-parser.js:135-137 | text with no digit directly before a minus, such as `2e-4`, is left as it is |
| PathParsing.RespaceDigits | docs/JSVG/path-parser.js:137 | a run of digits is copied as it is |
| PathParsing.GluedPairIsSplit | docs/JSVG/path-parser.js:137 | `a-b` between digit runs becomes `a -b` |
| PathParsing.ChainedMinusKeepsSecondGlued | docs/JSVG/path-parser.js:137 | the global regex does not overlap matches: "1-2-3" becomes "1 -2-3" |
| PathParsing.RunLength | docs/JSVG/path-parser.js:138 | the length of the leading run of non-separators, ended by a separator or the end of the text |
| PathParsing.Tokens | docs/JSVG/path-parser.js:138-139 | `split(/[\s,;]+/)` without empty parts: non-empty tokens of non-separator characters of the text; PathParsing.TokensCoverText and PathParsing.TokensOfJoin state that they are exactly the text's separator-free runs |
| PathParsing.TokensOfJoin | docs/JSVG/path-parser.js:138-139 | non-empty separator-free words joined by spaces split back into those words |
| PathParsing.WithoutSeparators | docs/JSVG/path-parser.js:138-139 | the text with every separator removed holds no separator |
| PathParsing.WithoutSeparatorsKeepsRun | docs/JSVG/path-parser.js:138-139 | a separator-free head survives the removal of separators unchanged |
| PathParsing.TokensCoverText | docs/JSVG/path-parser.js:138-139 | the tokens written one after the other are the text with its separators removed: splitting loses only separators |
| PathParsing.HandleRounding | docs/JSVG/path-parser.js:146-156 | a token with '.' and no 'e' is cut to at most two characters after the dot; any other token is kept; the result is a prefix |
| PathParsing.HandleRoundingIdempotent | docs/JSVG/path-parser.js:146-156 | rounding twice is rounding once |
| PathParsing.RoundingKeepsCharacters | docs/JSVG/path-parser.js:146-156 | rounding keeps a token non-empty and adds no character |
| PathParsing.RoundAll | docs/JSVG/path-parser.js:148 | `parts.map(handleRounding)`, part by part |
| PathParsing.ReadAll | docs/JSVG/path-parser.js:141 | `parts.map(parseFloat)`, part by part |
| PathParsing.GetParams | docs/JSVG/path-parser.js:131-144 | the next-command index is -1 or lies after the head and inside the text |
| PathParsing.TokenCharacters | docs/JSVG/path-parser.js:135-139 | tokens hold only non-separator characters of the text |
| PathParsing.ArgumentsStopAtNextCommand | docs/JSVG/path-parser.js:131-144 | `getParams` returns the next command's index and one number per non-empty token before it, and no token holds a command letter or separator |
| PathParsing.ConsumeKeepsTotal | docs/JSVG/path-parser.js:90-105 | `updateOne`, `updateVars(k)` and `updateVars(-1)` keep `counter + pathString.length` |
| PathParsing.Emitted | docs/JSVG/path-parser.js:107-122 | `processPoints`; its contract is PathParsing.EmittedOnePerGroup, PathParsing.EmittedCount and PathParsing.AbsoluteKeepsEndPoints |
| PathParsing.EmittedOnePerGroup | docs/JSVG/path-parser.js:107-122 | `processPoints` emits exactly one point per index start, start+step, … below the length, each the previous point moved by or set to that pair |
| PathParsing.EmittedCount | docs/JSVG/path-parser.js:107-122 | the number of points emitted is exactly the number of groups that start inside the list |
| PathParsing.AbsoluteKeepsEndPoints | docs/JSVG/path-parser.js:115-118 | for an upper-case letter each emitted point is the pair at its group's offset |
| PathParsing.EmittedAfter | docs/JSVG/path-parser.js:107-122 | points appended after a prefix by `processPoints` form the chain of advanced pairs, the last being the new current point; with an upper-case letter they are the pairs themselves |
| PathParsing.Run | docs/JSVG/path-parser.js:39-62 | one iteration keeps `counter + pathString.length`, only appends points, and changes nothing exactly when it stalls, otherwise consumes input |
| PathParsing.GetParamsIsValid | docs/JSVG/path-parser.js:131-144 | `getParams` never points the next command at the head or past the end |
| PathParsing.Loop | docs/JSVG/path-parser.js:39-68 | the `while` loop of `parse` under its iteration guard; stated by PathParsing.LoopUnfolds, PathParsing.StallIsFinal and PathParsing.LoopEnds |
| PathParsing.LoopUnfolds | docs/JSVG/path-parser.js:39-68 | with input and iterations left the loop goes on from the next state |
| PathParsing.StallIsFinal | docs/JSVG/path-parser.js:204-221 | once a vertical lineto stalls, no further iteration changes anything |
| PathParsing.LoopEnds | docs/JSVG/path-parser.js:39-68 | with more iterations than characters left the loop consumes everything or stops at a stall; it keeps the total and only appends points |
| PathParsing.LoopStops | docs/JSVG/path-parser.js:39-68 | with more iterations than characters left the loop ends with no input left or at a stalled vertical lineto |
| PathParsing.LoopAppends | docs/JSVG/path-parser.js:39-68 | the loop never removes or changes a point already in `points` |
| PathParsing.LoopKeepsTotal | docs/JSVG/path-parser.js:39-68 | the loop keeps `counter + pathString.length` unchanged |
| PathParsing.StepProgresses | docs/JSVG/path-parser.js:39-62 | an iteration that does not stall consumes at least one character |
| PathParsing.Points | docs/JSVG/path-parser.js:31-71 | what `parse` returns; PathParsing.ParseEnds and PathParsing.PathParser.Parse state it |
| PathParsing.ParseEnds | docs/JSVG/path-parser.js:31-71 | `parse` ends with `counter + pathString.length == input.length`, having read all input or stopped at a stall |
| PathParsing.Dispatch | docs/JSVG/path-parser.js:43-62 | which handler an iteration runs: by lower-cased command letter, skip for other letters, drop one for anything else |
| PathParsing.MoveToStep | docs/JSVG/path-parser.js:158-177 | `handleMs`; stated by PathParsing.MoveTo and PathParsing.MoveToLines |
| PathParsing.LineToStep | docs/JSVG/path-parser.js:179-184 | `handleLs`; stated by PathParsing.LineTo |
| PathParsing.HorizontalStep | docs/JSVG/path-parser.js:186-202 | `handleHs`; stated by PathParsing.Horizontal |
| PathParsing.VerticalStep | docs/JSVG/path-parser.js:204-221 | `handleVs`; stated by PathParsing.Vertical |
| PathParsing.CloseStep | docs/JSVG/path-parser.js:223-228 | `handleZs`; stated by PathParsing.Close |
| PathParsing.CurveStep | docs/JSVG/path-parser.js:230-238 | `handleCurves`; stated by PathParsing.Curve and PathParsing.CurveAbsolute |
| PathParsing.MoveTo | docs/JSVG/path-parser.js:158-177 | with two numbers or more the first pair is absolute exactly when nothing precedes the command or the letter is `M`, becomes the subpath start and is emitted first, with one more point per further pair and the last point the current one; with fewer nothing is emitted; the arguments are consumed |
| PathParsing.MoveToLines | docs/JSVG/path-parser.js:170-176 | the implicit linetos of a moveto: each point after the first is the one before it advanced by the next pair, with the moveto's own case |
| PathParsing.Close | docs/JSVG/path-parser.js:223-228 | Z/z: the current point becomes the subpath start, exactly that point is emitted, one character is consumed |
| PathParsing.LineTo | docs/JSVG/path-parser.js:179-184 | one point per pair, each the previous point advanced by that pair (moved for `l`, the pair itself for `L`), the last the current point; the subpath start stays and the arguments are consumed |
| PathParsing.Horizontal | docs/JSVG/path-parser.js:186-202 | H/h: only x changes, from the first number; one point is emitted; the subpath start stays and the arguments are consumed |
| PathParsing.Vertical | docs/JSVG/path-parser.js:204-221 | V/v: with exactly one number only y changes, one point is emitted, the subpath start stays and the arguments are consumed; otherwise nothing changes at all |
| PathParsing.Curve | docs/JSVG/path-parser.js:230-238 | one point per group of parameters, each the previous point advanced by the group's end-point pair (moved for a lower-case letter), the last the current point; the subpath start stays and the arguments are consumed |
| PathParsing.CurveAbsolute | docs/JSVG/path-parser.js:230-238 | with an upper-case curve or arc letter the points emitted are the end-point pairs themselves |
| PathParsing.SkipsUnknown | docs/JSVG/path-parser.js:43-61 | an unknown letter skips to the next command letter and any other character is dropped alone, neither emitting |
| PathParsing.PathParser.constructor | docs/JSVG/path-parser.js:7-29 | a fresh parser with the given `parseFloat` and an empty state |
| PathParsing.PathParser.Parse | docs/JSVG/path-parser.js:31-71 | `parse` returns `Points(input)` and leaves the total equal to the input length |
| PathParsing.PathParser.Iterate | docs/JSVG/path-parser.js:40-62 | the body of the loop of `parse` performs one `Step` |
| PathParsing.PathParser.SavePoint | docs/JSVG/path-parser.js:86-88 | appends the current point |
| PathParsing.PathParser.UpdateOne | docs/JSVG/path-parser.js:90-94 | drops one character and counts it |
| PathParsing.PathParser.UpdateVars | docs/JSVG/path-parser.js:96-105 | jumps to the given index, or to the end for -1, counting what it passes |
| PathParsing.PathParser.ProcessPoints | docs/JSVG/path-parser.js:107-122 | the loop appends `Emitted` and leaves the current point at its last point |
| PathParsing.PathParser.SkipParams | docs/JSVG/path-parser.js:124-129 | jumps to the next command letter |
| PathParsing.PathParser.HandleMs | docs/JSVG/path-parser.js:158-177 | performs `MoveToStep` on the state |
| PathParsing.PathParser.HandleLs | docs/JSVG/path-parser.js:179-184 | performs `LineToStep` on the state |
| PathParsing.PathParser.HandleHs | docs/JSVG/path-parser.js:186-202 | performs `HorizontalStep` on the state |
| PathParsing.PathParser.HandleVs | docs/JSVG/path-parser.js:204-221 | performs `VerticalStep` on the state |
| PathParsing.PathParser.HandleZs | docs/JSVG/path-parser.js:223-228 | performs `CloseStep` on the state |
| PathParsing.PathParser.HandleCurves | docs/JSVG/path-parser.js:230-238 | performs `CurveStep` on the state |
| PathExamples.MoveParams | docs/JSVG/path-parser.js:131-144 | `getParams` on "M0 0 L10 10" finds the next command at 5 and the numbers 0 and 0 |
| PathExamples.LineParams | docs/JSVG/path-parser.js:131-144 | `getParams` on "L10 10" finds no next command and the numbers 10 and 10 |
| PathExamples.FirstMoveStep | docs/JSVG/path-parser.js:158-177 | a first `M` with one pair emits that pair, makes it the current point and subpath start, and jumps to the next command |
| PathExamples.LastLineStep | docs/JSVG/path-parser.js:179-184 | an `L` with one pair and no command after it emits that pair and consumes the rest of the text |
| PathExamples.TwoSteps | docs/JSVG/path-parser.js:39-70 | a text the loop finishes in two iterations returns the points of the second |
| PathExamples.ParseExample | docs/JSVG/path-parser.js:31-71 | `parse("M0 0 L10 10")` returns the points (0, 0) and (10, 10) when `parseFloat` reads "0" and "10" as those numbers |
| Nodes.Get | docs/JSVG/drawables.js:45 | the accessor's getter (overlay value when defined, else the initial value) or the own data property; stated by Nodes.PutThenGet and Nodes.RestoreReadsInitial |
| Nodes.Put | docs/JSVG/drawables.js:46-48 | the accessor's setter, or an own data property where there is no accessor; stated by Nodes.PutThenGet |
| Nodes.Restored | docs/JSVG/drawables.js:53-57 | `restoreState` of one drawable; stated by Nodes.RestoreReadsInitial and Nodes.SetThenRestore |
| Nodes.PutThenGet | docs/JSVG/drawables.js:42-51 | a read after a write returns the written value for that name and the old value for every other name |
| Nodes.RestoreReadsInitial | docs/JSVG/drawables.js:53-57 | after `restoreState` every accessor reads its initial value again; other names are untouched |
| Nodes.SetThenRestore | docs/JSVG/drawables.js:42-57 | a write through an accessor is undone by `restoreState` |
| Nodes.Coords | docs/JSVG/drawables.js:506 | `points.map(point => point.x)` (or `.y`), point by point |
| Nodes.PointEdge | docs/JSVG/drawables.js:502-544 | the bounds of a point list; stated by Nodes.PointEdgesEnclose |
| Nodes.EdgeOf | docs/JSVG/drawables.js:366-380 | `getLeft`/`getTop`/`getRight`/`getBottom`; stated by Nodes.LineEdgesAreEndPoints, Nodes.CircleBoxIsCentred and Nodes.GroupBounds |
| Nodes.PointEdgesEnclose | docs/JSVG/drawables.js:502-544 | every non-NaN point of a Path, Polygon or Polyline lies within its computed left/right/top/bottom |
| Nodes.LineEdgesAreEndPoints | docs/JSVG/drawables.js:742-756 | a line's left is the smaller and its right the larger of its end points' x, and likewise top and bottom of their y |
| Nodes.CircleBoxIsCentred | docs/JSVG/drawables.js:582-596 | a circle's box is centred on (cx, cy) and is 2r wide and high |
| Nodes.ShapeOf | JSVG/svg-parser.js:34-35 | `mapping[tagName]`; stated by Nodes.ShapeIsNoGroup and TreeBuilder.UnmappedTagAborts |
| Nodes.OwnValues | docs/JSVG/drawables.js:407-417 | what each constructor stores before its styles; stated by Nodes.OwnValuesVisible, Nodes.OwnValuesGeometry and Nodes.OwnValuesLine |
| Nodes.Construct | docs/JSVG/drawables.js:24-37 | a shape constructor; stated by Nodes.ConstructFromStores, Nodes.ConstructListsStyles and Nodes.ConstructStyledTwiceThrows |
| Nodes.ShapeIsNoGroup | JSVG/svg-parser.js:4-12 | `mapping` holds no group constructor |
| Nodes.ConstructFromStores | docs/JSVG/drawables.js:24-37 | a constructed drawable has nothing written, no reference, its own values and names, and each presentation style's value |
| Nodes.BuiltFromStores | JSVG/svg-parser.js:34-35 | the same, for `new mapping[tag](elem)` |
| Nodes.OwnValuesVisible | docs/JSVG/drawables.js:88-96 | `visible` is stored and listed first, read from the visibility attribute |
| Nodes.OwnValuesGeometry | docs/JSVG/drawables.js:407-417 | each geometric value is its attribute `\|\| 0`, under a non-style name |
| Nodes.OwnValuesLine | docs/JSVG/drawables.js:700-707 | a line stores its two end points from x1/y1 and x2/y2, each `\|\| 0` |
| Nodes.BuiltVisibility | docs/JSVG/drawables.js:88-96 | a new drawable's `visible` is false exactly for visibility "hidden" or "collapse" |
| Nodes.BuiltGeometry | docs/JSVG/drawables.js:407-417 | a new Rect, Circle or Ellipse reads each geometric value as its attribute, or 0 when missing, zero or NaN |
| Nodes.BuiltLine | docs/JSVG/drawables.js:700-707 | a new Line reads its end points from its attributes |
| Nodes.BuiltStyles | docs/JSVG/drawables.js:98-140 | a new drawable reads each non-empty presentation attribute's mapped value |
| Nodes.RepeatStaysRepeated | docs/JSVG/drawables.js:42-51 | a name listed twice stays listed twice whatever is pushed after it |
| Nodes.ConstructStyledTwiceThrows | docs/JSVG/drawables.js:42-51 | a style given inline and as an attribute makes the constructor throw in `_addAccessors` |
| Nodes.BuiltStyledTwiceThrows | docs/JSVG/drawables.js:42-51 | the same, for `new mapping[tag](elem)` |
| Nodes.Inherits | docs/JSVG/drawables.js:287-289 | the test of `_propagateProperties`; stated by Nodes.CascadeOneReads, Nodes.CascadeKeepsOwnValue and Nodes.ForcedCascadeOverrides |
| Nodes.CascadeOne | docs/JSVG/drawables.js:287-291 | one pass of `_propagateProperties`; stated by Nodes.CascadeOneReads |
| Nodes.Cascade | docs/JSVG/drawables.js:285-294 | `_propagateProperties(child)`; stated by Nodes.CascadeReads, Nodes.CascadeEffect and Nodes.EarlierCascadeWins |
| Nodes.CascadeReads | docs/JSVG/drawables.js:285-294 | after the cascade over distinct names a name reads the group's value iff it inherits, otherwise the child's; nothing but the child's values changes |
| Nodes.CascadeOneReads | docs/JSVG/drawables.js:287-291 | one name of the cascade: only that name can change, and only when it inherits |
| Nodes.CascadeEffect | docs/JSVG/drawables.js:285-294 | `_propagateProperties`: a style name reads the group's value iff it inherits; non-style names are never touched |
| Nodes.CascadeKeepsOwnValue | docs/JSVG/drawables.js:288-289 | without `forceCascade`, a child's own defined value is kept |
| Nodes.EarlierCascadeWins | docs/JSVG/drawables.js:285-294 | a value filled in by an earlier cascade survives a later one from another group |
| Nodes.ForcedCascadeOverrides | docs/JSVG/drawables.js:289-290 | with `forceCascade`, a truthy group style always reaches the child |
| Nodes.InheritedValueSurvivesRestore | docs/JSVG/drawables.js:53-57 | a cascaded style the child has no accessor for is an own data property, so `restoreState` leaves it in place |
| Nodes.Bound | docs/JSVG/drawables.js:502-511 | what a bound getter returns; stated by Nodes.BoundIsEdge and Nodes.WrittenMemoIsReturned |
| Nodes.AfterBound | docs/JSVG/drawables.js:502-511 | the drawable after a bound getter; stated by Nodes.AfterBoundKeepsMemo, Nodes.MemoIdempotent and Nodes.AfterBoundKeepsBounds |
| Nodes.BoundIsEdge | docs/JSVG/drawables.js:502-511 | a sound memo returns the computed bound |
| Nodes.AfterBoundKeepsMemo | docs/JSVG/drawables.js:502-511 | calling a bound getter keeps the memo sound |
| Nodes.MemoIdempotent | docs/JSVG/drawables.js:502-511 | a second call of the same bound getter changes nothing |
| Nodes.AfterBoundKeepsBounds | docs/JSVG/drawables.js:502-544 | a bound getter changes no bound and no other name |
| Nodes.WrittenMemoIsReturned | docs/JSVG/drawables.js:502-505 | a value written to `left` (etc.) is what the getter returns afterwards |
| Nodes.PutKeepsMemo | docs/JSVG/drawables.js:42-51 | writing a name other than an edge name keeps the memo sound |
| Nodes.EdgeNameIsNotStyle | docs/JSVG/drawables.js:12-20 | `left`, `top`, `right`, `bottom` are not style names |
| Nodes.RestoreKeepsMemo | docs/JSVG/drawables.js:53-57 | `restoreState` keeps the memo sound |
| Nodes.CascadeKeepsMemo | docs/JSVG/drawables.js:285-294 | the cascade keeps the memo sound |
| Nodes.NoMemoNameAfterVisible | docs/JSVG/drawables.js:95 | a list of `visible` and style names holds no edge name |
| Nodes.ConstructListsStyles | docs/JSVG/drawables.js:475-487 | a Path, Polygon or Polyline lists `visible` and then only style names |
| Nodes.ConstructProperties | docs/JSVG/drawables.js:851-860 | a constructor's `properties` are those after `_handleStyles`, then the names pushed late |
| Nodes.BuiltMemoSound | docs/JSVG/drawables.js:475-487 | a new drawable's memo is sound |
| Nodes.GroupBuilt | docs/JSVG/drawables.js:250-259 | `new Group(elem, ...children)`; stated by Nodes.GroupFromStores, Nodes.GroupBounds and Nodes.GroupStyledTwiceThrows |
| Nodes.GroupFromStores | docs/JSVG/drawables.js:250-259 | a new Group has nothing written, no reference, its children, `forceCascade` false and itself as child reference |
| Nodes.GroupStoreValues | docs/JSVG/drawables.js:321-325 | the group stores its box's left, top, width and height |
| Nodes.GroupEdges | docs/JSVG/drawables.js:366-380 | a group's edges read back that box |
| Nodes.GroupStyledTwiceThrows | docs/JSVG/drawables.js:250-259 | a style given both ways makes `new Group` throw |
| Nodes.GroupBox | docs/JSVG/drawables.js:304-320 | the box `initDimensions` computes; stated by Nodes.GroupBoxEncloses |
| Nodes.GroupBounds | docs/JSVG/drawables.js:304-326 | a new group's four edges are the box `initDimensions` computed |
| Nodes.GroupBoxEncloses | docs/JSVG/drawables.js:304-338 | without transforms the group's box encloses every non-NaN child edge, and its right and bottom are at least Number.MIN_VALUE |
| SceneGraph.ReplaceKeepsWellFormed | docs/JSVG/drawables.js:46-48 | replacing a drawable by one with the same children and references into the table keeps the table well formed |
| SceneGraph.AppendKeepsWellFormed | JSVG/svg-parser.js:36 | appending a drawable whose children and references are in the table keeps it well formed |
| SceneGraph.ReplaceKeepsMemos | docs/JSVG/drawables.js:502-511 | replacing a drawable by one with a sound memo keeps every memo sound |
| SceneGraph.RestoredWithinReads | docs/JSVG/drawables.js:278-283 | after restoring a set of drawables, each of them reads every accessor's initial value again (nothing where there is none); own data properties and every other drawable read as before |
| SceneGraph.RestoredWithinTwice | docs/JSVG/drawables.js:278-283 | restoring twice restores the union |
| SceneGraph.RestoredWithinKeepsShapes | docs/JSVG/drawables.js:278-283 | restoring keeps the tree, its well-formedness and every memo |
| SceneGraph.MemoAllSteps | docs/JSVG/drawables.js:304-308 | calling a bound getter over the children only adds memos and keeps every bound |
| SceneGraph.MemoAllKeepsBound | docs/JSVG/drawables.js:304-308 | those calls change no drawable's bound |
| SceneGraph.MemoAllKeepsMemos | docs/JSVG/drawables.js:304-308 | those calls keep every memo sound |
| SceneGraph.BoundsAgree | docs/JSVG/drawables.js:304-308 | so the later getters see the same bounds as the first |
| SceneGraph.MemoAllKeepsBounds | docs/JSVG/drawables.js:304-308 | the children's bounds after one getter's loop are those before it |
| SceneGraph.Cleared | docs/JSVG/drawables.js:53-57 | the overlay without the listed names, every other entry kept |
| SceneGraph.Measure | docs/JSVG/drawables.js:502-544 | computes a getter's value for a drawable |
| SceneGraph.WireAll | docs/JSVG/drawables.js:263-268 | the loop over every child of `setChildReference` keeps the table's size; SceneGraph.WireAllEffect states which children get the reference |
| SceneGraph.WireIndices | docs/JSVG/drawables.js:269-275 | the loop over the given indices keeps the table's size; SceneGraph.WireIndicesEffect and SceneGraph.WireIndicesStops state its effect and where it throws |
| SceneGraph.WireAllEffect | docs/JSVG/drawables.js:263-268 | with no indices every child other than the reference object gets it, and no other drawable changes |
| SceneGraph.WireIndicesEffect | docs/JSVG/drawables.js:269-275 | with indices exactly the named children other than the reference get it; it completes iff every index names a child |
| SceneGraph.WireIndicesStops | docs/JSVG/drawables.js:270-274 | after an index that names no child, no further index is handled |
| SceneGraph.NoSelfReference | docs/JSVG/drawables.js:261-276 | a drawable is never given itself as reference |
| SceneGraph.UnchangedReferenceIsIdentity | docs/JSVG/drawables.js:187-205 | a reference at its initial place and size moves nothing |
| SceneGraph.FirstWithId | docs/JSVG/drawables.js:383-390 | `find(id)`; stated by SceneGraph.FindsFirst |
| SceneGraph.FindsFirst | docs/JSVG/drawables.js:383-390 | `find`: null iff no child has the id, otherwise the first child with it |
| SceneGraph.WithClass | docs/JSVG/drawables.js:393-401 | `findAll(className)`; stated by SceneGraph.WithClassKeeps and SceneGraph.WithClassAppend |
| SceneGraph.WithClassKeeps | docs/JSVG/drawables.js:393-401 | `findAll`: each child as often as it occurs among the children when it has the class, others not at all |
| SceneGraph.WithClassAppend | docs/JSVG/drawables.js:393-401 | `findAll` keeps the children's order: over two runs of children it returns the first run's matches followed by the second's |
| SceneGraph.ShapeAddedKeeps | JSVG/svg-parser.js:34-36 | a new shape is appended to a well-formed table, keeping it well formed and every memo sound |
| SceneGraph.FreshAppend | JSVG/svg-parser.js:36 | a fresh non-group drawable can join the table |
| SceneGraph.GroupAddedWires | docs/JSVG/drawables.js:250-259 | `new Group` appends a group over exactly the given children and wires them to it |
| SceneGraph.JoinedGroupWires | docs/JSVG/drawables.js:258 | the closing `setChildReference(this)` changes only the children |
| SceneGraph.GroupJoins | docs/JSVG/drawables.js:250-259 | a new group over children of the table keeps it well formed |
| SceneGraph.HandleStylesOf | docs/JSVG/drawables.js:98-106 | `_handleStyles` as a procedure gives `HandleStyles` |
| SceneGraph.ParsePath | docs/JSVG/drawables.js:481-483 | the Path constructor's points are the parser's output |
| SceneGraph.MakeShape | JSVG/svg-parser.js:34-35 | `mapping[tag]`, throwing for a missing one |
| SceneGraph.Instantiate | docs/JSVG/drawables.js:407-417 | a shape constructor gives `Construct` |
| SceneGraph.TransformBox | docs/JSVG/drawables.js:309-320 | the loop over the transform list gives `ThroughAll` |
| SceneGraph.MakeGroup | docs/JSVG/drawables.js:250-259 | the Group constructor's store gives `GroupBuilt` |
| SceneGraph.Scene.constructor | JSVG/svg-parser.js:17 | an empty table |
| SceneGraph.Scene.AddShape | JSVG/svg-parser.js:33-36 | appends the new drawable and returns its index, or the throw with the table unchanged |
| SceneGraph.Scene.MeasureChildren | docs/JSVG/drawables.js:304-308 | the four `findPoint` calls: the children's box, with the memos they write |
| SceneGraph.Scene.AddGroup | docs/JSVG/drawables.js:250-259 | `new Group(elem, ...children)`: the table `GroupAdded` describes, or the throw |
| SceneGraph.Scene.Set | docs/JSVG/drawables.js:46-48 | a write through the accessor or to a plain property |
| SceneGraph.Scene.RestoreOwn | docs/JSVG/drawables.js:53-57 | clears the drawable's own overlay |
| SceneGraph.Scene.RestoreState | docs/JSVG/drawables.js:278-283 | restores the drawable and every descendant and nothing else |
| SceneGraph.Scene.RestoreChild | docs/JSVG/drawables.js:280-282 | one turn of the loop over the children: that child's subtree is restored too |
| SceneGraph.Scene.GetEdge | docs/JSVG/drawables.js:502-544 | a getter returns `Bound` and records its memo |
| SceneGraph.Scene.FindPoint | docs/JSVG/drawables.js:328-338 | `findPoint` returns the running extreme of the children's getter values and leaves their memos |
| SceneGraph.Scene.FindStep | docs/JSVG/drawables.js:331-336 | one turn of its loop |
| SceneGraph.Scene.SetReference | docs/JSVG/drawables.js:146-148 | sets one drawable's reference |
| SceneGraph.Scene.SetChildReference | docs/JSVG/drawables.js:261-276 | gives the table `ChildReferences` describes, and fails iff an index names no child |
| SceneGraph.Scene.WireChildren | docs/JSVG/drawables.js:263-268 | the loop over all children |
| SceneGraph.Scene.WireStep | docs/JSVG/drawables.js:265-267 | one turn of that loop |
| SceneGraph.Scene.WireNamed | docs/JSVG/drawables.js:269-275 | the loop over the given indices |
| SceneGraph.Scene.SetChildRef | docs/JSVG/drawables.js:262 | records the group's child reference |
| SceneGraph.Scene.PropagateProperties | docs/JSVG/drawables.js:285-294 | replaces the child by `Cascade` over the style names |
| SceneGraph.Scene.CascadeFrom | docs/JSVG/drawables.js:286-293 | the loop over the names |
| SceneGraph.Scene.Find | docs/JSVG/drawables.js:383-390 | `find` returns `FirstWithId` over the children |
| SceneGraph.Scene.FindAll | docs/JSVG/drawables.js:393-401 | `findAll` returns `WithClass` over the children |
| TreeBuilder.Tally | JSVG/svg-parser.js:18-38 | every element takes at least one pass |
| TreeBuilder.CountVisits | JSVG/svg-parser.js:18-38 | the queue's work is the elements' passes |
| TreeBuilder.PassCount | JSVG/svg-parser.js:20-37 | every pass lowers the work left by one |
| TreeBuilder.TallyIsElementsAndGroups | JSVG/svg-parser.js:18-38 | the passes are one per element plus one per group |
| TreeBuilder.BuildAll | JSVG/svg-parser.js:28-36 | recursive descent yields one drawable per element |
| TreeBuilder.Run | JSVG/svg-parser.js:18-38 | the `while` loop of `traverse` over its queue; stated by TreeBuilder.DividerPops, TreeBuilder.VisitIsDescent and TreeBuilder.LeafThrowAborts |
| TreeBuilder.DividerPops | JSVG/svg-parser.js:21-26 | a divider of n > 0 children pops exactly the last n drawables and pushes one group |
| TreeBuilder.EmptyGroupWrapsStack | JSVG/svg-parser.js:22-24 | an empty group wraps the whole stack and removes nothing |
| TreeBuilder.VisitIsDescent | JSVG/svg-parser.js:28-36 | without empty groups, visiting an element pushes what recursive descent builds |
| TreeBuilder.VisitsAreDescent | JSVG/svg-parser.js:30-31 | children put before their divider push what recursive descent builds for them, in order |
| TreeBuilder.Traversal | JSVG/svg-parser.js:15-43 | `traverse(svg)`; stated by TreeBuilder.TraversalIsDescent, with TreeBuilder.ReturnedShape for what it returns |
| TreeBuilder.TraversalIsDescent | JSVG/svg-parser.js:15-43 | without empty groups `traverse` returns what recursive descent builds |
| TreeBuilder.LeafThrowAborts | JSVG/svg-parser.js:34-35 | a throwing constructor ends the traversal with that error |
| TreeBuilder.ReturnedShape | JSVG/svg-parser.js:39-42 | the single drawable iff exactly one is left, else the array |
| TreeBuilder.EmptyGroupWrapsEarlierSibling | JSVG/svg-parser.js:21-31 | `<rect/><g/>` gives [rect, g(rect)], where recursive descent gives [rect, g()] |
| TreeBuilder.UnmappedTagAborts | JSVG/svg-parser.js:34-35 | a tag that is neither `g` nor mapped makes the traversal throw |
| TreeBuilder.Traverse | JSVG/svg-parser.js:15-43 | the loop builds into the scene exactly what `Traversal` describes, in one pass per element and one per group |
| TreeBuilder.Pass | JSVG/svg-parser.js:19-37 | one pass of the loop |
| TreeBuilder.LeafStep | JSVG/svg-parser.js:33-36 | a shape element is built and pushed |
| TreeBuilder.DividerStep | JSVG/svg-parser.js:21-26 | a divider pops its children and pushes their group |
| TreeBuilder.GroupPass | JSVG/svg-parser.js:23 | `new Group` on the scene |
| TreeBuilder.RunDivider | JSVG/svg-parser.js:21-26 | the loop at a divider |
| TreeBuilder.RunGroupVisit | JSVG/svg-parser.js:29-32 | the loop at a `g`: its children and divider go first |
| TreeBuilder.RunLeaf | JSVG/svg-parser.js:33-36 | the loop at a shape element |

## Left out

- Canvas rendering. This covers every `draw`, `_setupContext`, `_setupStroke`, `_setupCtxProperty`, `_transform`, `_ownTransform` and `_applyTransformation`. `_referenceTransform` returns the translate/scale it would apply.
- `Path2D` and the point-list-to-string builders `_parsePoints` and `_setPoints`' path string. They only feed a browser object.
- The DOM. An element is a record of tag, attribute texts, lengths (`elem[attr].baseVal.value`), points and transform matrices. `svg.children` becomes the children of a tree.
- `parseFloat` is a parameter `read: string -> Num`. Nothing is assumed about it.
- Number rounding. Numbers are exact reals with NaN and the infinities, without floating-point rounding or signed zero. `Number.MAX_VALUE` and `Number.MIN_VALUE` are named constants.
- `console.log` calls.
- `Group._setPosition`. It is dead code calling a missing `reference.get`.
- `_getAttr`'s `try`/`catch`. A missing length is read as NaN, then `|| 0`.
- `commandMapping` lookups of `Object.prototype` names (such as "constructor"). JavaScript finds inherited members there; the model treats them as unknown names.
- Values that are not numbers, such as a colour under a numeric name, read as NaN in arithmetic.
- JavaScript error messages are paraphrased, such as "cannot redefine property" and "not a constructor".
- Writing `undefined` through an accessor is modelled as removing the overlay entry, as `restoreState` does.
- References are indices of the scene's table. A reference object that is not a drawable of the same table is not modelled.
- docs/tiles.js is not part of this model. It is application glue around a canvas.
- SceneGraph.Scene.AddGroup: when the Group constructor throws, the memos written while measuring the children stay in the table, as they do in JavaScript. The model returns the error instead of unwinding `traverse`.
- TreeBuilder.SceneBuilders: its branch for an index outside the table is never taken by `Traverse`. It exists only to make the function total.
- Nodes.PointEdgesEnclose: says nothing about NaN points. For a Path one NaN makes every bound NaN; Polygon and Polyline skip it.
- PathParsing.GetParams: its own contract states only the range of the next-command index. What it returns is stated by `ArgumentsStopAtNextCommand`.
