# pcb-probe, modelled in Dafny

pcb-probe reads a G-code milling program for a printed circuit board and writes
an auto-levelling version of it. It works in three passes over one global state:
the record `info` (`PCBProbeInfo`), the command list `cmdList`, the cell-variable
table `cellVariables` with its counter `nextVariableNumber`, and the line counter.

1. **Load and split** (`LoadAndSplitSegments`) parses each line into a
   `GCodeCommand`. A `G20` scales the grid size and the split distance by 1/25.4.
   A `G00`/`G01` that starts below the surface is halved recursively until every
   piece moves at most the split distance on each axis. The tool position is
   tracked. Every below-surface position grows the milling box and sets the route
   depth. A `G82` drill records a drill depth. Once the loop ends, the box is
   padded and the probing grid (`GridMaxX`, `GridMaxY`, `Gx`, `Gy`) is derived.
2. **Interpolate** (`DoInterpolation`) replays the list from the origin. Every
   below-surface move and every `G82` gets a Z formula: a bilinear mix of the
   four grid cells around the point. The mix names one G-code parameter per cell,
   and the cell allocator hands these out from 2000 upwards.
3. **Emit** (`GenerateGCodeWithProbing`) writes every command in list order.
   Right after each `G20`/`G21` it inserts the calibration header. Then come the
   probe calls, one per allocated cell, in serpentine order over the grid, and
   then the resume block.

The modules follow the program's structure:

- `Commands`: the command record of include/parser.h, both as a value (`Command`) and as the mutable class `GCodeCommand`, plus `ToString`.
- `Parser`: the tokenizer and line parser of src/parser.cpp.
- `Geometry`: positions, `moveTo` and the recursive splitter.
- `Plan`: pass 1 on values.
- `Cells`: the cell-variable allocator.
- `Interp`: grid references, the four-corner interpolation and pass 2 on values.
- `Emit`: pass 3 on values: the calibration settings, the serpentine walk and the output text.
- `Probe`: the global state as the classes `ProbeInfo` and `PcbProbe`. Their methods update fields in place, as the C++ functions do. Each is proved against the value-level definition of its pass.

`Text` and `Wrappers` are small helpers: digit strings and `Option`/`Result`.

The model follows what the code does, including these behaviours, some of which go against what its comments and variable names suggest:

- A move is split only when the tool is below the surface *before* the move (src/pcb-probe.cpp:50). A plunge from Z=0 to a far-away below-surface point is therefore kept whole.
- The flags `definedMillRouteDepth` and `definedDrillSpotDepth` (src/pcb-probe.cpp:88-89) are never set. The route depth is therefore the *last* below-surface Z, not the deepest, and the drill depth is the *last* `G82` Z, not the first.
- `info` is zero-initialised, so its unit starts as inches (`UNIT_INCHES` is 0), although include/pcb-probe.h:24 comments the field as "MM by default".
- Every `G20` divides the grid size again, so repeating it is not a no-op.
- Pass 2 gives a formula to any `G00`/`G01` after which the *tracked* Z is below zero, including one whose own line has no Z argument.
- The pieces of a split move carry no Z (src/pcb-probe.cpp:34-38), but pass 1 moves the tool with the whole command (src/pcb-probe.cpp:115-116). A split move that raises the tool therefore ends above the surface in pass 1, while pass 2 goes on tracking the tool below it. Pass 2 then gives formulas to the pieces and to every later move without a Z, even outside the box, and the raise is lost from the output (`Interp.RaiseLost`).
- A `G82` always gets a formula but never widens the box (src/pcb-probe.cpp:140-147, 295-300). A drill outside the box reads corner cells outside the probing grid, which are allocated but never probed (`Interp.DrillOutsideBox`).
- Only the minimum corner of the box is padded by half a grid size; the maximum corner is not.

## Model

| member | source | states |
|---|---|---|
| Commands.Command.Has | include/parser.h:74-88 | `hasXCoord`, `hasYCoord`, `hasZCoord` and `hasFeedRate` on a command value: true exactly when the letter is a key of the map |
| Commands.Command.ValueOf | src/parser.cpp:118 | the `arguments[argName]` read: the stored value for a key of the map, and 0 for a letter that is not a key |
| Commands.Command.WithValue | include/parser.h:35-56 | a setter writes only the map entry for its letter; name, formula, letter list and every other letter's value stay as they were |
| Commands.Command.WithArgument | include/parser.h:90-94 | the letter is appended to the letter list even when already present, the map keeps the new value, and every other value is unchanged |
| Commands.Command.WithZFormula | include/parser.h:47-52 | the formula is stored, `'Z'` is appended to the letter list only when there is no Z key, and no argument value changes |
| Commands.XYCommand | include/parser.h:20-26 | the `(name, x, y)` command has letter list "XY", exactly the keys X and Y with the given values, and no formula |
| Commands.GCodeCommand.WithXY | include/parser.h:20-26 | the constructor yields exactly the `(name, x, y)` command |
| Commands.GCodeCommand.constructor | include/parser.h:28-33 | the default constructor yields the empty command |
| Commands.GCodeCommand.Copy | src/pcb-probe.cpp:277 | the copy made of a list element holds the same command |
| Commands.GCodeCommand.SetXCoord | include/parser.h:35-37 | the new state is the old command with X set, letter list untouched |
| Commands.GCodeCommand.SetYCoord | include/parser.h:39-41 | the new state is the old command with Y set, letter list untouched |
| Commands.GCodeCommand.SetZCoord | include/parser.h:43-45 | the new state is the old command with Z set, letter list untouched |
| Commands.GCodeCommand.SetFeedRate | include/parser.h:54-56 | the new state is the old command with F set, letter list untouched |
| Commands.GCodeCommand.SetZFormula | include/parser.h:47-52 | the new state is the old command with the formula attached |
| Commands.GCodeCommand.HasXCoord | include/parser.h:74-76 | true exactly when X is a key of the command's map |
| Commands.GCodeCommand.HasYCoord | include/parser.h:78-80 | true exactly when Y is a key of the command's map |
| Commands.GCodeCommand.HasZCoord | include/parser.h:82-84 | true exactly when Z is a key of the command's map |
| Commands.GCodeCommand.HasFeedRate | include/parser.h:86-88 | true exactly when F is a key of the command's map |
| Commands.GCodeCommand.GetXCoord | include/parser.h:58-60 | returns the stored X value of a command that has one |
| Commands.GCodeCommand.GetYCoord | include/parser.h:62-64 | returns the stored Y value of a command that has one |
| Commands.GCodeCommand.GetZCoord | include/parser.h:66-68 | returns the stored Z value of a command that has one |
| Commands.GCodeCommand.GetFeedRate | include/parser.h:70-72 | returns the stored F value of a command that has one |
| Commands.GCodeCommand.AddArgument | include/parser.h:90-94 | the new state is the old command with the argument appended |
| Commands.GCodeCommand.Clear | include/parser.h:96-102 | name, formula, letter list and map are all emptied |
| Commands.GCodeCommand.ToString | src/parser.cpp:108-128 | returns the rendering of the command as it was, and leaves it as `WithListedKeys` of the old value, because `arguments[argName]` inserts a 0 for a listed letter that is not a key |
| Commands.GCodeCommand.Index | src/parser.cpp:118 | returns the value stored for the letter, or 0 when it is not a key; a missing letter is then inserted with 0, as `operator[]` of a map does, and name, formula and letter list are kept |
| Commands.Command.WithListedKeys | src/parser.cpp:113-116 | every listed letter becomes a key, a missing one reading 0; name, formula, letter list and every `ValueOf` are kept |
| Commands.ListedKeysRendered | src/parser.cpp:108-128 | rendering what `ToString` left behind gives the same text |
| Commands.ListedKeysUnchanged | src/parser.cpp:113-116 | a command whose listed letters are all keys, as every parsed one, is left unchanged |
| Commands.ListedKeysFormulaZ | src/parser.cpp:113-116 | a Z listed only for its formula becomes a key holding 0, so `hasZCoord` holds afterwards |
| Commands.SetterNotRendered | include/parser.h:35-56 | a value set for a letter that is not in the letter list leaves the rendered text unchanged, so the F set on a split half is never printed |
| Commands.RenderArgsAgree | src/parser.cpp:116-125 | the rendering depends only on the listed letters, their values and the formula |
| Commands.AddArgumentRendered | src/parser.cpp:116-125 | adding a new letter appends exactly `" <letter><value>"` to the rendering |
| Commands.RenderIgnoresZValue | src/parser.cpp:120-124 | once a formula is attached, the numeric Z value is not rendered |
| Commands.Render | src/parser.cpp:108-128 | `ToString` writes the name first; `Parser.ParseRenderRoundTrip` proves that parsing the text back gives the command again, and `Commands.RenderIgnoresZValue` that a formula replaces the Z value |
| Commands.RenderArgs | src/parser.cpp:116-125 | the arguments in letter-list order; `Commands.RenderArgsAgree` proves it depends only on the listed letters, their values and the formula, and `Commands.SetterNotRendered` that an unlisted letter is never written |
| Commands.FormulaRenderedLast | src/parser.cpp:120-124 | attaching a formula to a command without Z appends exactly `" Z[formula]"` to its rendering |
| Text.IntToStringInjective | src/pcb-probe.cpp:171 | distinct integers are written as distinct digit strings |
| Cells.GetKey | src/pcb-probe.cpp:167-173 | the key of a cell is its X index in decimal, a comma and its Y index; `Cells.GetKeyInjective` proves that no two cells share a key |
| Cells.HasVariable | src/pcb-probe.cpp:190-195 | a cell has a variable exactly when its key is in the table; `Cells.Ensure` and `Cells.EmptyValid` prove that `ensure_cell_variable` makes it hold and that it holds for no cell at the start |
| Cells.Variable | src/pcb-probe.cpp:197-201 | the id stored under the cell's key, read only for a cell that has one; `Cells.DistinctCells` proves that different cells have different ids |
| Cells.GetKeyInjective | src/pcb-probe.cpp:167-173 | two cells with the same `"gx,gy"` key are the same cell |
| Cells.Ensure | src/pcb-probe.cpp:178-185 | after `ensure_cell_variable` the cell has a variable |
| Cells.EmptyValid | src/pcb-probe.cpp:13-14 | the initial table is empty and satisfies the allocator invariant (ids in `[2000, next)`, pairwise distinct) |
| Cells.EnsureIdempotent | src/pcb-probe.cpp:178-185 | ensuring a cell twice is the same as ensuring it once |
| Cells.EnsureAllocates | src/pcb-probe.cpp:178-185 | the invariant is kept; a known cell leaves the table unchanged; a new cell gets `next` and the counter rises by exactly one |
| Cells.EnsureGrows | src/pcb-probe.cpp:178-185 | no id is ever removed or reassigned and the counter never falls |
| Cells.DistinctCells | src/pcb-probe.cpp:178-201 | in a valid table, different allocated cells have different variables |
| Parser.SkipEnd | src/parser.cpp:22-26 | the first non-space at or after the start, or the end of the line; everything skipped is a space |
| Parser.SkipSpaces | src/parser.cpp:22-26 | the loop stops exactly where `SkipEnd` says |
| Parser.ScanTo | src/parser.cpp:14-15 | a scan ends at the first `stop` at or after its start, or at the end of the line, and passes no `stop` on the way; the number scan stops only at a literal `' '`, so tabs and `(` do not stop it, and the comment scan of src/parser.cpp:40-41 stops at `)` |
| Parser.ParseNumber | src/parser.cpp:9-20 | the position ends where `ScanTo` finds the next `' '` and the value is `atof` of the characters consumed |
| Parser.SkipComment | src/parser.cpp:39-45 | the position ends one past the `)`, or one past the end when the comment is unterminated |
| Parser.WordEnd | src/parser.cpp:52-53 | a command word runs to the first space-class character or the end |
| Parser.ReadWord | src/parser.cpp:52-55 | returns the characters up to `WordEnd` and the position there |
| Parser.TokenAt | src/parser.cpp:28-63 | a successful token ends inside the line |
| Parser.TokenAtEnd | src/parser.cpp:35-36 | only spaces left: the empty name at the end of the line |
| Parser.TokenAtOverrun | src/parser.cpp:35-45 | a position past the end after an unterminated comment is an error instead of the out-of-range read |
| Parser.TokenAtComment | src/parser.cpp:39-45 | a comment is skipped and scanning goes on after it |
| Parser.TokenAtCoordinate | src/parser.cpp:46-48 | a leading X yields `"G01"` and position 0 |
| Parser.TokenAtWord | src/parser.cpp:49-55 | on G, M or S the token is the maximal run of non-space characters |
| Parser.TokenAtUnknown | src/parser.cpp:56-58 | any other leading symbol is an `UnknownSymbol` error naming it |
| Parser.TokenShape | src/parser.cpp:28-63 | the empty name comes only at the end of the line; a word starts with G, M or S, has no spaces and is followed by a space or the end; position 0 comes only with the implicit `"G01"` |
| Parser.WordShape | src/parser.cpp:49-55 | a command word is non-empty, starts with G, M or S and contains no space |
| Parser.TokenStep | src/parser.cpp:33-59 | one pass of the token loop either decides the token or moves strictly forward to a position with the same token |
| Parser.NextToken | src/parser.cpp:28-63 | the loop returns exactly the token `TokenAt` defines |
| Parser.ArgsFrom | src/parser.cpp:82-105 | the argument grammar of `ParseGCodeLine`; `Parser.ParseArguments` proves that the loop follows it, and `Parser.ArgsFromWellFormed` that it only appends letters with their values |
| Parser.ParseLine | src/parser.cpp:65-106 | the command or the error one line gives; `Parser.ParseGCodeLine` proves that the method follows it, and `Parser.ParsedIsWellFormed` and `Parser.ParseRenderRoundTrip` that its commands are well formed and read back from their rendering |
| Parser.ArgsFromDone | src/parser.cpp:84-87 | the argument loop stops at the end of the line |
| Parser.ArgsFromLetter | src/parser.cpp:89-92 | a letter and the number after it add exactly one argument |
| Parser.ArgsFromComment | src/parser.cpp:94-98 | a comment among the arguments is skipped |
| Parser.ArgsFromUnknown | src/parser.cpp:99-102 | any other character is an `UnknownArgument` error naming it |
| Parser.ReadArgument | src/parser.cpp:89-92 | the letter and its number are appended to the command and the position moves past the number |
| Parser.ParseArgument | src/parser.cpp:84-103 | one pass of the argument loop stops, moves forward with the same remaining result, or reports the error |
| Parser.ParseArguments | src/parser.cpp:82-105 | the loop succeeds exactly when the argument grammar does, leaves the command it defines, and otherwise reports its error |
| Parser.ParseGCodeLine | src/parser.cpp:65-106 | succeeds exactly when `ParseLine` does and then leaves that command; otherwise returns `ParseLine`'s error |
| Parser.ArgsFromWellFormed | src/parser.cpp:82-105 | the argument loop keeps the name, only extends the letter list, and keeps the record well formed |
| Parser.ParsedIsWellFormed | src/parser.cpp:65-106 | a parsed command has no formula, only letters as argument names and exactly the listed letters as keys; its name is the first token; a line without a name gives the empty command |
| Parser.NameReparsed | src/parser.cpp:28-55 | the first token of a rendered command is its name |
| Parser.ArgumentsReparsed | src/parser.cpp:82-105 | the argument loop reads back each rendered `" <letter><value>"` as that argument, in order |
| Parser.ParseRenderRoundTrip | src/parser.cpp:65-128 | parsing what `ToString` writes gives the command back, for a well-formed command named by a G, M or S word whose values format without spaces and read back exactly |
| Geometry.MovedTo | src/pcb-probe.cpp:61-71 | an axis the command does not name keeps its coordinate |
| Geometry.MoveIdempotent | src/pcb-probe.cpp:61-71 | moving twice by the same command is moving once |
| Geometry.MoveForgetsStart | src/pcb-probe.cpp:61-71 | a command naming X, Y and Z reaches the same position from anywhere |
| Geometry.HalvingShrinks | src/pcb-probe.cpp:30-42 | halving a too-long displacement strictly lowers its length in units of the split distance |
| Geometry.HalvesDepth | src/pcb-probe.cpp:30-42 | both halves of a too-long move are exactly one halving level shallower |
| Geometry.PieceCommand | src/pcb-probe.cpp:34-38 | a piece carries the name, X, Y and at most the original F, no formula and no other argument |
| Geometry.Pieces | src/pcb-probe.cpp:22-46 | the recursive halving yields at least one leaf |
| Geometry.SplitLeaves | src/pcb-probe.cpp:22-46 | `distance_split` yields at least one leaf, and a move within the split distance on both axes is kept unchanged |
| Geometry.SplitUnfolds | src/pcb-probe.cpp:31-42 | the leaves of a long move are the first half's leaves from the origin, followed by the second half's leaves from the midpoint |
| Geometry.HalvesShallower | src/pcb-probe.cpp:41-42 | both recursive calls work on a strictly smaller measure, so the recursion ends for a positive split distance |
| Geometry.SplitIfNeeded | src/pcb-probe.cpp:48-59 | the command is kept unsplit when the tool is at or above the surface before the move, or X or Y is missing |
| Geometry.PiecesCount | src/pcb-probe.cpp:22-46 | halving to depth d gives exactly 2^d leaves |
| Geometry.SplitCount | src/pcb-probe.cpp:22-46 | `distance_split` gives exactly 2^depth leaves |
| Geometry.PiecesPath | src/pcb-probe.cpp:22-46 | the leaves form a path from the start in which every step stays within the split distance on each axis, ending at the target |
| Geometry.SplitPath | src/pcb-probe.cpp:22-46 | the appended leaves are contiguous from the start, every one moves at most the split distance on each axis, and the last ends at the original target |
| Geometry.SumTelescopes | src/pcb-probe.cpp:22-46 | on either axis, the displacements of consecutive leaves add up to the distance from the start to the last leaf |
| Geometry.SplitDisplacementSum | src/pcb-probe.cpp:22-46 | the X displacements of the leaves add up to the original X displacement, and the Y displacements to the original Y displacement |
| Geometry.PiecesBuilt | src/pcb-probe.cpp:34-38 | the first piece carries the feed rate and no other piece carries one |
| Geometry.SplitDropsArguments | src/pcb-probe.cpp:34-38 | a split yields at least two leaves; each carries only the name, X and Y, and only the first may carry the original F; none carries a Z |
| Geometry.SplitExample | src/pcb-probe.cpp:22-46 | a 12-unit move with split distance 5 becomes four moves ending at 3, 6, 9 and 12 |
| Plan.Initial | include/pcb-probe.h:13-24 | the zero-initialised `info` starts in inches, not millimetres |
| Plan.ResetPos | include/pcb-probe.h:47-52 | the position becomes the origin and no other field changes |
| Plan.Start | src/pcb-probe.cpp:91-93 | pass 1 starts at the origin with the split distance equal to the grid size, no drill spots and no box |
| Plan.Step | src/pcb-probe.cpp:97-151 | one command keeps the split distance equal to the positive grid size; its behaviour is proved by `Plan.StepCuts` (a below-surface end opens or grows the box), `Plan.StepKeepsBox` (otherwise the box and route depth stay), `Plan.StepDrill` (a G82 sets the drill spot flag and depth), `Plan.StepUnits` (G20/G21) and `Plan.StepKept` (what is appended to the list) |
| Plan.Run | src/pcb-probe.cpp:95-152 | the whole loop keeps the split distance equal to the positive grid size; `Plan.BoxIsBoundingBox` proves the box is the bounding box of the below-surface move ends, `Plan.RouteDepthIsLastCut` that the route depth is the last such Z, `Plan.DrillSpots` the drill flag and depth, and `Plan.UnitOfRun` the final unit |
| Plan.ParseAll | src/pcb-probe.cpp:95-99 | success gives one command per line; a failure names a line that exists |
| Plan.ParseAllLines | src/pcb-probe.cpp:97-99 | each command is the parse of its own line |
| Plan.ParseAllFirstError | src/pcb-probe.cpp:97-99 | the reported line is the first one that fails to parse, with its error |
| Plan.ParseAllPrefix | src/pcb-probe.cpp:95-99 | once a prefix fails, the lines after it do not matter, as the program stops there |
| Plan.Ceil | src/pcb-probe.cpp:155-156 | the least integer at or above its argument |
| Plan.Finish | src/pcb-probe.cpp:155-162 | the cell counts cover the box, the minimum corner is padded by half a grid size and the maximum corner is kept |
| Plan.GridSpansBox | src/pcb-probe.cpp:155-162 | the adjusted pitches are positive and at most the grid size, and the centre of the last column and row are exactly the box maximum |
| Plan.LoadAndSplit | src/pcb-probe.cpp:73-163 | pass 1 as a whole: the first line that fails to parse, or the loop over all commands followed by the grid derivation; `Plan.LoadAndSplitErr` and `Plan.LoadAndSplitOk` prove each case |
| Plan.LoadAndSplitErr | src/pcb-probe.cpp:95-101 | a line that fails to parse ends pass 1 with that line's error |
| Plan.LoadAndSplitOk | src/pcb-probe.cpp:73-163 | otherwise pass 1 is the loop over all commands followed by the grid derivation, and the box is ordered |
| Plan.Cut | src/pcb-probe.cpp:118-137 | the new box contains the tool position and, if the box was already open, the old box; the route depth becomes the position's Z |
| Plan.CutBounds | src/pcb-probe.cpp:118-137 | folding a below-surface position into the box keeps every folded position inside it and each bound attained by one of them |
| Plan.StepKeepsBox | src/pcb-probe.cpp:110-151 | a command that does not end below the surface leaves the box, its flag and the route depth unchanged |
| Plan.StepCuts | src/pcb-probe.cpp:110-138 | a move that ends below the surface opens or grows the box around the new position |
| Plan.BoxIsBoundingBox | src/pcb-probe.cpp:118-137 | after pass 1 the box is defined exactly when some move ended below the surface, and then it is the bounding box of all such positions |
| Plan.BoxOrdered | src/pcb-probe.cpp:118-137 | the box minimum stays at or below its maximum on both axes |
| Plan.RouteDepthIsLastCut | src/pcb-probe.cpp:118-120 | the route depth ends as the Z of the last below-surface position, or unchanged when there is none |
| Plan.CutsBelowSurface | src/pcb-probe.cpp:118 | every folded position is below the surface, and there is at most one per command |
| Plan.DrillNotFolded | src/pcb-probe.cpp:140-147 | a G82 moves the tool and sets `HasDrillSpots` but leaves the box and the route depth alone |
| Plan.StepDrill | src/pcb-probe.cpp:140-147 | a G82 sets `HasDrillSpots` and, when it has a Z, the drill depth |
| Plan.DrillSpots | src/pcb-probe.cpp:140-147 | after pass 1 `HasDrillSpots` holds exactly when some command is a G82, and the drill depth is the Z of the last G82 that has one |
| Plan.Units | src/pcb-probe.cpp:101-108 | a unit command changes only the grid size, the split distance and the unit, and the unit becomes inches, millimetres or stays as it was |
| Plan.StepUnits | src/pcb-probe.cpp:101-108 | G20 divides the grid size by 25.4 and selects inches; G21 selects millimetres; other commands change neither |
| Plan.GridAfterPower | src/pcb-probe.cpp:101-104 | the final grid size times 25.4 to the number of G20s is the initial grid size, so each G20 divides again |
| Plan.UnitOfRun | src/pcb-probe.cpp:101-108 | the unit after pass 1 is that of the last G20/G21, or the initial one |
| Plan.SplitIsMoves | src/pcb-probe.cpp:34-35 | every piece of a split move keeps the move's name |
| Plan.StepKept | src/pcb-probe.cpp:110-151 | one command appends to the list only its pieces when it is a move, itself when it is any other named command, and nothing for an empty line |
| Plan.RunKeepsOthers | src/pcb-probe.cpp:140-151 | every named command that is not a move reaches the list unchanged and in order, and unnamed lines are dropped |
| Interp.GridRef | src/pcb-probe.cpp:208-216 | the floor of the distance from the box minimum in pitches; `Interp.OffsetInCell` proves that the point then lies within that cell, and `Interp.InBoxInGrid` that a point inside the box falls inside the grid |
| Interp.OffsetIsFraction | src/pcb-probe.cpp:228-229 | the cell offset is the fractional part of the grid coordinate |
| Interp.OffsetInCell | src/pcb-probe.cpp:228-229 | the offset within the cell lies in `[0, 1)` |
| Interp.Neighbour | src/pcb-probe.cpp:231-239 | the neighbour is the cell itself or the cell one step towards the nearer side, inside `[0, max]`, and a cell in range has a neighbour in range |
| Interp.NeighbourClamps | src/pcb-probe.cpp:231-239 | the neighbour falls back to the cell itself exactly when the step would leave `[0, max]` |
| Interp.Share | src/pcb-probe.cpp:241-242 | for an offset in `[0, 1)` the own cell's share lies in `[0.5, 1]` |
| Interp.WeightsAreConvex | src/pcb-probe.cpp:259-262 | the four weights sum to one and are non-negative for shares in `[0, 1]` |
| Interp.WeightsAtConvex | src/pcb-probe.cpp:226-262 | at any point the four weights sum to one, the own cell weighs at least a quarter and none is negative |
| Interp.EnsureCorners | src/pcb-probe.cpp:247-250 | all four corner cells have variables afterwards |
| Interp.EnsureCornersValid | src/pcb-probe.cpp:247-250 | the allocator invariant is kept, at most four ids are added and none is changed |
| Interp.FormulaText | src/pcb-probe.cpp:255-265 | the four weighted cell variables and the depth parameter; `Interp.FormulaEnds` proves which parameter ends it |
| Interp.Interpolate | src/pcb-probe.cpp:222-266 | allocates the four corner cells and writes their formula; `Interp.InterpolateAllocates` proves that all four then have ids and older ids are kept |
| Interp.FormulaEnds | src/pcb-probe.cpp:255-265 | the formula ends with `#3` for a linear move and `#7` for a drill, and never with the other |
| Interp.InterpolateIgnoresPos | src/pcb-probe.cpp:222-266 | `interpolate` does not depend on the tracked tool position |
| Interp.InterpolateAllocates | src/pcb-probe.cpp:222-266 | the four corners are allocated, older ids are kept, the invariant holds and the formula ends with the right depth parameter |
| Interp.InBoxInGrid | src/pcb-probe.cpp:155-162 | a coordinate inside the box falls in a column between 0 and the cell count |
| Interp.CutCornersInGrid | src/pcb-probe.cpp:208-239 | for a point inside the box all four corner cells lie inside the probing grid |
| Interp.Mark | src/pcb-probe.cpp:279-300 | one iteration of `DoInterpolation` appends exactly one command and keeps those before it; `Interp.MarkStep` proves the tool moves as `moveTo` does and the command gets a formula exactly as pass 2 decides |
| Interp.MarkAll | src/pcb-probe.cpp:271-305 | the loop appends exactly one command per input command and keeps those before them; `Interp.MarkAllShape` proves each command keeps its place and is marked for the position after it, and `Interp.FormulaIffMarked` that a parsed command gets a formula exactly when it is a below-surface move or a G82 |
| Interp.MarkStep | src/pcb-probe.cpp:279-300 | one command of pass 2 moves the tool as `moveTo` does and appends that command as pass 2 marks it |
| Interp.MarkStepTable | src/pcb-probe.cpp:279-300 | one command of pass 2 only adds ids to the table |
| Interp.MarkAllTable | src/pcb-probe.cpp:276-303 | pass 2 keeps the allocator invariant and never reassigns an id |
| Interp.MarkAllPos | src/pcb-probe.cpp:275-300 | pass 2 ends where tracking the moves and drills from its start leads |
| Interp.MarkAllShape | src/pcb-probe.cpp:271-305 | pass 2 keeps the number and order of commands, and each command is marked according to the position the tool has reached after it |
| Interp.FormulaIffMarked | src/pcb-probe.cpp:284-299 | a command gets a formula exactly when it is a move ending below the surface or a G82; a marked command keeps its name and arguments |
| Interp.DrillAsideLoad | src/pcb-probe.cpp:110-147 | after `G01 X0 Y0 Z-1` and `G82 X-10 Y0 Z-1`, pass 1 keeps both commands and the box is the single point (0, 0) |
| Interp.PointGrid | src/pcb-probe.cpp:155-162 | a one-point box on grid 5 gets one cell per axis, starting at -2.5 with pitch 5 |
| Interp.DrillOutsideBox | src/pcb-probe.cpp:208-216 | a drill outside the box falls in column -2 of a one-column grid, and pass 2 still allocates that cell |
| Interp.RaiseSplit | src/pcb-probe.cpp:48-59 | a move of 6 that starts below the surface on grid 5 becomes two pieces without Z |
| Interp.RaiseAsideLoad | src/pcb-probe.cpp:110-138 | after a plunge, a split move that raises the tool and a move back, pass 1 ends above the surface with the box still the plunge point |
| Interp.RaiseAsideTrack | src/pcb-probe.cpp:279-283 | pass 2, seeing only the pieces, still tracks the tool below the surface |
| Interp.RaiseLost | src/pcb-probe.cpp:279-292 | the move back, with no Z of its own, gets a formula that reads cell (-2, 0) outside the grid, although pass 1 ended above the surface |
| Emit.Settings | src/pcb-probe.cpp:332-362 | the header uses the route depth and, only with drill spots, the drill depth; the speeds are metric, or divided by 25.4 in inches; probe and traverse heights are ordered |
| Emit.RowCell | src/pcb-probe.cpp:395-399 | the cell visited at step `rgx` of row `gy` lies in that row and inside the grid |
| Emit.Serpentine | src/pcb-probe.cpp:393-399 | the cells the two probe loops visit, row by row, alternating direction; `Emit.SerpentineCovers`, `Emit.SerpentineWalk` and `Emit.SerpentineEnds` prove it is a complete walk between neighbouring cells |
| Emit.SerpentineCovers | src/pcb-probe.cpp:393-399 | the walk visits every grid cell exactly once and nothing else |
| Emit.SerpentineEnds | src/pcb-probe.cpp:393-399 | the walk starts at cell (0,0) and ends at the right end of the last row when the row count is odd, and at its left end otherwise |
| Emit.SerpentineWalk | src/pcb-probe.cpp:393-399 | consecutive cells of the walk are neighbouring cells, so the probe head never jumps |
| Emit.ProbesOfShape | src/pcb-probe.cpp:402-412 | a probe is written exactly for the visited cells that have a variable, at the centre of the cell, with that variable |
| Emit.AllocatedCells | src/pcb-probe.cpp:405-406 | skipping cells without a variable keeps exactly the allocated visited cells, without repeats |
| Emit.ProbeBlock | src/pcb-probe.cpp:393-414 | the probes of the allocated cells in walk order; `Emit.ProbeBlockCovers` proves that each allocated grid cell is probed once and nothing else |
| Emit.ProbeBlockCovers | src/pcb-probe.cpp:393-414 | the probe block probes every allocated grid cell exactly once and no cell outside the grid |
| Emit.ItemsOf | src/pcb-probe.cpp:324-430 | a command, followed for a unit command by the header, the probe block and the resume block; `Emit.ItemsOfUnit` and `Emit.ItemsOfEcho` prove when each part appears |
| Emit.Output | src/pcb-probe.cpp:316-433 | the text of all commands in turn; `Emit.OutputNext` and `Emit.ItemsEcho` prove it is built command by command in list order |
| Emit.HeaderText | src/pcb-probe.cpp:349-384 | the calibration parameters #1 to #6, #7 only with drill spots, and the probe subroutine; `Emit.ItemsOfText` proves where it is written |
| Emit.ProbeText | src/pcb-probe.cpp:410-412 | the comment, the probe call at the cell centre and the store of the result into the cell's parameter; `Emit.ProbesOfText` proves that the probe lines follow the walk |
| Emit.ItemsOfEcho | src/pcb-probe.cpp:324-430 | each command is written exactly once |
| Emit.ItemsEcho | src/pcb-probe.cpp:318-433 | the commands are written in list order, each once |
| Emit.ItemsOfUnit | src/pcb-probe.cpp:324-430 | a command is followed by the header and the resume block exactly when it is a G20 or a G21 |
| Emit.ItemsOfText | src/pcb-probe.cpp:324-430 | the text for a G20/G21 is the command line, header, probe block and resume block; for any other command it is just its line |
| Emit.OutputNext | src/pcb-probe.cpp:318-433 | the output for one more command is the earlier output followed by that command's text |
| Emit.ProbesOfText | src/pcb-probe.cpp:393-414 | writing the probes is writing each visited cell's line in walk order |
| Probe.ProbeInfo.constructor | src/pcb-probe.cpp:11 | the global starts zero-initialised with the grid size chosen |
| Probe.ProbeInfo.ResetPos | include/pcb-probe.h:47-52 | the position becomes the origin and no other field changes |
| Probe.PcbProbe.constructor | src/pcb-probe.cpp:11-15 | empty list, empty table, counter at 2000 and line counter at 0 |
| Probe.PcbProbe.MoveTo | src/pcb-probe.cpp:61-71 | only the position changes, as `MovedTo` says |
| Probe.PcbProbe.Halves | src/pcb-probe.cpp:31-38 | builds the move to the midpoint, carrying F, and the move on to the target |
| Probe.PcbProbe.DistanceSplit | src/pcb-probe.cpp:22-46 | appends exactly the leaves of the split to the list; the table and the line counter stay the same |
| Probe.PcbProbe.SplitIfNeeded | src/pcb-probe.cpp:48-59 | appends exactly what `split_if_needed` keeps |
| Probe.PcbProbe.ApplyUnits | src/pcb-probe.cpp:101-108 | updates the units, grid size and split distance |
| Probe.PcbProbe.FoldCut | src/pcb-probe.cpp:118-137 | sets the route depth, grows or opens the box, and sets all four flags |
| Probe.PcbProbe.LoadCommand | src/pcb-probe.cpp:101-151 | the new record, flags and list are one step of pass 1 on the parsed command |
| Probe.PcbProbe.LoadLine | src/pcb-probe.cpp:97-151 | counts the line, and either reports the parse error of that line or extends pass 1 by its command |
| Probe.PcbProbe.LoadParsed | src/pcb-probe.cpp:101-151 | after a line parsed to a command, the pass-1 state is the run of the commands so far followed by that one; the allocator and the line count are kept |
| Probe.PcbProbe.ReadLines | src/pcb-probe.cpp:95-152 | the loop stops at the first bad line with its number, or runs pass 1 over every line |
| Probe.PcbProbe.DeriveGrid | src/pcb-probe.cpp:155-162 | derives the grid as `Finish` says |
| Probe.PcbProbe.LoadAndSplitSegments | src/pcb-probe.cpp:73-163 | succeeds exactly when `LoadAndSplit` does and leaves its record and list, or returns its line error; the allocator is untouched |
| Probe.PcbProbe.EnsureCellVariable | src/pcb-probe.cpp:178-185 | the table becomes `Ensure` of the old table |
| Probe.PcbProbe.Locate | src/pcb-probe.cpp:225-242 | computes the four corner cells and the two shares of the point |
| Probe.PcbProbe.WriteFormula | src/pcb-probe.cpp:255-265 | writes the weighted sum of the four corner variables and the depth parameter |
| Probe.PcbProbe.Interpolate | src/pcb-probe.cpp:222-266 | the new table and the formula are those of `Interp.Interpolate` |
| Probe.PcbProbe.SetFormula | src/pcb-probe.cpp:291-292 | interpolates at the tracked point and attaches the formula to list element `k` only |
| Probe.PcbProbe.MarkCommand | src/pcb-probe.cpp:277-300 | replaces list element `k` by its marked version and moves the tool, as one step of pass 2 |
| Probe.PcbProbe.MarkNext | src/pcb-probe.cpp:276-303 | one iteration extends the marked prefix of the list by one command |
| Probe.PcbProbe.DoInterpolation | src/pcb-probe.cpp:271-305 | from the origin, the list, table and position become those of pass 2 on the old list |
| Probe.PcbProbe.WriteCell | src/pcb-probe.cpp:395-412 | one cell of a row extends the row's text |
| Probe.PcbProbe.WriteRow | src/pcb-probe.cpp:394-413 | writes the text of one serpentine row |
| Probe.PcbProbe.WriteProbes | src/pcb-probe.cpp:391-414 | writes exactly the probe block |
| Probe.PcbProbe.WriteHeader | src/pcb-probe.cpp:326-384 | the header text is `Emit.HeaderText` of the settings for the current unit |
| Probe.PcbProbe.EchoLine | src/pcb-probe.cpp:319 | renders a copy of list element `k`, so the list itself is not changed by `ToString` |
| Probe.PcbProbe.WriteUnitCommand | src/pcb-probe.cpp:324-428 | for a `G21`/`G20`, the line, the header, the probes and the resume block, as `Emit.ItemsOf` says |
| Probe.PcbProbe.WriteCommand | src/pcb-probe.cpp:319-430 | writes the text for list element `k` |
| Probe.PcbProbe.WriteNext | src/pcb-probe.cpp:318-433 | one iteration extends the output for the first `k` commands to the first `k + 1` |
| Probe.PcbProbe.GenerateGCodeWithProbing | src/pcb-probe.cpp:307-433 | the text written is `Output` of the final state: every command in order, with a header and probe block after each G20/G21 |

## Left out

- File input and output are not modelled: opening the files, the "Unable to open file" message and the early return. Pass 1 takes the lines `getline` would return as a sequence, and pass 3 returns the text it would write.
- `exit(2)` and `exit(3)` in the parser, and the messages sent to `cerr`, become the `ParseError` results `UnknownSymbol` and `UnknownArgument`. Pass 1 stops at the first bad line and returns it as a `LineError` with its line number.
- Lines are sequences of characters and `isspace`/`isalpha` are their C-locale ASCII sets (`Parser.SkipEnd`, `Text.IsAlpha`). Non-ASCII input, where the source's calls on a signed `char` above 0x7F are undefined, is not modelled.
- The unterminated comment in `NextToken` reads one character past the end of the line in the source. The model reports it as the error `CommentOverrun`.
- `atof` and the stream formatting of numbers are function parameters. There are three formatters. `commandFmt` (the `fmt` of `Commands.Render`) is the fixed, four-decimal format that `ToString` uses for command arguments (src/parser.cpp:112). `formulaFmt` is the fixed, three-decimal format of the weights in a Z formula (src/pcb-probe.cpp:258). `num` is the default stream format of the header and probe text. Their digits are not modelled.
- `Real` is `long double`. The model uses exact reals, so floating-point rounding is not modelled, for instance in `Geometry.SplitDisplacementSum`.
- src/main.cpp is not part of this model. It handles the command-line arguments and the choice of grid size, and it calls the three passes.
- `GCodeCommand::operator=` is not modelled. The passes never call it: the list copies commands with the implicit copy constructor, modelled by `Commands.GCodeCommand.Copy`.
- Commands.GCodeCommand.GetXCoord: requires the key to be present. The source's `operator[]` would insert a 0 for a missing key. The same holds for GetYCoord, GetZCoord and GetFeedRate.
- Probe.PcbProbe.Locate: cell indices are unbounded integers, so the source's cast of a negative floor to `unsigned int` (src/pcb-probe.cpp:214-215), which is undefined behaviour in C++, is not modelled. For a point inside the box no index is negative (`Interp.CutCornersInGrid`). Pass 2 reaches points outside the box in two ways. (a) A `G82` is never folded into the box but always gets a formula: after `G01 X0 Y0 Z-1` and `G82 X-10 Y0 Z-1` on grid 5, the drill falls in column -2 (`Interp.DrillOutsideBox`). (b) The pieces of a split move carry no Z, so after a split move that raises the tool, pass 2 still tracks it below the surface and gives formulas to the pieces and to later moves without a Z wherever they are (`Interp.RaiseLost`). In both cases the model allocates a cell with a negative index, such as the key `"-2,0"`, and the probe block never probes it (`Emit.ProbeBlockCovers`). The source has no defined result there. With the usual wrap-around, the index converts back to the same negative `int` when it is passed to `getKey`. The same wrap-around makes the source compute the offset from the unsigned value (`(Real) cellx` at src/pcb-probe.cpp:228, 4294967294 for column -2), so the offset there is about -4.29e9 and the weights it writes are of that magnitude. The model's weights there lie in [0, 1], with the own-cell share in [0.5, 1], and do not match what the wrapped source would print.
- Interp.Neighbour: the step below cell 0 wraps to a huge unsigned value in the source; the model clamps that case explicitly. Both then fall back to the cell itself.
- Plan.Finish: requires the box minimum to be at or below its maximum, which pass 1 guarantees (`Plan.BoxOrdered`). The `unsigned int` cast of a negative ceiling is therefore not modelled.
- Probe.PcbProbe.LoadAndSplitSegments: requires a positive grid size. With a split distance of zero or less, `distance_split` would not terminate.
- Probe.PcbProbe.DoInterpolation: requires positive adjusted pitches. These are divisors in the source, and pass 1 always produces them positive (`Plan.GridSpansBox`).
- The `int` counter `nextVariableNumber` is unbounded, so its overflow is not modelled.
- The loops of the passes are written as `for`/`while` loops whose bodies are small step methods, such as `LoadLine`, `MarkNext` and `WriteNext`. Each step method states the loop invariant before and after one iteration.
