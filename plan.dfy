/**
 * Pass 1 (src/pcb-probe.cpp:73-163): read the program line by line, scale the
 * grid on G20, split long cuts, track the tool, fold every below-surface
 * position into the milling box, and derive the probing grid from the box.
 */
module Plan {
  import opened Wrappers
  import opened Commands
  import opened Parser
  import opened Geometry

  /** include/pcb-probe.h's unit codes. */
  const UnitInches := 0
  const UnitMm := 1

  /** include/pcb-probe.h's `PCBProbeInfo`, as a value. */
  datatype Info = Info(
    unitType: int,
    pos: Position,
    gridSize: real,
    gx: real,
    gy: real,
    splitOver: real,
    millMinX: real,
    millMinY: real,
    millMaxX: real,
    millMaxY: real,
    millRouteDepth: real,
    hasDrillSpots: bool,
    drillSpotDepth: real,
    gridMaxX: nat,
    gridMaxY: nat)

  /**
   * The global `info` when pass 1 starts: zero-initialised, with the grid size
   * `main` chose. Its unit is therefore inches until a G21 says otherwise.
   */
  function Initial(gridSize: real): (i: Info)
    ensures i.unitType == UnitInches && i.unitType != UnitMm
  {
    Info(0, Origin, gridSize, 0.0, 0.0, 0.0, 0.0, 0.0, 0.0, 0.0, 0.0, false, 0.0, 0, 0)
  }

  /** `ResetPos`: the tool goes back to the origin; nothing else changes. */
  function ResetPos(i: Info): (r: Info)
    ensures r.pos == Origin && r.(pos := i.pos) == i
  {
    i.(pos := Origin)
  }

  /** The state of pass 1: the record, whether the box has been opened, and `cmdList`. */
  datatype Load = Load(info: Info, boxDefined: bool, cmds: seq<Command>)

  /** The split distance stays the grid size, and the grid size stays positive. */
  predicate Coherent(l: Load)
  {
    l.info.gridSize > 0.0 && l.info.splitOver == l.info.gridSize
  }

  /** What `LoadAndSplitSegments` sets up before its loop. */
  function Start(i: Info, cmds: seq<Command>): (l: Load)
    requires i.gridSize > 0.0
    ensures Coherent(l) && !l.boxDefined && l.info.pos == Origin && !l.info.hasDrillSpots
  {
    Load(ResetPos(i).(splitOver := i.gridSize, hasDrillSpots := false), false, cmds)
  }

  /** The unit commands: G20 divides the grid size and split distance by 25.4. */
  function Units(i: Info, c: Command): (r: Info)
    ensures r.(gridSize := i.gridSize, splitOver := i.splitOver, unitType := i.unitType) == i
    ensures r.unitType == i.unitType || r.unitType == UnitInches || r.unitType == UnitMm
  {
    if c.name == "G20" then
      i.(gridSize := i.gridSize / 25.4, splitOver := i.splitOver / 25.4, unitType := UnitInches)
    else if c.name == "G21" then i.(unitType := UnitMm)
    else i
  }

  predicate IsMove(c: Command)
  {
    c.name == "G00" || c.name == "G01"
  }

  /**
   * A below-surface position after a move: the route depth becomes its Z
   * (its flag is never set, so the test always passes) and the box grows to
   * take it in, opening on the first one.
   */
  function Cut(i: Info, defined: bool): (r: Info)
    ensures r.millMinX <= i.pos.x <= r.millMaxX && r.millMinY <= i.pos.y <= r.millMaxY
    ensures defined ==> r.millMinX <= i.millMinX && i.millMaxX <= r.millMaxX
    ensures defined ==> r.millMinY <= i.millMinY && i.millMaxY <= r.millMaxY
    ensures r.millRouteDepth == i.pos.z && r.pos == i.pos
  {
    var p := i.pos;
    i.(millRouteDepth := p.z,
       millMinX := if !defined || p.x < i.millMinX then p.x else i.millMinX,
       millMaxX := if !defined || p.x > i.millMaxX then p.x else i.millMaxX,
       millMinY := if !defined || p.y < i.millMinY then p.y else i.millMinY,
       millMaxY := if !defined || p.y > i.millMaxY then p.y else i.millMaxY)
  }

  /** One iteration of the loop of `LoadAndSplitSegments` on a parsed command. */
  function Step(l: Load, c: Command): (r: Load)
    requires Coherent(l)
    ensures Coherent(r)
  {
    var i := Units(l.info, c);
    if IsMove(c) then
      var out := SplitIfNeeded(i.pos, c, i.splitOver);
      var moved := i.(pos := MovedTo(i.pos, c));
      if moved.pos.z < 0.0 then Load(Cut(moved, l.boxDefined), true, l.cmds + out)
      else Load(moved, l.boxDefined, l.cmds + out)
    else if c.name == "G82" then
      var drilled := i.(pos := MovedTo(i.pos, c), hasDrillSpots := true);
      Load(if c.Has('Z') then drilled.(drillSpotDepth := c.arguments['Z']) else drilled,
           l.boxDefined, l.cmds + [c])
    else if c.name != "" then Load(i, l.boxDefined, l.cmds + [c])
    else Load(i, l.boxDefined, l.cmds)
  }

  /** The loop over the parsed commands, one `Step` each. */
  function Run(l: Load, cs: seq<Command>): (r: Load)
    requires Coherent(l)
    ensures Coherent(r)
    decreases |cs|
  {
    if cs == [] then l else Step(Run(l, cs[..|cs| - 1]), cs[|cs| - 1])
  }

  lemma RunStep(l: Load, cs: seq<Command>, c: Command)
    requires Coherent(l)
    ensures Run(l, cs + [c]) == Step(Run(l, cs), c)
  {
    assert (cs + [c])[..|cs|] == cs;
  }

  /** A line that `ParseGCodeLine` refuses, with the 1-based `currentLine` it is reported at. */
  datatype LineError = LineError(line: nat, error: ParseError)

  /** Parse the lines in order; the first one that fails stops the program. */
  function ParseAll(lines: seq<string>, atof: string -> real): (r: Result<seq<Command>, LineError>)
    ensures r.Ok? ==> |r.value| == |lines|
    ensures r.Err? ==> 1 <= r.error.line <= |lines|
    decreases |lines|
  {
    if lines == [] then Ok([])
    else
      match ParseAll(lines[..|lines| - 1], atof)
      case Err(e) => Err(e)
      case Ok(cs) =>
        match ParseLine(lines[|lines| - 1], atof)
        case Err(e) => Err(LineError(|lines|, e))
        case Ok(c) => Ok(cs + [c])
  }

  /** One more line: its command is appended, or its error ends the parse at line `k + 1`. */
  lemma ParseAllNext(lines: seq<string>, k: nat, atof: string -> real)
    requires k < |lines| && ParseAll(lines[..k], atof).Ok?
    ensures ParseLine(lines[k], atof).Err? ==> ParseAll(lines[..k + 1], atof) == Err(LineError(k + 1, ParseLine(lines[k], atof).error))
    ensures ParseLine(lines[k], atof).Ok? ==>
      ParseAll(lines[..k + 1], atof) == Ok(ParseAll(lines[..k], atof).value + [ParseLine(lines[k], atof).value])
  {
    assert lines[..k + 1][..k] == lines[..k];
  }

  /** Every parsed command is what `ParseGCodeLine` makes of its own line. */
  lemma {:induction false} ParseAllLines(lines: seq<string>, atof: string -> real)
    requires ParseAll(lines, atof).Ok?
    ensures forall k :: 0 <= k < |lines| ==> ParseLine(lines[k], atof) == Ok(ParseAll(lines, atof).value[k])
    decreases |lines|
  {
    if lines != [] {
      var front := lines[..|lines| - 1];
      ParseAllLines(front, atof);
      var cs := ParseAll(front, atof).value;
      forall k | 0 <= k < |lines|
        ensures ParseLine(lines[k], atof) == Ok(ParseAll(lines, atof).value[k])
      {
        if k < |front| {
          assert lines[k] == front[k];
          assert ParseAll(lines, atof).value[k] == cs[k];
        }
      }
    }
  }

  /** An error names the first line that does not parse. */
  lemma {:induction false} ParseAllFirstError(lines: seq<string>, atof: string -> real)
    requires ParseAll(lines, atof).Err?
    ensures var n := ParseAll(lines, atof).error.line;
      && ParseLine(lines[n - 1], atof) == Err(ParseAll(lines, atof).error.error)
      && forall k :: 0 <= k < n - 1 ==> ParseLine(lines[k], atof).Ok?
    decreases |lines|
  {
    var front := lines[..|lines| - 1];
    if ParseAll(front, atof).Err? {
      ParseAllFirstError(front, atof);
      var n := ParseAll(front, atof).error.line;
      assert forall k :: 0 <= k < n ==> lines[k] == front[k];
    } else {
      ParseAllLines(front, atof);
      assert forall k :: 0 <= k < |front| ==> lines[k] == front[k];
    }
  }

  /** Once a line fails, the lines after it are never read: the error stands. */
  lemma {:induction false} ParseAllPrefix(lines: seq<string>, n: nat, atof: string -> real)
    requires n <= |lines| && ParseAll(lines[..n], atof).Err?
    ensures ParseAll(lines, atof) == ParseAll(lines[..n], atof)
    decreases |lines| - n
  {
    if n < |lines| {
      var front := lines[..|lines| - 1];
      assert front[..n] == lines[..n];
      ParseAllPrefix(front, n, atof);
    } else {
      assert lines[..n] == lines;
    }
  }

  /** The ceiling of a real, as `ceil` computes it. */
  function Ceil(r: real): (n: int)
    ensures r <= n as real < r + 1.0
  {
    -((-r).Floor)
  }

  /**
   * After the loop: the number of further cells on each axis, the box padded
   * by half a cell on the low side, and the pitch stretched so that the
   * cells exactly span the padded box.
   */
  function Finish(i: Info): (f: Info)
    requires i.gridSize > 0.0 && i.millMinX <= i.millMaxX && i.millMinY <= i.millMaxY
    ensures f.gridMaxX as real >= (i.millMaxX - i.millMinX) / i.gridSize
    ensures f.gridMaxY as real >= (i.millMaxY - i.millMinY) / i.gridSize
    ensures f.millMinX == i.millMinX - i.gridSize / 2.0 && f.millMaxX == i.millMaxX
    ensures f.millMinY == i.millMinY - i.gridSize / 2.0 && f.millMaxY == i.millMaxY
  {
    var nx := Ceil((i.millMaxX - i.millMinX) / i.gridSize);
    var ny := Ceil((i.millMaxY - i.millMinY) / i.gridSize);
    var minX := i.millMinX - i.gridSize / 2.0;
    var minY := i.millMinY - i.gridSize / 2.0;
    i.(gridMaxX := nx, gridMaxY := ny, millMinX := minX, millMinY := minY,
       gx := (i.millMaxX - minX) / (nx as real + 0.5),
       gy := (i.millMaxY - minY) / (ny as real + 0.5))
  }

  /** The centre, on one axis, of cell `k` of a grid starting at `min` with pitch `g`. */
  function Centre(min: real, g: real, k: int): real
  {
    min + (k as real) * g + g / 2.0
  }

  lemma PitchFacts(w: real, gs: real, n: nat)
    requires gs > 0.0 && w >= 0.0 && n as real >= w / gs
    ensures var g := (w + gs / 2.0) / (n as real + 0.5);
      && 0.0 < g <= gs
      && (n as real) * g + g / 2.0 == w + gs / 2.0
  {
    var d := n as real + 0.5;
    var g := (w + gs / 2.0) / d;
    assert d * g == w + gs / 2.0;
    assert d * g == (n as real) * g + g / 2.0;
    assert w <= n as real * gs by {
      assert (w / gs) * gs == w;
    }
    assert w + gs / 2.0 <= d * gs;
  }

  /** One axis of the derived grid: the padded start, and a pitch whose last cell is centred on `hi`. */
  lemma AxisSpan(lo: real, hi: real, gs: real, n: nat)
    requires gs > 0.0 && lo <= hi && n as real >= (hi - lo) / gs
    ensures var min := lo - gs / 2.0;
      var g := (hi - min) / (n as real + 0.5);
      0.0 < g <= gs && Centre(min, g, n) == hi
  {
    var min := lo - gs / 2.0;
    assert hi - min == (hi - lo) + gs / 2.0;
    PitchFacts(hi - lo, gs, n);
  }

  /**
   * The grid derived after the loop spans the padded box: its pitch is
   * positive and no larger than the grid size, and the centre of the last
   * column and of the last row fall exactly on the box's high sides.
   */
  lemma GridSpansBox(i: Info)
    requires i.gridSize > 0.0 && i.millMinX <= i.millMaxX && i.millMinY <= i.millMaxY
    ensures var f := Finish(i);
      && 0.0 < f.gx <= i.gridSize && 0.0 < f.gy <= i.gridSize
      && Centre(f.millMinX, f.gx, f.gridMaxX) == f.millMaxX
      && Centre(f.millMinY, f.gy, f.gridMaxY) == f.millMaxY
  {
    var f := Finish(i);
    AxisSpan(i.millMinX, i.millMaxX, i.gridSize, f.gridMaxX);
    AxisSpan(i.millMinY, i.millMaxY, i.gridSize, f.gridMaxY);
  }

  /**
   * The whole of pass 1 on the lines of the input, from the record `main`
   * left and the commands already in `cmdList`: the derived record and
   * `cmdList`, or the line that stops it.
   */
  function LoadAndSplit(i: Info, cmds: seq<Command>, lines: seq<string>, atof: string -> real): Result<Load, LineError>
    requires i.gridSize > 0.0 && i.millMinX <= i.millMaxX && i.millMinY <= i.millMaxY
  {
    match ParseAll(lines, atof)
    case Err(e) => Err(e)
    case Ok(cs) =>
      var l := Run(Start(i, cmds), cs);
      BoxOrdered(Start(i, cmds), cs);
      Ok(l.(info := Finish(l.info)))
  }

  /** Pass 1 stops with the first line that does not parse. */
  lemma LoadAndSplitErr(i: Info, cmds: seq<Command>, lines: seq<string>, atof: string -> real)
    requires i.gridSize > 0.0 && i.millMinX <= i.millMaxX && i.millMinY <= i.millMaxY
    requires ParseAll(lines, atof).Err?
    ensures LoadAndSplit(i, cmds, lines, atof) == Err(ParseAll(lines, atof).error)
  {
  }

  /** Pass 1 on lines that all parse: every command taken one `Step` further, then the grid derived. */
  lemma LoadAndSplitOk(i: Info, cmds: seq<Command>, lines: seq<string>, atof: string -> real)
    requires i.gridSize > 0.0 && i.millMinX <= i.millMaxX && i.millMinY <= i.millMaxY
    requires ParseAll(lines, atof).Ok?
    ensures var l := Run(Start(i, cmds), ParseAll(lines, atof).value);
      && l.info.gridSize > 0.0 && l.info.millMinX <= l.info.millMaxX && l.info.millMinY <= l.info.millMaxY
      && LoadAndSplit(i, cmds, lines, atof) == Ok(l.(info := Finish(l.info)))
  {
    BoxOrdered(Start(i, cmds), ParseAll(lines, atof).value);
  }

  // ---------------------------------------------------------------------
  // The milling box

  /** The position after each move that ends below the surface, in order. */
  function Cuts(l: Load, cs: seq<Command>): seq<Position>
    requires Coherent(l)
    decreases |cs|
  {
    if cs == [] then []
    else
      var front := cs[..|cs| - 1];
      var c := cs[|cs| - 1];
      var p := MovedTo(Run(l, front).info.pos, c);
      Cuts(l, front) + (if IsMove(c) && p.z < 0.0 then [p] else [])
  }

  predicate Inside(i: Info, p: Position)
  {
    i.millMinX <= p.x <= i.millMaxX && i.millMinY <= p.y <= i.millMaxY
  }

  /**
   * The record's box is the bounding box of the cut positions: each lies
   * inside it, and each of its four sides is reached by one of them.
   */
  predicate Bounds(i: Info, cuts: seq<Position>)
  {
    && (forall k :: 0 <= k < |cuts| ==> Inside(i, cuts[k]))
    && (exists k :: 0 <= k < |cuts| && cuts[k].x == i.millMinX)
    && (exists k :: 0 <= k < |cuts| && cuts[k].x == i.millMaxX)
    && (exists k :: 0 <= k < |cuts| && cuts[k].y == i.millMinY)
    && (exists k :: 0 <= k < |cuts| && cuts[k].y == i.millMaxY)
  }

  /** Taking one more position into the box keeps it the bounding box. */
  lemma CutBounds(i: Info, defined: bool, cuts: seq<Position>)
    requires defined ==> Bounds(i, cuts)
    requires !defined ==> cuts == []
    ensures Bounds(Cut(i, defined), cuts + [i.pos])
  {
    var j := Cut(i, defined);
    var all := cuts + [i.pos];
    var n := |cuts|;
    assert all[n] == i.pos;
    forall k | 0 <= k < |all|
      ensures Inside(j, all[k])
    {
      if k < n {
        assert all[k] == cuts[k];
        assert Inside(i, cuts[k]);
      }
    }
    if j.millMinX != i.pos.x {
      var k :| 0 <= k < n && cuts[k].x == i.millMinX;
      assert all[k] == cuts[k];
    }
    if j.millMaxX != i.pos.x {
      var k :| 0 <= k < n && cuts[k].x == i.millMaxX;
      assert all[k] == cuts[k];
    }
    if j.millMinY != i.pos.y {
      var k :| 0 <= k < n && cuts[k].y == i.millMinY;
      assert all[k] == cuts[k];
    }
    if j.millMaxY != i.pos.y {
      var k :| 0 <= k < n && cuts[k].y == i.millMaxY;
      assert all[k] == cuts[k];
    }
  }

  predicate SameBox(i: Info, j: Info)
  {
    i.millMinX == j.millMinX && i.millMaxX == j.millMaxX && i.millMinY == j.millMinY && i.millMaxY == j.millMaxY
  }

  lemma BoundsOfSameBox(i: Info, j: Info, cuts: seq<Position>)
    requires Bounds(i, cuts) && SameBox(i, j)
    ensures Bounds(j, cuts)
  {
    var a :| 0 <= a < |cuts| && cuts[a].x == i.millMinX;
    var b :| 0 <= b < |cuts| && cuts[b].x == i.millMaxX;
    var c :| 0 <= c < |cuts| && cuts[c].y == i.millMinY;
    var d :| 0 <= d < |cuts| && cuts[d].y == i.millMaxY;
    assert cuts[a].x == j.millMinX && cuts[b].x == j.millMaxX;
    assert cuts[c].y == j.millMinY && cuts[d].y == j.millMaxY;
    forall k | 0 <= k < |cuts|
      ensures Inside(j, cuts[k])
    {
      assert Inside(i, cuts[k]);
    }
  }

  /** The box of a command that is not a cut stays as it was. */
  lemma StepKeepsBox(l: Load, c: Command)
    requires Coherent(l)
    requires !(IsMove(c) && MovedTo(l.info.pos, c).z < 0.0)
    ensures var r := Step(l, c);
      && r.boxDefined == l.boxDefined && SameBox(r.info, l.info)
      && r.info.millRouteDepth == l.info.millRouteDepth
  {
  }

  /** A cut opens the box if need be and takes its position in. */
  lemma StepCuts(l: Load, c: Command)
    requires Coherent(l)
    requires IsMove(c) && MovedTo(l.info.pos, c).z < 0.0
    ensures var r := Step(l, c);
      && r.boxDefined
      && r.info == Cut(Units(l.info, c).(pos := MovedTo(l.info.pos, c)), l.boxDefined)
  {
  }

  /**
   * After pass 1 the box is defined exactly when some move ended below the
   * surface, and then it is the bounding box of those positions; otherwise it
   * is still the one the record started with.
   */
  lemma {:induction false} BoxIsBoundingBox(l: Load, cs: seq<Command>)
    requires Coherent(l) && !l.boxDefined
    ensures var r := Run(l, cs);
      && (r.boxDefined <==> |Cuts(l, cs)| > 0)
      && (r.boxDefined ==> Bounds(r.info, Cuts(l, cs)))
      && (!r.boxDefined ==> SameBox(r.info, l.info))
    decreases |cs|
  {
    if cs != [] {
      var front := cs[..|cs| - 1];
      var c := cs[|cs| - 1];
      BoxIsBoundingBox(l, front);
      var m := Run(l, front);
      if IsMove(c) && MovedTo(m.info.pos, c).z < 0.0 {
        StepCuts(m, c);
        var moved := Units(m.info, c).(pos := MovedTo(m.info.pos, c));
        CutBounds(moved, m.boxDefined, Cuts(l, front));
      } else {
        StepKeepsBox(m, c);
        assert Cuts(l, cs) == Cuts(l, front);
        if m.boxDefined {
          BoundsOfSameBox(m.info, Run(l, cs).info, Cuts(l, front));
        }
      }
    }
  }

  /** With a well-ordered box to start from, the box after pass 1 is well ordered. */
  lemma BoxOrdered(l: Load, cs: seq<Command>)
    requires Coherent(l) && !l.boxDefined
    requires l.info.millMinX <= l.info.millMaxX && l.info.millMinY <= l.info.millMaxY
    ensures var r := Run(l, cs); r.info.millMinX <= r.info.millMaxX && r.info.millMinY <= r.info.millMaxY
  {
    BoxIsBoundingBox(l, cs);
    var r := Run(l, cs);
    if r.boxDefined {
      var cuts := Cuts(l, cs);
      assert Inside(r.info, cuts[0]);
    }
  }

  /** The route depth is the Z of the last position that ended below the surface. */
  lemma {:induction false} RouteDepthIsLastCut(l: Load, cs: seq<Command>)
    requires Coherent(l)
    ensures var cuts := Cuts(l, cs);
      Run(l, cs).info.millRouteDepth == if cuts == [] then l.info.millRouteDepth else cuts[|cuts| - 1].z
    decreases |cs|
  {
    if cs != [] {
      var front := cs[..|cs| - 1];
      var c := cs[|cs| - 1];
      RouteDepthIsLastCut(l, front);
      var m := Run(l, front);
      if IsMove(c) && MovedTo(m.info.pos, c).z < 0.0 {
        StepCuts(m, c);
      } else {
        StepKeepsBox(m, c);
      }
    }
  }

  /** The cut positions reach below the surface, and a drill command is never one of them. */
  lemma {:induction false} CutsBelowSurface(l: Load, cs: seq<Command>)
    requires Coherent(l)
    ensures forall k :: 0 <= k < |Cuts(l, cs)| ==> Cuts(l, cs)[k].z < 0.0
    ensures |Cuts(l, cs)| <= |cs|
    decreases |cs|
  {
    if cs != [] {
      CutsBelowSurface(l, cs[..|cs| - 1]);
    }
  }

  /** A drill command, whatever depth it goes to, leaves the box and route depth alone. */
  lemma DrillNotFolded(l: Load, c: Command)
    requires Coherent(l) && c.name == "G82"
    ensures var r := Step(l, c);
      && r.boxDefined == l.boxDefined && r.info.millRouteDepth == l.info.millRouteDepth
      && r.info.millMinX == l.info.millMinX && r.info.millMaxX == l.info.millMaxX
      && r.info.millMinY == l.info.millMinY && r.info.millMaxY == l.info.millMaxY
      && r.info.hasDrillSpots && r.info.pos == MovedTo(l.info.pos, c)
  {
  }

  // ---------------------------------------------------------------------
  // Drill spots and units

  /** The Z of the last drill command that names one. */
  function LastDrillZ(cs: seq<Command>): Option<real>
    decreases |cs|
  {
    if cs == [] then None
    else
      var c := cs[|cs| - 1];
      if c.name == "G82" && c.Has('Z') then Some(c.arguments['Z']) else LastDrillZ(cs[..|cs| - 1])
  }

  /** One step on the drill fields. */
  lemma StepDrill(l: Load, c: Command)
    requires Coherent(l)
    ensures var r := Step(l, c);
      && r.info.hasDrillSpots == (l.info.hasDrillSpots || c.name == "G82")
      && r.info.drillSpotDepth == if c.name == "G82" && c.Has('Z') then c.arguments['Z'] else l.info.drillSpotDepth
  {
  }

  /**
   * The record has drill spots exactly when some command is a G82, and its
   * drill depth is the Z of the last G82 that names one (its flag is never
   * set either).
   */
  lemma {:induction false} DrillSpots(l: Load, cs: seq<Command>)
    requires Coherent(l) && !l.info.hasDrillSpots
    ensures var r := Run(l, cs);
      && (r.info.hasDrillSpots <==> exists k :: 0 <= k < |cs| && cs[k].name == "G82")
      && r.info.drillSpotDepth == match LastDrillZ(cs) case Some(z) => z case None => l.info.drillSpotDepth
    decreases |cs|
  {
    if cs != [] {
      var front := cs[..|cs| - 1];
      var c := cs[|cs| - 1];
      DrillSpots(l, front);
      StepDrill(Run(l, front), c);
      if exists k :: 0 <= k < |front| && front[k].name == "G82" {
        var k :| 0 <= k < |front| && front[k].name == "G82";
        assert cs[k] == front[k];
      }
      if exists k :: 0 <= k < |cs| && cs[k].name == "G82" {
        var k :| 0 <= k < |cs| && cs[k].name == "G82";
        if k < |front| {
          assert front[k] == cs[k];
        }
      }
    }
  }

  /** 25.4 to the power k. */
  function InchPower(k: nat): (p: real)
    ensures p >= 1.0
  {
    if k == 0 then 1.0 else 25.4 * InchPower(k - 1)
  }

  function CountG20(cs: seq<Command>): nat
    decreases |cs|
  {
    if cs == [] then 0
    else CountG20(cs[..|cs| - 1]) + (if cs[|cs| - 1].name == "G20" then 1 else 0)
  }

  /** The last unit command, if any. */
  function LastUnit(cs: seq<Command>): Option<int>
    decreases |cs|
  {
    if cs == [] then None
    else if cs[|cs| - 1].name == "G20" then Some(UnitInches)
    else if cs[|cs| - 1].name == "G21" then Some(UnitMm)
    else LastUnit(cs[..|cs| - 1])
  }

  lemma DivideByInch(r: real, g: real, p: real, l: real)
    requires r == g / 25.4 && g * p == l
    ensures r * (25.4 * p) == l
  {
    assert r * 25.4 == g;
  }

  /** One step on the grid size and unit. */
  lemma StepUnits(l: Load, c: Command)
    requires Coherent(l)
    ensures var r := Step(l, c);
      && r.info.gridSize == (if c.name == "G20" then l.info.gridSize / 25.4 else l.info.gridSize)
      && r.info.unitType == (if c.name == "G20" then UnitInches else if c.name == "G21" then UnitMm else l.info.unitType)
  {
  }

  /** The grid size after the commands `cs`, from `g`: divided by 25.4 at each G20. */
  function GridAfter(g: real, cs: seq<Command>): real
    decreases |cs|
  {
    if cs == [] then g
    else
      var h := GridAfter(g, cs[..|cs| - 1]);
      if cs[|cs| - 1].name == "G20" then h / 25.4 else h
  }

  /** The grid size after pass 1 is the one every G20 has divided by 25.4. */
  lemma {:induction false} RunGrid(l: Load, cs: seq<Command>)
    requires Coherent(l)
    ensures Run(l, cs).info.gridSize == GridAfter(l.info.gridSize, cs)
    decreases |cs|
  {
    if cs != [] {
      RunGrid(l, cs[..|cs| - 1]);
      StepUnits(Run(l, cs[..|cs| - 1]), cs[|cs| - 1]);
    }
  }

  /** So each G20, a second one included, shrinks the grid size once more: by 25.4 to the number of G20s. */
  lemma {:induction false} GridAfterPower(g: real, cs: seq<Command>)
    ensures GridAfter(g, cs) * InchPower(CountG20(cs)) == g
    decreases |cs|
  {
    if cs == [] {
      return;
    }
    var front := cs[..|cs| - 1];
    GridAfterPower(g, front);
    var h := GridAfter(g, front);
    var k := CountG20(front);
    if cs[|cs| - 1].name == "G20" {
      assert InchPower(k + 1) == 25.4 * InchPower(k);
      DivideByInch(h / 25.4, h, InchPower(k), g);
    }
  }

  /** The unit is the one the last unit command chose. */
  lemma {:induction false} UnitOfRun(l: Load, cs: seq<Command>)
    requires Coherent(l)
    ensures Run(l, cs).info.unitType == match LastUnit(cs) case Some(u) => u case None => l.info.unitType
    decreases |cs|
  {
    if cs != [] {
      UnitOfRun(l, cs[..|cs| - 1]);
      StepUnits(Run(l, cs[..|cs| - 1]), cs[|cs| - 1]);
    }
  }

  // ---------------------------------------------------------------------
  // The command list

  /** The commands that are kept exactly as read: every named command that is not a move. */
  function Kept(cs: seq<Command>): seq<Command>
    decreases |cs|
  {
    if cs == [] then []
    else Kept(cs[..|cs| - 1]) + (var c := cs[|cs| - 1]; if c.name != "" && !IsMove(c) then [c] else [])
  }

  lemma KeptAppend(a: seq<Command>, b: seq<Command>)
    ensures Kept(a + b) == Kept(a) + Kept(b)
    decreases |b|
  {
    if b == [] {
      assert a + b == a;
    } else {
      var b' := b[..|b| - 1];
      KeptAppend(a, b');
      assert (a + b)[..|a + b| - 1] == a + b';
    }
  }

  /** Every piece of a split move is a move with the move's name. */
  lemma SplitIsMoves(p: Position, c: Command, s: real)
    requires s > 0.0 && IsMove(c)
    ensures var out := SplitIfNeeded(p, c, s); forall k :: 0 <= k < |out| ==> out[k].name == c.name
  {
    if !(p.z >= 0.0 || !c.Has('X') || !c.Has('Y')) && TooLong(c.arguments['X'] - p.x, c.arguments['Y'] - p.y, s) {
      SplitDropsArguments(p.x, p.y, c, s);
    }
  }

  lemma {:induction false} KeptOfMoves(out: seq<Command>)
    requires forall k :: 0 <= k < |out| ==> IsMove(out[k])
    ensures Kept(out) == []
    decreases |out|
  {
    if out != [] {
      KeptOfMoves(out[..|out| - 1]);
    }
  }

  /** What one step appends to `cmdList`: the pieces of a move, any other named command, or nothing. */
  lemma StepAppends(l: Load, c: Command)
    requires Coherent(l)
    ensures var i := Units(l.info, c);
      Step(l, c).cmds == l.cmds + (if IsMove(c) then SplitIfNeeded(i.pos, c, i.splitOver) else if c.name != "" then [c] else [])
  {
  }

  /** One step adds to `cmdList` the kept command, if the command is one. */
  lemma StepKept(l: Load, c: Command)
    requires Coherent(l)
    ensures Kept(Step(l, c).cmds) == Kept(l.cmds) + Kept([c])
  {
    var i := Units(l.info, c);
    var added := if IsMove(c) then SplitIfNeeded(i.pos, c, i.splitOver) else if c.name != "" then [c] else [];
    StepAppends(l, c);
    KeptAppend(l.cmds, added);
    assert [c][..0] == [];
    if IsMove(c) {
      SplitIsMoves(i.pos, c, i.splitOver);
      KeptOfMoves(added);
    }
  }

  /**
   * Pass 1 only splits moves: leaving the moves aside, `cmdList` gets the
   * named commands in the order they were read, each unchanged, and no
   * others; lines without a command add nothing.
   */
  lemma {:induction false} RunKeepsOthers(l: Load, cs: seq<Command>)
    requires Coherent(l)
    ensures Kept(Run(l, cs).cmds) == Kept(l.cmds) + Kept(cs)
    decreases |cs|
  {
    if cs != [] {
      var front := cs[..|cs| - 1];
      var c := cs[|cs| - 1];
      RunKeepsOthers(l, front);
      FrontLast(cs);
      StepKept(Run(l, front), c);
      KeptChain(Run(l, front).cmds, Run(l, cs).cmds, c, Kept(l.cmds), front);
    }
  }

  lemma FrontLast<T>(s: seq<T>)
    requires s != []
    ensures s[..|s| - 1] + [s[|s| - 1]] == s
  {
  }

  lemma KeptChain(before: seq<Command>, after: seq<Command>, c: Command, base: seq<Command>, front: seq<Command>)
    requires Kept(after) == Kept(before) + Kept([c])
    requires Kept(before) == base + Kept(front)
    ensures Kept(after) == base + Kept(front + [c])
  {
    KeptAppend(front, [c]);
    SeqAssoc(base, Kept(front), Kept([c]));
  }

  lemma SeqAssoc<T>(a: seq<T>, b: seq<T>, c: seq<T>)
    ensures (a + b) + c == a + (b + c)
  {
  }
}
