/**
 * The program's state and its three passes as they run: the global record
 * `info`, the command list, the cell allocator and the line counter of
 * src/pcb-probe.cpp:11-15, and the functions that update them in place.
 * Each method is proved against the value-level definition of its pass.
 */
module Probe {
  import opened Wrappers
  import opened Text
  import opened Commands
  import opened Parser
  import opened Geometry
  import opened Plan
  import opened Cells
  import opened Interp
  import opened Emit

  /** include/pcb-probe.h's `PCBProbeInfo`, whose fields the passes assign. */
  class ProbeInfo {
    var unitType: int
    var pos: Position
    var gridSize: real
    var gx: real
    var gy: real
    var splitOver: real
    var millMinX: real
    var millMinY: real
    var millMaxX: real
    var millMaxY: real
    var millRouteDepth: real
    var hasDrillSpots: bool
    var drillSpotDepth: real
    var gridMaxX: nat
    var gridMaxY: nat

    function Value(): Info
      reads this
    {
      Info(unitType, pos, gridSize, gx, gy, splitOver, millMinX, millMinY, millMaxX, millMaxY,
           millRouteDepth, hasDrillSpots, drillSpotDepth, gridMaxX, gridMaxY)
    }

    /** The zero-initialised global, with the grid size `main` stores into it. */
    constructor (gridSize: real)
      ensures Value() == Initial(gridSize)
    {
      unitType := 0;
      pos := Origin;
      this.gridSize := gridSize;
      gx, gy, splitOver := 0.0, 0.0, 0.0;
      millMinX, millMinY, millMaxX, millMaxY := 0.0, 0.0, 0.0, 0.0;
      millRouteDepth := 0.0;
      hasDrillSpots := false;
      drillSpotDepth := 0.0;
      gridMaxX, gridMaxY := 0, 0;
    }

    /** `ResetPos`. */
    method ResetPos()
      modifies this
      ensures Value() == Plan.ResetPos(old(Value()))
    {
      pos := Origin;
    }
  }

  /** The globals of src/pcb-probe.cpp. */
  class PcbProbe {
    const info: ProbeInfo
    var cmdList: seq<Command>
    var cellVariables: map<string, int>
    var nextVariableNumber: int
    var currentLine: int

    /** `cellVariables` and `nextVariableNumber` together. */
    function Allocator(): Table
      reads this
    {
      Table(cellVariables, nextVariableNumber)
    }

    /** The state before `main` runs the passes. */
    constructor (gridSize: real)
      ensures fresh(info) && info.Value() == Initial(gridSize)
      ensures cmdList == [] && Allocator() == EmptyTable && currentLine == 0
    {
      info := new ProbeInfo(gridSize);
      cmdList := [];
      cellVariables := map[];
      nextVariableNumber := FirstVariable;
      currentLine := 0;
    }

    // -------------------------------------------------------------------
    // Pass 1

    /** `moveTo`: the tool takes every coordinate the command names. */
    method MoveTo(command: GCodeCommand)
      modifies info
      ensures info.Value() == old(info.Value()).(pos := MovedTo(old(info.pos), command.Value()))
    {
      if command.HasXCoord() {
        info.pos := info.pos.(x := command.GetXCoord());
      }
      if command.HasYCoord() {
        info.pos := info.pos.(y := command.GetYCoord());
      }
      if command.HasZCoord() {
        info.pos := info.pos.(z := command.GetZCoord());
      }
    }

    /** `cmd1` and `cmd2` of `distance_split`: the moves to the midpoint and on to the target. */
    static method Halves(fromX: real, fromY: real, command: GCodeCommand) returns (cmd1: GCodeCommand, cmd2: GCodeCommand)
      requires command.HasXCoord() && command.HasYCoord()
      ensures fresh(cmd1) && fresh(cmd2)
      ensures cmd1.Value() == FirstHalf(fromX, fromY, command.Value())
      ensures cmd2.Value() == SecondHalf(command.Value())
    {
      ghost var c := command.Value();
      var toX := command.GetXCoord();
      var toY := command.GetYCoord();
      var mpX := fromX + (toX - fromX) / 2.0;
      var mpY := fromY + (toY - fromY) / 2.0;
      assert mpX == Mid(fromX, c.arguments['X']) && mpY == Mid(fromY, c.arguments['Y']);
      cmd1 := new GCodeCommand.WithXY(command.name, mpX, mpY);
      cmd2 := new GCodeCommand.WithXY(command.name, toX, toY);
      if command.HasFeedRate() {
        cmd1.SetFeedRate(command.GetFeedRate());
      }
      assert cmd1.Value() == PieceCommand(c.name, mpX, mpY, FeedOf(c));
    }

    /**
     * `distance_split`: appends the pieces of the move from (fromX, fromY),
     * halving it until each piece is within `SplitOver` on both axes.
     */
    method DistanceSplit(fromX: real, fromY: real, command: GCodeCommand)
      requires command.HasXCoord() && command.HasYCoord() && info.splitOver > 0.0
      modifies this
      ensures cmdList == old(cmdList) + SplitLeaves(fromX, fromY, command.Value(), info.splitOver)
      ensures Allocator() == old(Allocator()) && currentLine == old(currentLine)
      decreases SplitDepth(fromX, fromY, command.Value(), info.splitOver)
    {
      var toX := command.GetXCoord();
      var toY := command.GetYCoord();
      if Abs(toX - fromX) > info.splitOver || Abs(toY - fromY) > info.splitOver {
        ghost var c := command.Value();
        ghost var s := info.splitOver;
        var mx := fromX + (toX - fromX) / 2.0;
        var my := fromY + (toY - fromY) / 2.0;
        assert mx == Mid(fromX, toX) && my == Mid(fromY, toY);
        var cmd1, cmd2 := Halves(fromX, fromY, command);
        HalvesShallower(fromX, fromY, c, s);
        SplitUnfolds(fromX, fromY, c, s);
        ghost var first := SplitLeaves(fromX, fromY, cmd1.Value(), s);
        ghost var second := SplitLeaves(mx, my, cmd2.Value(), s);
        ghost var before := cmdList;
        DistanceSplit(fromX, fromY, cmd1);
        assert cmdList == before + first;
        DistanceSplit(mx, my, cmd2);
        assert cmdList == before + first + second;
        SeqAssoc(before, first, second);
      } else {
        cmdList := cmdList + [command.Value()];
      }
    }

    /** `split_if_needed`: a move from below the surface naming X and Y is split; anything else is appended as it is. */
    method SplitIfNeeded(command: GCodeCommand)
      requires info.splitOver > 0.0
      modifies this
      ensures cmdList == old(cmdList) + Geometry.SplitIfNeeded(info.pos, command.Value(), info.splitOver)
      ensures Allocator() == old(Allocator()) && currentLine == old(currentLine)
    {
      if info.pos.z >= 0.0 || !command.HasXCoord() || !command.HasYCoord() {
        cmdList := cmdList + [command.Value()];
      } else {
        DistanceSplit(info.pos.x, info.pos.y, command);
      }
    }

    /** The unit handling at the top of the loop body: G20 scales the grid to inches. */
    method ApplyUnits(command: GCodeCommand)
      modifies info
      ensures info.Value() == Units(old(info.Value()), command.Value())
    {
      if command.name == "G20" {
        info.gridSize := info.gridSize / 25.4;
        info.splitOver := info.splitOver / 25.4;
        info.unitType := UnitInches;
      } else if command.name == "G21" {
        info.unitType := UnitMm;
      }
    }

    /**
     * The box update after a move that ends below the surface. The four
     * `defined` flags are always equal, since they are only ever set here,
     * together.
     */
    method FoldCut(dMinX: bool, dMaxX: bool, dMinY: bool, dMaxY: bool)
      returns (dMinX': bool, dMaxX': bool, dMinY': bool, dMaxY': bool)
      requires dMinX == dMaxX == dMinY == dMaxY
      modifies info
      ensures dMinX' && dMaxX' && dMinY' && dMaxY'
      ensures info.Value() == Cut(old(info.Value()), dMinX)
    {
      dMinX', dMaxX', dMinY', dMaxY' := dMinX, dMaxX, dMinY, dMaxY;
      // The route depth's guard starts with its never-set flag, so it always passes.
      info.millRouteDepth := info.pos.z;
      if !dMinX' || info.pos.x < info.millMinX {
        dMinX' := true;
        info.millMinX := info.pos.x;
      }
      if !dMaxX' || info.pos.x > info.millMaxX {
        dMaxX' := true;
        info.millMaxX := info.pos.x;
      }
      if !dMinY' || info.pos.y < info.millMinY {
        dMinY' := true;
        info.millMinY := info.pos.y;
      }
      if !dMaxY' || info.pos.y > info.millMaxY {
        dMaxY' := true;
        info.millMaxY := info.pos.y;
      }
    }

    /** The body of `LoadAndSplitSegments`' loop for one parsed command: one `Step` of pass 1. */
    method LoadCommand(cmd: GCodeCommand, definedDrillDepth: bool,
                       dMinX: bool, dMaxX: bool, dMinY: bool, dMaxY: bool)
      returns (dMinX': bool, dMaxX': bool, dMinY': bool, dMaxY': bool)
      requires !definedDrillDepth && dMinX == dMaxX == dMinY == dMaxY
      requires Coherent(Load(info.Value(), dMinX, cmdList))
      modifies this, info
      ensures dMinX' == dMaxX' == dMinY' == dMaxY'
      ensures Load(info.Value(), dMinX', cmdList) == Step(Load(old(info.Value()), dMinX, old(cmdList)), cmd.Value())
      ensures Allocator() == old(Allocator()) && currentLine == old(currentLine)
    {
      dMinX', dMaxX', dMinY', dMaxY' := dMinX, dMaxX, dMinY, dMaxY;
      ApplyUnits(cmd);
      if cmd.name == "G00" || cmd.name == "G01" {
        SplitIfNeeded(cmd);
        MoveTo(cmd);
        if info.pos.z < 0.0 {
          dMinX', dMaxX', dMinY', dMaxY' := FoldCut(dMinX, dMaxX, dMinY, dMaxY);
        }
      } else if cmd.name == "G82" {
        MoveTo(cmd);
        info.hasDrillSpots := true;
        if !definedDrillDepth && cmd.HasZCoord() {
          info.drillSpotDepth := cmd.GetZCoord();
        }
        cmdList := cmdList + [cmd.Value()];
      } else if cmd.name != "" {
        cmdList := cmdList + [cmd.Value()];
      }
    }

    /** The grid derivation after the loop. */
    method DeriveGrid()
      requires info.gridSize > 0.0 && info.millMinX <= info.millMaxX && info.millMinY <= info.millMaxY
      modifies info
      ensures info.Value() == Finish(old(info.Value()))
    {
      info.gridMaxX := Ceil((info.millMaxX - info.millMinX) / info.gridSize);
      info.gridMaxY := Ceil((info.millMaxY - info.millMinY) / info.gridSize);
      info.millMinX := info.millMinX - info.gridSize / 2.0;
      info.millMinY := info.millMinY - info.gridSize / 2.0;
      info.gx := (info.millMaxX - info.millMinX) / (info.gridMaxX as real + 0.5);
      info.gy := (info.millMaxY - info.millMinY) / (info.gridMaxY as real + 0.5);
    }

    /**
     * One pass of `LoadAndSplitSegments`' loop, on line `k`: `currentLine`
     * moves on, and the line is parsed into `cmd` and taken one `Step`
     * further, or refused.
     */
    method LoadLine(lines: seq<string>, k: nat, cmd: GCodeCommand, atof: string -> real, ghost start: Load,
                    definedDrillDepth: bool, dMinX: bool, dMaxX: bool, dMinY: bool, dMaxY: bool)
      returns (e: Option<ParseError>, dMinX': bool, dMaxX': bool, dMinY': bool, dMaxY': bool)
      requires k < |lines| && Coherent(start)
      requires ParseAll(lines[..k], atof).Ok?
      requires !definedDrillDepth && dMinX == dMaxX == dMinY == dMaxY
      requires Load(info.Value(), dMinX, cmdList) == Run(start, ParseAll(lines[..k], atof).value)
      modifies this, info, cmd
      ensures currentLine == old(currentLine) + 1 && Allocator() == old(Allocator())
      ensures e.Some? ==> ParseAll(lines[..k + 1], atof) == Err(LineError(k + 1, e.value))
      ensures e.None? ==> && ParseAll(lines[..k + 1], atof).Ok?
                          && dMinX' == dMaxX' == dMinY' == dMaxY'
                          && Load(info.Value(), dMinX', cmdList) == Run(start, ParseAll(lines[..k + 1], atof).value)
    {
      currentLine := currentLine + 1;
      dMinX', dMaxX', dMinY', dMaxY' := dMinX, dMaxX, dMinY, dMaxY;
      e := ParseGCodeLine(lines[k], cmd, atof);
      ParseAllNext(lines, k, atof);
      if e.None? {
        dMinX', dMaxX', dMinY', dMaxY' :=
          LoadParsed(start, ParseAll(lines[..k], atof).value, cmd, definedDrillDepth, dMinX, dMaxX, dMinY, dMaxY);
      }
    }

    /** The rest of one iteration once the line has parsed: pass 1 over the commands so far, one command longer. */
    method LoadParsed(ghost start: Load, ghost cs: seq<Command>, cmd: GCodeCommand, definedDrillDepth: bool,
                      dMinX: bool, dMaxX: bool, dMinY: bool, dMaxY: bool)
      returns (dMinX': bool, dMaxX': bool, dMinY': bool, dMaxY': bool)
      requires Coherent(start) && !definedDrillDepth && dMinX == dMaxX == dMinY == dMaxY
      requires Load(info.Value(), dMinX, cmdList) == Run(start, cs)
      modifies this, info
      ensures dMinX' == dMaxX' == dMinY' == dMaxY'
      ensures Load(info.Value(), dMinX', cmdList) == Run(start, cs + [cmd.Value()])
      ensures Allocator() == old(Allocator()) && currentLine == old(currentLine)
    {
      RunStep(start, cs, cmd.Value());
      dMinX', dMaxX', dMinY', dMaxY' := LoadCommand(cmd, definedDrillDepth, dMinX, dMaxX, dMinY, dMaxY);
    }

    /**
     * `LoadAndSplitSegments` on the lines `getline` returns: pass 1 exactly
     * as `LoadAndSplit` defines it, or the line number of the first line that
     * does not parse, where the program exits.
     */
    method LoadAndSplitSegments(lines: seq<string>, atof: string -> real) returns (err: Option<LineError>)
      requires info.gridSize > 0.0 && info.millMinX <= info.millMaxX && info.millMinY <= info.millMaxY
      modifies this, info
      ensures var r := LoadAndSplit(old(info.Value()), old(cmdList), lines, atof);
        && (r.Ok? <==> err.None?)
        && (r.Ok? ==> info.Value() == r.value.info && cmdList == r.value.cmds
                      && currentLine == old(currentLine) + |lines|)
        && (r.Err? ==> err == Some(r.error) && currentLine == old(currentLine) + r.error.line)
      ensures Allocator() == old(Allocator())
    {
      var cmd := new GCodeCommand();
      ghost var i0, cmds0 := info.Value(), cmdList;
      ghost var start := Start(i0, cmds0);
      info.ResetPos();
      info.splitOver := info.gridSize;
      info.hasDrillSpots := false;
      assert Load(info.Value(), false, cmdList) == start;
      err := ReadLines(lines, cmd, atof, start);
      if err.Some? {
        LoadAndSplitErr(i0, cmds0, lines, atof);
      } else {
        LoadAndSplitOk(i0, cmds0, lines, atof);
        DeriveGrid();
      }
    }

    /**
     * The loop of `LoadAndSplitSegments`: every line parsed and taken one
     * `Step` further from `start`, or the first line that does not parse.
     */
    method ReadLines(lines: seq<string>, cmd: GCodeCommand, atof: string -> real, ghost start: Load)
      returns (err: Option<LineError>)
      requires Coherent(start) && Load(info.Value(), false, cmdList) == start
      modifies this, info, cmd
      ensures ParseAll(lines, atof).Ok? <==> err.None?
      ensures err.Some? ==> ParseAll(lines, atof) == Err(err.value) && currentLine == old(currentLine) + err.value.line
      ensures err.None? ==> && info.Value() == Run(start, ParseAll(lines, atof).value).info
                            && cmdList == Run(start, ParseAll(lines, atof).value).cmds
                            && currentLine == old(currentLine) + |lines|
      ensures Allocator() == old(Allocator())
    {
      var dMinX, dMaxX, dMinY, dMaxY := false, false, false, false;
      var definedDrillDepth := false;
      assert lines[..0] == [];
      for k := 0 to |lines|
        invariant ParseAll(lines[..k], atof).Ok?
        invariant currentLine == old(currentLine) + k
        invariant dMinX == dMaxX == dMinY == dMaxY
        invariant Load(info.Value(), dMinX, cmdList) == Run(start, ParseAll(lines[..k], atof).value)
        invariant Allocator() == old(Allocator())
      {
        var e;
        e, dMinX, dMaxX, dMinY, dMaxY := LoadLine(lines, k, cmd, atof, start, definedDrillDepth, dMinX, dMaxX, dMinY, dMaxY);
        if e.Some? {
          ParseAllPrefix(lines, k + 1, atof);
          return Some(LineError(k + 1, e.value));
        }
      }
      assert lines[..|lines|] == lines;
      return None;
    }

    // -------------------------------------------------------------------
    // Pass 2

    /** `ensure_cell_variable`. */
    method EnsureCellVariable(gx: int, gy: int)
      modifies this
      ensures Allocator() == Ensure(old(Allocator()), gx, gy)
      ensures cmdList == old(cmdList) && currentLine == old(currentLine)
    {
      var key := GetKey(gx, gy);
      if key !in cellVariables {
        cellVariables := cellVariables[key := nextVariableNumber];
        nextVariableNumber := nextVariableNumber + 1;
      }
    }

    /** `interpolate`: allocates the four corner cells and returns the blend formula. */
    method Interpolate(x: real, y: real, isLinearMotionCommand: bool, formulaFmt: real -> string) returns (formula: string)
      requires info.gx > 0.0 && info.gy > 0.0
      modifies this
      ensures (Allocator(), formula) == Interp.Interpolate(info.Value(), old(Allocator()), x, y, isLinearMotionCommand, formulaFmt)
      ensures cmdList == old(cmdList) && currentLine == old(currentLine)
    {
      var cellX, cellY, pxCell, pyCell, xPc, yPc := Locate(info.Value(), x, y);
      ghost var corners := Corners(cellX, cellY, pxCell, pyCell);
      ghost var t0 := Allocator();
      EnsureCellVariable(cellX, cellY);
      EnsureCellVariable(pxCell, cellY);
      EnsureCellVariable(cellX, pyCell);
      EnsureCellVariable(pxCell, pyCell);
      assert Allocator() == EnsureCorners(t0, corners);
      formula := WriteFormula(cellX, cellY, pxCell, pyCell, xPc, yPc, isLinearMotionCommand, formulaFmt);
    }

    /**
     * The first half of `interpolate`: the cell holding the point, the
     * neighbours towards the point's side of it, and the weights.
     */
    static method Locate(i: Info, x: real, y: real)
      returns (cellX: int, cellY: int, pxCell: int, pyCell: int, xPc: real, yPc: real)
      requires i.gx > 0.0 && i.gy > 0.0
      ensures Corners(cellX, cellY, pxCell, pyCell) == CornersOf(i, x, y)
      ensures WeightsOf(xPc, yPc) == WeightsAt(i, x, y)
    {
      cellX := GridRef(i.millMinX, i.gx, x);
      cellY := GridRef(i.millMinY, i.gy, y);
      var osX := ((x - i.millMinX) - (cellX as real) * i.gx) / i.gx;
      var osY := ((y - i.millMinY) - (cellY as real) * i.gy) / i.gy;
      pxCell := cellX + (if osX > 0.5 then 1 else -1);
      pyCell := cellY + (if osY > 0.5 then 1 else -1);
      if pxCell < 0 || pxCell > i.gridMaxX {
        pxCell := cellX;
      }
      if pyCell < 0 || pyCell > i.gridMaxY {
        pyCell := cellY;
      }
      xPc := 0.5 + (if osX > 0.5 then 1.0 - osX else osX);
      yPc := 0.5 + (if osY > 0.5 then 1.0 - osY else osY);
      assert osX == Offset(i.millMinX, i.gx, x, cellX) && osY == Offset(i.millMinY, i.gy, y, cellY);
      assert pxCell == Neighbour(cellX, osX, i.gridMaxX) && pyCell == Neighbour(cellY, osY, i.gridMaxY);
      assert xPc == Share(osX) && yPc == Share(osY);
    }

    /** The stream `interpolate` writes its formula to, once the four cells have ids. */
    method WriteFormula(cellX: int, cellY: int, pxCell: int, pyCell: int, xPc: real, yPc: real,
                        isLinearMotionCommand: bool, formulaFmt: real -> string) returns (formula: string)
      requires HasVariable(Allocator(), cellX, cellY) && HasVariable(Allocator(), pxCell, cellY)
      requires HasVariable(Allocator(), cellX, pyCell) && HasVariable(Allocator(), pxCell, pyCell)
      ensures formula == FormulaText(WeightsOf(xPc, yPc), Allocator(), Corners(cellX, cellY, pxCell, pyCell),
                                     isLinearMotionCommand, formulaFmt)
    {
      var t := Allocator();
      var w := Weights(xPc * yPc, (1.0 - xPc) * yPc, xPc * (1.0 - yPc), (1.0 - xPc) * (1.0 - yPc));
      assert w == WeightsOf(xPc, yPc);
      var depthParameter := if isLinearMotionCommand then "#3" else "#7";
      formula := Term(w.w1, Variable(t, cellX, cellY), formulaFmt)
        + Term(w.w2, Variable(t, pxCell, cellY), formulaFmt)
        + Term(w.w3, Variable(t, cellX, pyCell), formulaFmt)
        + Term(w.w4, Variable(t, pxCell, pyCell), formulaFmt)
        + depthParameter;
    }

    /** One iteration of `DoInterpolation`'s loop, on the `k`-th command of the list. */
    method MarkCommand(k: nat, ghost i: Info, ghost s: Marked, formulaFmt: real -> string)
      requires i.gx > 0.0 && i.gy > 0.0 && k < |cmdList|
      requires info.Value() == i.(pos := s.pos) && Allocator() == s.table
      modifies this, info
      ensures var r := Mark(i, s, old(cmdList[k]), formulaFmt);
        && |r.cmds| == |s.cmds| + 1
        && cmdList == old(cmdList)[k := r.cmds[|s.cmds|]]
        && Allocator() == r.table && info.Value() == i.(pos := r.pos)
      ensures currentLine == old(currentLine)
    {
      var cmd := new GCodeCommand.Copy(cmdList[k]);
      ghost var c := cmd.Value();
      MarkStep(i, s, c, formulaFmt);
      if cmd.name == "G00" || cmd.name == "G01" {
        MoveTo(cmd);
        if info.pos.z < 0.0 {
          InterpolateIgnoresPos(i, info.pos, Allocator(), info.pos.x, info.pos.y, true, formulaFmt);
          SetFormula(k, true, formulaFmt);
        }
      } else if cmd.name == "G82" {
        MoveTo(cmd);
        InterpolateIgnoresPos(i, info.pos, Allocator(), info.pos.x, info.pos.y, false, formulaFmt);
        SetFormula(k, false, formulaFmt);
      }
    }

    /** The `k`-th command gets the formula for where the tool now is. */
    method SetFormula(k: nat, isLinearMotionCommand: bool, formulaFmt: real -> string)
      requires info.gx > 0.0 && info.gy > 0.0 && k < |cmdList|
      modifies this
      ensures var (t', f) := Interp.Interpolate(info.Value(), old(Allocator()), info.pos.x, info.pos.y, isLinearMotionCommand, formulaFmt);
        && Allocator() == t' && cmdList == old(cmdList)[k := old(cmdList[k]).WithZFormula(f)]
      ensures currentLine == old(currentLine)
    {
      var zformula := Interpolate(info.pos.x, info.pos.y, isLinearMotionCommand, formulaFmt);
      cmdList := cmdList[k := cmdList[k].WithZFormula(zformula)];
    }

    /** `DoInterpolation`'s loop, from `k` commands marked to `k + 1`. */
    method MarkNext(k: nat, ghost i: Info, ghost s0: Marked, ghost cs: seq<Command>, formulaFmt: real -> string)
      requires i.gx > 0.0 && i.gy > 0.0 && k < |cs| && |cmdList| == |cs|
      requires var r := MarkAll(i, s0, cs[..k], formulaFmt);
        && |r.cmds| == k
        && cmdList == r.cmds + cs[k..]
        && Allocator() == r.table && info.Value() == i.(pos := r.pos)
      modifies this, info
      ensures |cmdList| == |cs|
      ensures var r := MarkAll(i, s0, cs[..k + 1], formulaFmt);
        && |r.cmds| == k + 1
        && cmdList == r.cmds + cs[k + 1..]
        && Allocator() == r.table && info.Value() == i.(pos := r.pos)
      ensures currentLine == old(currentLine)
    {
      ghost var m := MarkAll(i, s0, cs[..k], formulaFmt);
      assert cmdList[k] == cs[k];
      MarkCommand(k, i, m, formulaFmt);
      MarkAllNext(i, s0, cs, k, formulaFmt);
    }

    /**
     * `DoInterpolation`: from the origin, every move that ends below the
     * surface and every drill gets the formula for where the tool is, in
     * place in the list; the allocator ends as pass 2 leaves it.
     */
    method DoInterpolation(formulaFmt: real -> string)
      requires info.gx > 0.0 && info.gy > 0.0
      modifies this, info
      ensures var r := MarkAll(old(info.Value()), Marked(Origin, old(Allocator()), []), old(cmdList), formulaFmt);
        && cmdList == r.cmds && Allocator() == r.table
        && info.Value() == old(info.Value()).(pos := r.pos)
      ensures currentLine == old(currentLine)
    {
      ghost var i := info.Value();
      ghost var cs := cmdList;
      ghost var s0 := Marked(Origin, Allocator(), []);
      info.ResetPos();
      for k := 0 to |cmdList|
        invariant |cmdList| == |cs|
        invariant var r := MarkAll(i, s0, cs[..k], formulaFmt);
          && |r.cmds| == k
          && cmdList == r.cmds + cs[k..]
          && Allocator() == r.table && info.Value() == i.(pos := r.pos)
        invariant currentLine == old(currentLine)
      {
        MarkNext(k, i, s0, cs, formulaFmt);
      }
      assert cs[..|cs|] == cs;
    }

    // -------------------------------------------------------------------
    // Pass 3

    /**
     * The inner probing loop over row `gy`: even rows left to right, odd rows
     * back. Pass 3 changes no state, so the loop is written over `i`, the
     * value of `info`, and `t`, the allocator.
     */
    static method WriteRow(i: Info, t: Table, gy: nat, num: real -> string) returns (text: string)
      ensures text == Join(Row(gy, i.gridMaxX, i.gridMaxX + 1), CellLines(i, t, num))
    {
      text := "";
      for rgx := 0 to i.gridMaxX + 1
        invariant text == Join(Row(gy, i.gridMaxX, rgx), CellLines(i, t, num))
      {
        text := WriteCell(i, t, gy, rgx, num, text);
      }
    }

    /** One pass of the inner probing loop: the probe at the centre of the `rgx`-th cell of row `gy`, when that cell has a variable. */
    static method WriteCell(i: Info, t: Table, gy: nat, rgx: nat, num: real -> string, text: string) returns (text': string)
      requires rgx <= i.gridMaxX
      requires text == Join(Row(gy, i.gridMaxX, rgx), CellLines(i, t, num))
      ensures text' == Join(Row(gy, i.gridMaxX, rgx + 1), CellLines(i, t, num))
    {
      var gx: nat := if gy % 2 == 1 then i.gridMaxX - rgx else rgx;
      var px := Centre(i.millMinX, i.gx, gx);
      var py := Centre(i.millMinY, i.gy, gy);
      var line := "";
      if HasVariable(t, gx, gy) {
        line := ProbeText(Cell(gx, gy), px, py, Variable(t, gx, gy), num);
      }
      CellTextIs(i, t, Cell(gx, gy), px, py, num, line);
      RowTextNext(i, t, gy, rgx, num, text, line);
      text' := text + line;
    }

    /** The two probing loops: every row of the grid, from row 0 up. */
    static method WriteProbes(i: Info, t: Table, num: real -> string) returns (text: string)
      ensures text == Join(ProbeBlock(i, t), ProbeLines(num))
    {
      text := "";
      for gy := 0 to i.gridMaxY + 1
        invariant text == Join(Serpentine(i.gridMaxX, gy), CellLines(i, t, num))
      {
        var row := WriteRow(i, t, gy, num);
        assert text + row == Join(Serpentine(i.gridMaxX, gy + 1), CellLines(i, t, num)) by {
          SerpentineTextNext(i, t, gy, num, text, row);
        }
        text := text + row;
      }
      assert text == Join(ProbeBlock(i, t), ProbeLines(num)) by {
        ProbesOfText(i, t, Serpentine(i.gridMaxX, i.gridMaxY + 1), num);
      }
    }

    /** The calibration header, with the settings for the unit in force. */
    method WriteHeader(num: real -> string) returns (text: string)
      ensures text == HeaderText(Settings(info.Value()), num)
    {
      var clearHeight, traverseHeight, probeDepth, initialProbe, traverseSpeed, probeSpeed;
      if info.unitType == UnitInches {
        clearHeight, traverseHeight, probeDepth, initialProbe := 0.47244, 0.01969, -0.03937, -0.1969;
        traverseSpeed, probeSpeed := 400.0 / 25.4, 60.0 / 25.4;
      } else {
        clearHeight, traverseHeight, probeDepth, initialProbe := 12.0, 0.5, -1.0, -5.0;
        traverseSpeed, probeSpeed := 400.0, 60.0;
      }
      var drill := if info.hasDrillSpots then Some(info.drillSpotDepth) else None;
      var cal := Calibration(clearHeight, traverseHeight, info.millRouteDepth, probeDepth,
                             traverseSpeed, probeSpeed, drill, initialProbe);
      assert cal == Settings(info.Value());
      text := HeaderText(cal, num);
    }

    /**
     * `cmd.ToString()` on the loop's copy `cmd = *it` of the `k`-th command.
     * `ToString` may add a Z key to the copy, which is then thrown away.
     */
    method EchoLine(k: nat, commandFmt: real -> string) returns (line: string)
      requires k < |cmdList|
      ensures line == Render(cmdList[k], commandFmt)
    {
      var cmd := new GCodeCommand.Copy(cmdList[k]);
      line := cmd.ToString(commandFmt);
    }

    /** What `GenerateGCodeWithProbing` writes for the `k`-th command of the list. */
    method WriteCommand(k: nat, commandFmt: real -> string, num: real -> string) returns (text: string)
      requires k < |cmdList|
      ensures text == Join(ItemsOf(info.Value(), Allocator(), cmdList[k]), OutLines(commandFmt, num))
    {
      var line := EchoLine(k, commandFmt);
      if cmdList[k].name == "G21" || cmdList[k].name == "G20" {
        text := WriteUnitCommand(k, line, commandFmt, num);
      } else {
        ItemsOfText(info.Value(), Allocator(), cmdList[k], commandFmt, num);
        text := line + "\n";
      }
    }

    /** The `G21`/`G20` branch: the command's line, then the header, the probes and the resume block. */
    method WriteUnitCommand(k: nat, line: string, commandFmt: real -> string, num: real -> string) returns (text: string)
      requires k < |cmdList| && IsUnitCommand(cmdList[k]) && line == Render(cmdList[k], commandFmt)
      ensures text == Join(ItemsOf(info.Value(), Allocator(), cmdList[k]), OutLines(commandFmt, num))
    {
      var header := WriteHeader(num);
      var probes := WriteProbes(info.Value(), Allocator(), num);
      ItemsOfUnitText(info.Value(), Allocator(), cmdList[k], commandFmt, num);
      text := line + "\n" + header + probes + ResumeText;
    }

    /** `GenerateGCodeWithProbing`'s loop, from `k` commands written to `k + 1`. */
    method WriteNext(k: nat, commandFmt: real -> string, num: real -> string, out: string) returns (out': string)
      requires k < |cmdList| && out == Output(info.Value(), Allocator(), cmdList[..k], commandFmt, num)
      ensures out' == Output(info.Value(), Allocator(), cmdList[..k + 1], commandFmt, num)
    {
      var text := WriteCommand(k, commandFmt, num);
      OutputStep(info.Value(), Allocator(), cmdList, k, commandFmt, num, out, text);
      out' := out + text;
    }

    /**
     * `GenerateGCodeWithProbing`: the output file, the list in order with
     * the probing preamble after every unit command.
     */
    method GenerateGCodeWithProbing(commandFmt: real -> string, num: real -> string) returns (out: string)
      ensures out == Output(info.Value(), Allocator(), cmdList, commandFmt, num)
    {
      out := "";
      for k := 0 to |cmdList|
        invariant out == Output(info.Value(), Allocator(), cmdList[..k], commandFmt, num)
      {
        out := WriteNext(k, commandFmt, num, out);
      }
      assert cmdList[..|cmdList|] == cmdList;
    }
  }

}
