/**
 * Pass 2 (src/pcb-probe.cpp:203-305): every move that ends below the surface,
 * and every drill, gets a Z formula that blends the probed heights of the four
 * cells around its position.
 */
module Interp {
  import opened Text
  import opened Commands
  import opened Geometry
  import opened Plan
  import opened Cells
  import Wrappers

  /** `grid_ref` on one axis: the cell a coordinate falls in. */
  function GridRef(min: real, g: real, v: real): int
    requires g > 0.0
  {
    ((v - min) / g).Floor
  }

  /** Where, as a fraction of the pitch, the coordinate lies within its cell. */
  function Offset(min: real, g: real, v: real, cell: int): real
    requires g > 0.0
  {
    ((v - min) - (cell as real) * g) / g
  }

  lemma FloorFraction(r: real)
    ensures 0.0 <= r - (r.Floor as real) < 1.0
  {
  }

  lemma OffsetIsFraction(min: real, g: real, v: real)
    requires g > 0.0
    ensures Offset(min, g, v, GridRef(min, g, v)) == (v - min) / g - (GridRef(min, g, v) as real)
  {
    var c := GridRef(min, g, v) as real;
    assert ((v - min) - c * g) / g == (v - min) / g - (c * g) / g;
    assert (c * g) / g == c;
  }

  /** The offset within the cell a coordinate falls in is in `[0, 1)`. */
  lemma OffsetInCell(min: real, g: real, v: real)
    requires g > 0.0
    ensures 0.0 <= Offset(min, g, v, GridRef(min, g, v)) < 1.0
  {
    OffsetIsFraction(min, g, v);
    FloorFraction((v - min) / g);
  }

  /**
   * The neighbour cell to blend with: the next cell when the coordinate is
   * past the middle of its cell, the previous one otherwise, and the cell
   * itself when that neighbour would fall outside `[0, max]` (the unsigned
   * wrap-around of `0 - 1` makes the source's upper test catch both sides).
   */
  function Neighbour(cell: int, os: real, max: int): (n: int)
    ensures n == cell || (n == cell + (if os > 0.5 then 1 else -1) && 0 <= n <= max)
    ensures 0 <= cell <= max ==> 0 <= n <= max
  {
    var p := cell + (if os > 0.5 then 1 else -1);
    if p < 0 || p > max then cell else p
  }

  /** The neighbour is the cell itself exactly when the step out of it would leave the grid. */
  lemma NeighbourClamps(cell: int, os: real, max: int)
    ensures var step := if os > 0.5 then 1 else -1;
      (Neighbour(cell, os, max) == cell) <==> !(0 <= cell + step <= max)
  {
  }

  /** The weight of the cell itself on one axis: 1 at its middle, 0.5 at either edge. */
  function Share(os: real): (w: real)
    ensures 0.0 <= os < 1.0 ==> 0.5 <= w <= 1.0
  {
    0.5 + (if os > 0.5 then 1.0 - os else os)
  }

  /** The four weights: the cell, its X neighbour, its Y neighbour, the diagonal one. */
  datatype Weights = Weights(w1: real, w2: real, w3: real, w4: real)

  function WeightsOf(xpc: real, ypc: real): Weights
  {
    Weights(xpc * ypc, (1.0 - xpc) * ypc, xpc * (1.0 - ypc), (1.0 - xpc) * (1.0 - ypc))
  }

  /** The four weights sum to 1, and none is negative when both shares lie in `[0, 1]`. */
  lemma WeightsAreConvex(xpc: real, ypc: real)
    ensures var w := WeightsOf(xpc, ypc); w.w1 + w.w2 + w.w3 + w.w4 == 1.0
    ensures 0.0 <= xpc <= 1.0 && 0.0 <= ypc <= 1.0 ==>
      var w := WeightsOf(xpc, ypc); w.w1 >= 0.0 && w.w2 >= 0.0 && w.w3 >= 0.0 && w.w4 >= 0.0
  {
    var w := WeightsOf(xpc, ypc);
    assert w.w1 + w.w2 == ypc;
    assert w.w3 + w.w4 == 1.0 - ypc;
    if 0.0 <= xpc <= 1.0 && 0.0 <= ypc <= 1.0 {
      NonNegativeProduct(xpc, ypc);
      NonNegativeProduct(1.0 - xpc, ypc);
      NonNegativeProduct(xpc, 1.0 - ypc);
      NonNegativeProduct(1.0 - xpc, 1.0 - ypc);
    }
  }

  lemma NonNegativeProduct(a: real, b: real)
    requires a >= 0.0 && b >= 0.0
    ensures a * b >= 0.0
  {
  }

  /** The four cells a formula reads: (cx, cy), (px, cy), (cx, py), (px, py). */
  datatype Corners = Corners(cx: int, cy: int, px: int, py: int)

  /** The cells around (x, y) on the grid of `i`. */
  function CornersOf(i: Info, x: real, y: real): (c: Corners)
    requires i.gx > 0.0 && i.gy > 0.0
  {
    var cx := GridRef(i.millMinX, i.gx, x);
    var cy := GridRef(i.millMinY, i.gy, y);
    Corners(cx, cy,
            Neighbour(cx, Offset(i.millMinX, i.gx, x, cx), i.gridMaxX),
            Neighbour(cy, Offset(i.millMinY, i.gy, y, cy), i.gridMaxY))
  }

  /** The weights of those cells. */
  function WeightsAt(i: Info, x: real, y: real): Weights
    requires i.gx > 0.0 && i.gy > 0.0
  {
    var cx := GridRef(i.millMinX, i.gx, x);
    var cy := GridRef(i.millMinY, i.gy, y);
    WeightsOf(Share(Offset(i.millMinX, i.gx, x, cx)), Share(Offset(i.millMinY, i.gy, y, cy)))
  }

  /** The weights of any position are a convex combination, with the cell's own weight at least a quarter. */
  lemma WeightsAtConvex(i: Info, x: real, y: real)
    requires i.gx > 0.0 && i.gy > 0.0
    ensures var w := WeightsAt(i, x, y);
      && w.w1 + w.w2 + w.w3 + w.w4 == 1.0
      && w.w1 >= 0.25 && w.w2 >= 0.0 && w.w3 >= 0.0 && w.w4 >= 0.0
  {
    var cx := GridRef(i.millMinX, i.gx, x);
    var cy := GridRef(i.millMinY, i.gy, y);
    OffsetInCell(i.millMinX, i.gx, x);
    OffsetInCell(i.millMinY, i.gy, y);
    var xpc := Share(Offset(i.millMinX, i.gx, x, cx));
    var ypc := Share(Offset(i.millMinY, i.gy, y, cy));
    WeightsAreConvex(xpc, ypc);
    QuarterProduct(xpc, ypc);
  }

  lemma QuarterProduct(a: real, b: real)
    requires a >= 0.5 && b >= 0.5
    ensures a * b >= 0.25
  {
    assert a * b - 0.25 == (a - 0.5) * (b - 0.5) + 0.5 * (a - 0.5) + 0.5 * (b - 0.5);
    NonNegativeProduct(a - 0.5, b - 0.5);
  }

  /** The corner cells, allocated in order: the cell, its X neighbour, its Y neighbour, the diagonal one. */
  function EnsureCorners(t: Table, c: Corners): (r: Table)
    ensures HasVariable(r, c.cx, c.cy) && HasVariable(r, c.px, c.cy)
    ensures HasVariable(r, c.cx, c.py) && HasVariable(r, c.px, c.py)
  {
    var t1 := Ensure(t, c.cx, c.cy);
    EnsureGrows(t1, c.px, c.cy);
    var t2 := Ensure(t1, c.px, c.cy);
    EnsureGrows(t2, c.cx, c.py);
    var t3 := Ensure(t2, c.cx, c.py);
    EnsureGrows(t3, c.px, c.py);
    EnsureGrows(Ensure(t1, c.px, c.cy), c.cx, c.py);
    Ensure(t3, c.px, c.py)
  }

  /** Allocating the corners keeps the table valid, and only adds to it. */
  lemma EnsureCornersValid(t: Table, c: Corners)
    requires Valid(t)
    ensures var r := EnsureCorners(t, c);
      && Valid(r) && t.next <= r.next <= t.next + 4
      && forall k :: k in t.vars ==> k in r.vars && r.vars[k] == t.vars[k]
  {
    var t1 := Ensure(t, c.cx, c.cy);
    var t2 := Ensure(t1, c.px, c.cy);
    var t3 := Ensure(t2, c.cx, c.py);
    EnsureAllocates(t, c.cx, c.cy);
    EnsureAllocates(t1, c.px, c.cy);
    EnsureAllocates(t2, c.cx, c.py);
    EnsureAllocates(t3, c.px, c.py);
    EnsureGrows(t, c.cx, c.cy);
    EnsureGrows(t1, c.px, c.cy);
    EnsureGrows(t2, c.cx, c.py);
    EnsureGrows(t3, c.px, c.py);
  }

  /** The depth parameter the formula ends with: the route depth `#3` for a cut, the drill depth `#7` for a drill. */
  function DepthParameter(linear: bool): string
  {
    if linear then "#3" else "#7"
  }

  /** One `<weight>*#<id> + ` term of the formula. */
  function Term(w: real, id: int, formulaFmt: real -> string): string
  {
    formulaFmt(w) + "*#" + IntToString(id) + " + "
  }

  /**
   * The formula text: the four weighted cell parameters, then the depth
   * parameter; `formulaFmt` stands for the fixed three-decimal stream output.
   */
  function FormulaText(w: Weights, t: Table, c: Corners, linear: bool, formulaFmt: real -> string): string
    requires HasVariable(t, c.cx, c.cy) && HasVariable(t, c.px, c.cy)
    requires HasVariable(t, c.cx, c.py) && HasVariable(t, c.px, c.py)
  {
    Term(w.w1, Variable(t, c.cx, c.cy), formulaFmt)
      + Term(w.w2, Variable(t, c.px, c.cy), formulaFmt)
      + Term(w.w3, Variable(t, c.cx, c.py), formulaFmt)
      + Term(w.w4, Variable(t, c.px, c.py), formulaFmt)
      + DepthParameter(linear)
  }

  predicate EndsWith(s: string, suffix: string)
  {
    |s| >= |suffix| && s[|s| - |suffix|..] == suffix
  }

  /** A formula is never empty, and it ends with the depth parameter of its kind of move. */
  lemma FormulaEnds(w: Weights, t: Table, c: Corners, linear: bool, formulaFmt: real -> string)
    requires HasVariable(t, c.cx, c.cy) && HasVariable(t, c.px, c.cy)
    requires HasVariable(t, c.cx, c.py) && HasVariable(t, c.px, c.py)
    ensures var f := FormulaText(w, t, c, linear, formulaFmt);
      && f != ""
      && EndsWith(f, DepthParameter(linear))
      && !EndsWith(f, DepthParameter(!linear))
  {
    var f := FormulaText(w, t, c, linear, formulaFmt);
    var head := f[..|f| - 2];
    assert f == head + DepthParameter(linear);
    assert f[|f| - 2..] == DepthParameter(linear);
  }

  /** `interpolate` at (x, y): the table with the four corner cells allocated, and the formula. */
  function Interpolate(i: Info, t: Table, x: real, y: real, linear: bool, formulaFmt: real -> string): (r: (Table, string))
    requires i.gx > 0.0 && i.gy > 0.0
  {
    var c := CornersOf(i, x, y);
    var t' := EnsureCorners(t, c);
    (t', FormulaText(WeightsAt(i, x, y), t', c, linear, formulaFmt))
  }

  /** The formula does not depend on where the tool was before, only on the point asked for. */
  lemma InterpolateIgnoresPos(i: Info, p: Position, t: Table, x: real, y: real, linear: bool, formulaFmt: real -> string)
    requires i.gx > 0.0 && i.gy > 0.0
    ensures Interpolate(i.(pos := p), t, x, y, linear, formulaFmt) == Interpolate(i, t, x, y, linear, formulaFmt)
  {
    assert CornersOf(i.(pos := p), x, y) == CornersOf(i, x, y);
    assert WeightsAt(i.(pos := p), x, y) == WeightsAt(i, x, y);
  }

  /**
   * After `interpolate` the four corner cells have ids, the table is still
   * valid and has only grown, and the formula ends with the right depth
   * parameter.
   */
  lemma InterpolateAllocates(i: Info, t: Table, x: real, y: real, linear: bool, formulaFmt: real -> string)
    requires i.gx > 0.0 && i.gy > 0.0 && Valid(t)
    ensures var r := Interpolate(i, t, x, y, linear, formulaFmt);
      var c := CornersOf(i, x, y);
      && Valid(r.0)
      && HasVariable(r.0, c.cx, c.cy) && HasVariable(r.0, c.px, c.cy)
      && HasVariable(r.0, c.cx, c.py) && HasVariable(r.0, c.px, c.py)
      && (forall k :: k in t.vars ==> k in r.0.vars && r.0.vars[k] == t.vars[k])
      && r.1 != "" && EndsWith(r.1, DepthParameter(linear))
  {
    var c := CornersOf(i, x, y);
    EnsureCornersValid(t, c);
    FormulaEnds(WeightsAt(i, x, y), EnsureCorners(t, c), c, linear, formulaFmt);
  }

  /**
   * A coordinate inside the box pass 1 found lies in a cell of the derived
   * grid, and so do its neighbours: every corner of a cut inside the box is
   * a cell the probing pass visits.
   */
  lemma InBoxInGrid(lo: real, hi: real, gs: real, n: nat, v: real)
    requires gs > 0.0 && lo <= v <= hi && n as real >= (hi - lo) / gs
    ensures var min := lo - gs / 2.0;
      var g := (hi - min) / (n as real + 0.5);
      g > 0.0 && 0 <= GridRef(min, g, v) <= n
  {
    var min := lo - gs / 2.0;
    var g := (hi - min) / (n as real + 0.5);
    AxisSpan(lo, hi, gs, n);
    var x := n as real + 0.5;
    var a, b := v - min, x * g;
    assert b == hi - min;
    assert 0.0 < a <= b;
    DivMonotone(a, b, g);
    MulDiv(x, g);
    FloorWithin(a / g, n);
  }

  lemma FloorWithin(r: real, n: nat)
    requires 0.0 < r <= n as real + 0.5
    ensures 0 <= r.Floor <= n
  {
  }

  lemma MulDiv(x: real, g: real)
    requires g > 0.0
    ensures (x * g) / g == x
  {
  }

  lemma DivMonotone(a: real, b: real, g: real)
    requires 0.0 < a <= b && g > 0.0
    ensures 0.0 < a / g <= b / g
  {
    assert (b / g) - (a / g) == (b - a) / g;
  }

  /** So every cut position of pass 1 has its four corner cells in the grid. */
  lemma CutCornersInGrid(i: Info, x: real, y: real)
    requires i.gridSize > 0.0 && i.millMinX <= x <= i.millMaxX && i.millMinY <= y <= i.millMaxY
    ensures var f := Finish(i);
      f.gx > 0.0 && f.gy > 0.0 &&
      var c := CornersOf(f, x, y);
      && 0 <= c.cx <= f.gridMaxX && 0 <= c.px <= f.gridMaxX
      && 0 <= c.cy <= f.gridMaxY && 0 <= c.py <= f.gridMaxY
  {
    var f := Finish(i);
    InBoxInGrid(i.millMinX, i.millMaxX, i.gridSize, f.gridMaxX, x);
    InBoxInGrid(i.millMinY, i.millMaxY, i.gridSize, f.gridMaxY, y);
  }

  // ---------------------------------------------------------------------
  // DoInterpolation

  /** The state of pass 2: the tracked position, the allocator, and the commands done so far. */
  datatype Marked = Marked(pos: Position, table: Table, cmds: seq<Command>)

  /** Whether pass 2 gives the command a formula once the tool has moved to `p`, and of which kind. */
  predicate GetsFormula(c: Command, p: Position)
  {
    (IsMove(c) && p.z < 0.0) || c.name == "G82"
  }

  /** One iteration of `DoInterpolation`'s loop. */
  function Mark(i: Info, s: Marked, c: Command, formulaFmt: real -> string): (r: Marked)
    requires i.gx > 0.0 && i.gy > 0.0
    ensures |r.cmds| == |s.cmds| + 1 && r.cmds[..|s.cmds|] == s.cmds
  {
    if IsMove(c) || c.name == "G82" then
      var p := MovedTo(s.pos, c);
      if GetsFormula(c, p) then
        var (t', f) := Interpolate(i, s.table, p.x, p.y, c.name != "G82", formulaFmt);
        Marked(p, t', s.cmds + [c.WithZFormula(f)])
      else Marked(p, s.table, s.cmds + [c])
    else Marked(s.pos, s.table, s.cmds + [c])
  }

  /** `DoInterpolation`'s loop over the commands `cs`, from the state `s`. */
  function MarkAll(i: Info, s: Marked, cs: seq<Command>, formulaFmt: real -> string): (r: Marked)
    requires i.gx > 0.0 && i.gy > 0.0
    ensures |r.cmds| == |s.cmds| + |cs| && r.cmds[..|s.cmds|] == s.cmds
    decreases |cs|
  {
    if cs == [] then s else Mark(i, MarkAll(i, s, cs[..|cs| - 1], formulaFmt), cs[|cs| - 1], formulaFmt)
  }

  /**
   * After `k` commands, the next iteration marks command `k` and writes it
   * over that command in the rest of the list, which is how `DoInterpolation`
   * updates its list in place.
   */
  lemma MarkAllNext(i: Info, s: Marked, cs: seq<Command>, k: nat, formulaFmt: real -> string)
    requires i.gx > 0.0 && i.gy > 0.0 && k < |cs| && |MarkAll(i, s, cs[..k], formulaFmt).cmds| == k
    ensures var m := MarkAll(i, s, cs[..k], formulaFmt);
      var r := Mark(i, m, cs[k], formulaFmt);
      && MarkAll(i, s, cs[..k + 1], formulaFmt) == r
      && |r.cmds| == k + 1
      && (m.cmds + cs[k..])[k := r.cmds[k]] == r.cmds + cs[k + 1..]
  {
    var m := MarkAll(i, s, cs[..k], formulaFmt);
    assert cs[..k + 1][..k] == cs[..k];
    MarkStep(i, m, cs[k], formulaFmt);
    var r := Mark(i, m, cs[k], formulaFmt);
    ReplaceHead(m.cmds, r.cmds[k], cs[k..]);
    assert cs[k..][1..] == cs[k + 1..];
  }

  /** Writing `x` over the head of the rest of a list. */
  lemma ReplaceHead<T>(done: seq<T>, x: T, rest: seq<T>)
    requires rest != []
    ensures (done + rest)[|done| := x] == done + [x] + rest[1..]
  {
  }

  /** The position pass 2 tracks: only moves and drills move the tool. */
  function Track(p: Position, cs: seq<Command>): Position
    decreases |cs|
  {
    if cs == [] then p
    else
      var c := cs[|cs| - 1];
      var q := Track(p, cs[..|cs| - 1]);
      if IsMove(c) || c.name == "G82" then MovedTo(q, c) else q
  }

  /** What pass 2 does to one command, as seen from the position the tool moved to. */
  predicate MarkedAs(c: Command, d: Command, p: Position)
  {
    if GetsFormula(c, p) then
      d == c.WithZFormula(d.zformula) && d.zformula != ""
      && EndsWith(d.zformula, DepthParameter(c.name != "G82"))
    else d == c
  }

  /** One iteration only appends, and appends the command as pass 2 marks it. */
  lemma MarkStep(i: Info, s: Marked, c: Command, formulaFmt: real -> string)
    requires i.gx > 0.0 && i.gy > 0.0
    ensures var r := Mark(i, s, c, formulaFmt);
      && r.pos == (if IsMove(c) || c.name == "G82" then MovedTo(s.pos, c) else s.pos)
      && r.cmds == s.cmds + [r.cmds[|s.cmds|]]
      && MarkedAs(c, r.cmds[|s.cmds|], r.pos)
  {
    if IsMove(c) || c.name == "G82" {
      var p := MovedTo(s.pos, c);
      if GetsFormula(c, p) {
        var t' := EnsureCorners(s.table, CornersOf(i, p.x, p.y));
        FormulaEnds(WeightsAt(i, p.x, p.y), t', CornersOf(i, p.x, p.y), c.name != "G82", formulaFmt);
      }
    }
  }

  /** One iteration keeps the allocator valid and takes no id back. */
  lemma MarkStepTable(i: Info, s: Marked, c: Command, formulaFmt: real -> string)
    requires i.gx > 0.0 && i.gy > 0.0 && Valid(s.table)
    ensures var r := Mark(i, s, c, formulaFmt);
      && Valid(r.table) && s.table.next <= r.table.next
      && (forall k :: k in s.table.vars ==> k in r.table.vars && r.table.vars[k] == s.table.vars[k])
  {
    if IsMove(c) || c.name == "G82" {
      var p := MovedTo(s.pos, c);
      if GetsFormula(c, p) {
        EnsureCornersValid(s.table, CornersOf(i, p.x, p.y));
      }
    }
  }

  /** Pass 2 keeps the allocator valid, and a cell once given an id keeps it. */
  lemma {:induction false} MarkAllTable(i: Info, s: Marked, cs: seq<Command>, formulaFmt: real -> string)
    requires i.gx > 0.0 && i.gy > 0.0 && Valid(s.table)
    ensures var r := MarkAll(i, s, cs, formulaFmt);
      && Valid(r.table) && s.table.next <= r.table.next
      && (forall k :: k in s.table.vars ==> k in r.table.vars && r.table.vars[k] == s.table.vars[k])
    decreases |cs|
  {
    if cs != [] {
      var front := cs[..|cs| - 1];
      MarkAllTable(i, s, front, formulaFmt);
      MarkStepTable(i, MarkAll(i, s, front, formulaFmt), cs[|cs| - 1], formulaFmt);
    }
  }

  /** Pass 2 ends at the position its moves and drills lead to. */
  lemma {:induction false} MarkAllPos(i: Info, s: Marked, cs: seq<Command>, formulaFmt: real -> string)
    requires i.gx > 0.0 && i.gy > 0.0
    ensures MarkAll(i, s, cs, formulaFmt).pos == Track(s.pos, cs)
    decreases |cs|
  {
    if cs != [] {
      var front := cs[..|cs| - 1];
      MarkAllPos(i, s, front, formulaFmt);
      MarkStep(i, MarkAll(i, s, front, formulaFmt), cs[|cs| - 1], formulaFmt);
    }
  }

  /** Each output command is its input command as pass 2 marks it, from the position reached there. */
  predicate AllMarked(cs: seq<Command>, ds: seq<Command>, p: Position)
    decreases |cs|
  {
    && |ds| == |cs|
    && (cs != [] ==>
         && AllMarked(cs[..|cs| - 1], ds[..|ds| - 1], p)
         && MarkedAs(cs[|cs| - 1], ds[|ds| - 1], Track(p, cs)))
  }

  lemma {:induction false} MarkAllMarks(i: Info, p: Position, t: Table, cs: seq<Command>, formulaFmt: real -> string)
    requires i.gx > 0.0 && i.gy > 0.0
    ensures AllMarked(cs, MarkAll(i, Marked(p, t, []), cs, formulaFmt).cmds, p)
    decreases |cs|
  {
    var s := Marked(p, t, []);
    if cs != [] {
      var front := cs[..|cs| - 1];
      var m := MarkAll(i, s, front, formulaFmt);
      MarkAllMarks(i, p, t, front, formulaFmt);
      MarkAllPos(i, s, front, formulaFmt);
      MarkStep(i, m, cs[|cs| - 1], formulaFmt);
      var r := MarkAll(i, s, cs, formulaFmt);
      assert r.cmds[..|r.cmds| - 1] == m.cmds;
    }
  }

  lemma {:induction false} AllMarkedAt(cs: seq<Command>, ds: seq<Command>, p: Position)
    requires AllMarked(cs, ds, p)
    ensures |ds| == |cs|
    ensures forall k :: 0 <= k < |cs| ==> MarkedAs(cs[k], ds[k], Track(p, cs[..k + 1]))
    decreases |cs|
  {
    if cs != [] {
      var front := cs[..|cs| - 1];
      AllMarkedAt(front, ds[..|ds| - 1], p);
      forall k | 0 <= k < |cs|
        ensures MarkedAs(cs[k], ds[k], Track(p, cs[..k + 1]))
      {
        if k < |front| {
          assert cs[..k + 1] == front[..k + 1];
        } else {
          assert cs[..k + 1] == cs;
        }
      }
    }
  }

  /**
   * Pass 2 changes nothing but Z formulas: each command keeps its place, a
   * move gets a formula ending in `#3` exactly when the tool ends below the
   * surface, every drill gets one ending in `#7`, and every other command is
   * left as it is.
   */
  lemma MarkAllShape(i: Info, p: Position, t: Table, cs: seq<Command>, formulaFmt: real -> string)
    requires i.gx > 0.0 && i.gy > 0.0
    ensures var r := MarkAll(i, Marked(p, t, []), cs, formulaFmt);
      && |r.cmds| == |cs| && r.pos == Track(p, cs)
      && forall k :: 0 <= k < |cs| ==> MarkedAs(cs[k], r.cmds[k], Track(p, cs[..k + 1]))
  {
    MarkAllMarks(i, p, t, cs, formulaFmt);
    MarkAllPos(i, Marked(p, t, []), cs, formulaFmt);
    AllMarkedAt(cs, MarkAll(i, Marked(p, t, []), cs, formulaFmt).cmds, p);
  }
  /** So on parsed commands, which carry no formula, a command has a formula exactly when pass 2 gives it one. */
  lemma FormulaIffMarked(c: Command, d: Command, p: Position)
    requires c.zformula == "" && MarkedAs(c, d, p)
    ensures (d.zformula != "") <==> GetsFormula(c, p)
    ensures d.name == c.name && d.arguments == c.arguments
  {
  }

  /** The command `name X x Y y Z z`, as parsed from a line. */
  function XYZCommand(name: string, x: real, y: real, z: real): (c: Command)
    ensures c.Has('X') && c.Has('Y') && c.Has('Z') && c.zformula == ""
    ensures c.arguments == map['X' := x, 'Y' := y, 'Z' := z]
  {
    Command(name, "", "XYZ", map['X' := x, 'Y' := y, 'Z' := z])
  }

  /** A plunge at the origin followed by a drill ten units to its left. */
  const DrillAside := [XYZCommand("G01", 0.0, 0.0, -1.0), XYZCommand("G82", -10.0, 0.0, -1.0)]

  /** Pass 1 keeps both commands and boxes only the plunge: the drill does not widen the box. */
  lemma DrillAsideLoad()
    ensures var l := Run(Start(Initial(5.0), []), DrillAside);
      && l.cmds == DrillAside && l.info.gridSize == 5.0
      && l.info.millMinX == 0.0 && l.info.millMaxX == 0.0 && l.info.millMinY == 0.0 && l.info.millMaxY == 0.0
  {
    var l0 := Start(Initial(5.0), []);
    RunStep(l0, [], DrillAside[0]);
    assert [] + [DrillAside[0]] == [DrillAside[0]];
    RunStep(l0, [DrillAside[0]], DrillAside[1]);
    assert [DrillAside[0]] + [DrillAside[1]] == DrillAside;
    DrillAsidePlunge();
    DrillAsideDrill(Step(l0, DrillAside[0]));
  }

  /** The plunge from the surface is kept whole and opens the box at the origin. */
  lemma DrillAsidePlunge()
    ensures var l1 := Step(Start(Initial(5.0), []), DrillAside[0]);
      && l1.cmds == [DrillAside[0]] && l1.info.gridSize == 5.0
      && l1.info.millMinX == 0.0 && l1.info.millMaxX == 0.0 && l1.info.millMinY == 0.0 && l1.info.millMaxY == 0.0
  {
    var l0 := Start(Initial(5.0), []);
    var c := DrillAside[0];
    assert Units(l0.info, c) == l0.info;
    assert SplitIfNeeded(l0.info.pos, c, 5.0) == [c];
    assert MovedTo(Origin, c) == Position(0.0, 0.0, -1.0);
  }

  /** The drill is appended and leaves the box alone. */
  lemma DrillAsideDrill(l1: Load)
    requires Coherent(l1) && l1.cmds == [DrillAside[0]] && l1.info.gridSize == 5.0
    requires l1.info.millMinX == 0.0 && l1.info.millMaxX == 0.0 && l1.info.millMinY == 0.0 && l1.info.millMaxY == 0.0
    ensures var l2 := Step(l1, DrillAside[1]);
      && l2.cmds == DrillAside && l2.info.gridSize == 5.0
      && l2.info.millMinX == 0.0 && l2.info.millMaxX == 0.0 && l2.info.millMinY == 0.0 && l2.info.millMaxY == 0.0
  {
    assert Units(l1.info, DrillAside[1]) == l1.info;
    assert [DrillAside[0]] + [DrillAside[1]] == DrillAside;
  }

  /** A box that is one point at the origin, on grid 5, gets one column of pitch 5 from -2.5. */
  lemma PointGrid(i: Info)
    requires i.gridSize == 5.0 && i.millMinX == 0.0 && i.millMaxX == 0.0 && i.millMinY == 0.0 && i.millMaxY == 0.0
    ensures var f := Finish(i);
      && f.millMinX == -2.5 && f.millMinY == -2.5 && f.gx == 5.0 && f.gy == 5.0 && f.gridMaxX == 0 && f.gridMaxY == 0
  {
  }

  /** On that grid, pass 2 gives the drill at X=-10 the corner cell (-2, 0). */
  lemma DrillAsideMarked(f: Info, formulaFmt: real -> string)
    requires f.millMinX == -2.5 && f.millMinY == -2.5 && f.gx == 5.0 && f.gy == 5.0
    ensures CornersOf(f, -10.0, 0.0).cx == -2 && CornersOf(f, -10.0, 0.0).cy == 0
    ensures HasVariable(MarkAll(f, Marked(Origin, EmptyTable, []), DrillAside, formulaFmt).table, -2, 0)
  {
    assert GridRef(f.millMinX, f.gx, -10.0) == -2;
    assert GridRef(f.millMinY, f.gy, 0.0) == 0;
    assert DrillAside[..1] == [DrillAside[0]] && DrillAside[..1][..0] == [];
    var s := Marked(Origin, EmptyTable, []);
    var m := Mark(f, s, DrillAside[0], formulaFmt);
    assert MarkAll(f, s, DrillAside[..1], formulaFmt) == m;
    assert m.pos == Position(0.0, 0.0, -1.0);
  }

  /**
   * A drill is never folded into the box, yet it always gets a formula: after
   * `G01 X0 Y0 Z-1` and `G82 X-10 Y0 Z-1` on grid 5, the drill falls in
   * column -2, outside the probing grid, and pass 2 still allocates that cell.
   */
  lemma DrillOutsideBox(formulaFmt: real -> string)
    ensures var l := Run(Start(Initial(5.0), []), DrillAside);
      && l.info.gridSize == 5.0 && l.info.millMinX == l.info.millMaxX == 0.0 && l.info.millMinY == l.info.millMaxY == 0.0
      && var f := Finish(l.info);
         && f.gx == 5.0 && f.gy == 5.0 && f.gridMaxX == 0 && CornersOf(f, -10.0, 0.0).cx == -2
         && HasVariable(MarkAll(f, Marked(Origin, EmptyTable, []), l.cmds, formulaFmt).table, -2, 0)
  {
    DrillAsideLoad();
    var l := Run(Start(Initial(5.0), []), DrillAside);
    PointGrid(l.info);
    DrillAsideMarked(Finish(l.info), formulaFmt);
  }

  /** A plunge at the origin, a long move that raises the tool, and a move back past the box with no Z. */
  const RaiseAside := [XYZCommand("G01", 0.0, 0.0, -1.0), XYZCommand("G01", 6.0, 0.0, 1.0), XYCommand("G01", -10.0, 0.0)]

  /** What pass 1 leaves of `RaiseAside`: the raise is split into two pieces without Z. */
  const RaiseAsideLoaded := [XYZCommand("G01", 0.0, 0.0, -1.0), XYCommand("G01", 3.0, 0.0), XYCommand("G01", 6.0, 0.0),
                             XYCommand("G01", -10.0, 0.0)]

  /**
   * Pass 1 splits the raise, since the tool starts it below the surface, and
   * ends with the tool above the surface; only the plunge is boxed.
   */
  lemma RaiseAsideLoad()
    ensures var l := Run(Start(Initial(5.0), []), RaiseAside);
      && l.cmds == RaiseAsideLoaded && l.info.pos.z == 1.0 && l.info.gridSize == 5.0
      && l.info.millMinX == 0.0 && l.info.millMaxX == 0.0 && l.info.millMinY == 0.0 && l.info.millMaxY == 0.0
  {
    var l0 := Start(Initial(5.0), []);
    var cs := RaiseAside;
    assert cs[..1] == [cs[0]] && cs[..1][..0] == [] && cs[..2][..1] == cs[..1] && cs[..2] == cs[..|cs| - 1];
    var l1 := Step(l0, cs[0]);
    assert Run(l0, cs[..1]) == l1;
    assert l1.info.pos == Position(0.0, 0.0, -1.0) && l1.boxDefined;
    RaiseSplit();
    var l2 := Step(l1, cs[1]);
    assert Run(l0, cs[..2]) == l2;
    assert l2.info.pos == Position(6.0, 0.0, 1.0);
  }

  /** The raise starts below the surface and moves 6 on grid 5, so it is split once, into pieces without Z. */
  lemma RaiseSplit()
    ensures SplitIfNeeded(Position(0.0, 0.0, -1.0), RaiseAside[1], 5.0) == [XYCommand("G01", 3.0, 0.0), XYCommand("G01", 6.0, 0.0)]
  {
    assert Pieces(0.0, 0.0, 3.0, 0.0, 5.0, "G01", Wrappers.None) == [XYCommand("G01", 3.0, 0.0)];
    assert Pieces(3.0, 0.0, 6.0, 0.0, 5.0, "G01", Wrappers.None) == [XYCommand("G01", 6.0, 0.0)];
  }

  /** Pass 2 sees only the pieces, which carry no Z, so it still tracks the tool below the surface. */
  lemma RaiseAsideTrack()
    ensures Track(Origin, RaiseAsideLoaded[..3]) == Position(6.0, 0.0, -1.0)
    ensures Track(Origin, RaiseAsideLoaded) == Position(-10.0, 0.0, -1.0)
  {
    var cs := RaiseAsideLoaded;
    assert cs[..3][..2] == cs[..2] && cs[..2][..1] == cs[..1] && cs[..1][..0] == [];
    assert Track(Origin, cs[..1]) == Position(0.0, 0.0, -1.0);
    assert Track(Origin, cs[..2]) == Position(3.0, 0.0, -1.0);
  }

  /** From any point below the surface, the move back to X=-10 gets a formula that reads the cell (-2, 0). */
  lemma MoveBackMarked(f: Info, m: Marked, formulaFmt: real -> string)
    requires f.millMinX == -2.5 && f.millMinY == -2.5 && f.gx == 5.0 && f.gy == 5.0 && m.pos.z < 0.0
    ensures var r := Mark(f, m, XYCommand("G01", -10.0, 0.0), formulaFmt);
      && |r.cmds| == |m.cmds| + 1 && r.cmds[|m.cmds|].zformula != "" && HasVariable(r.table, -2, 0)
  {
    assert GridRef(f.millMinX, f.gx, -10.0) == -2;
    assert GridRef(f.millMinY, f.gy, 0.0) == 0;
  }

  /** So the move back, at X=-10 and with no Z of its own, gets a formula that reads the cell (-2, 0). */
  lemma RaiseAsideMarked(f: Info, formulaFmt: real -> string)
    requires f.millMinX == -2.5 && f.millMinY == -2.5 && f.gx == 5.0 && f.gy == 5.0
    ensures var r := MarkAll(f, Marked(Origin, EmptyTable, []), RaiseAsideLoaded, formulaFmt);
      && |r.cmds| == 4 && r.cmds[3].zformula != "" && HasVariable(r.table, -2, 0)
  {
    var s := Marked(Origin, EmptyTable, []);
    var cs := RaiseAsideLoaded;
    var m := MarkAll(f, s, cs[..3], formulaFmt);
    RaiseAsideTrack();
    MarkAllPos(f, s, cs[..3], formulaFmt);
    MarkAllShape(f, Origin, EmptyTable, cs[..3], formulaFmt);
    assert cs[..|cs| - 1] == cs[..3];
    MoveBackMarked(f, m, formulaFmt);
  }

  /**
   * A split raise is lost to pass 2: after `G01 X0 Y0 Z-1`, `G01 X6 Y0 Z1`
   * and `G01 X-10 Y0` on grid 5, pass 1 ends above the surface, but pass 2
   * gives the last move a formula and allocates the cell (-2, 0), outside the grid.
   */
  lemma RaiseLost(formulaFmt: real -> string)
    ensures var l := Run(Start(Initial(5.0), []), RaiseAside);
      && l.info.pos.z == 1.0 && l.info.gridSize == 5.0
      && l.info.millMinX == l.info.millMaxX == 0.0 && l.info.millMinY == l.info.millMaxY == 0.0
      && var f := Finish(l.info);
         && f.gx == 5.0 && f.gy == 5.0
         && var r := MarkAll(f, Marked(Origin, EmptyTable, []), l.cmds, formulaFmt);
         && r.pos.z == -1.0 && f.gridMaxX == 0
         && |r.cmds| == 4 && r.cmds[3].zformula != "" && !r.cmds[3].Has('Z') && HasVariable(r.table, -2, 0)
  {
    RaiseAsideLoad();
    var l := Run(Start(Initial(5.0), []), RaiseAside);
    PointGrid(l.info);
    var f := Finish(l.info);
    RaiseAsideMarked(f, formulaFmt);
    RaiseAsideTrack();
    MarkAllShape(f, Origin, EmptyTable, l.cmds, formulaFmt);
  }
}
