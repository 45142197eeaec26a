/**
 * Pass 3 (src/pcb-probe.cpp:307-433): the output program. Every command is
 * written back in order; right after each unit command (G20 or G21) come the
 * parameter header, one probe per allocated cell in a serpentine walk over
 * the grid, and a pause before milling resumes.
 */
module Emit {
  import opened Wrappers
  import opened Text
  import opened Commands
  import opened Plan
  import opened Cells

  /** The numbers the header writes. */
  datatype Calibration = Calibration(
    clearHeight: real, traverseHeight: real, routeDepth: real, probeDepth: real,
    traverseSpeed: real, probeSpeed: real, drillDepth: Option<real>, initialProbe: real)

  /**
   * The header's numbers: fixed constants chosen by the unit in force at the
   * end of pass 1, the route depth pass 1 found, and the drill depth only
   * when the program drills.
   */
  function Settings(i: Info): (c: Calibration)
    ensures c.routeDepth == i.millRouteDepth
    ensures c.drillDepth.Some? <==> i.hasDrillSpots
    ensures i.hasDrillSpots ==> c.drillDepth == Some(i.drillSpotDepth)
    ensures i.unitType == UnitInches ==> c.traverseSpeed * 25.4 == 400.0 && c.probeSpeed * 25.4 == 60.0
    ensures i.unitType != UnitInches ==> c.traverseSpeed == 400.0 && c.probeSpeed == 60.0
    ensures c.probeDepth < 0.0 && c.initialProbe < c.probeDepth && 0.0 < c.traverseHeight < c.clearHeight
  {
    var drill := if i.hasDrillSpots then Some(i.drillSpotDepth) else None;
    if i.unitType == UnitInches then
      Calibration(0.47244, 0.01969, i.millRouteDepth, -0.03937, 400.0 / 25.4, 60.0 / 25.4, drill, -0.1969)
    else
      Calibration(12.0, 0.5, i.millRouteDepth, -1.0, 400.0, 60.0, drill, -5.0)
  }

  // ---------------------------------------------------------------------
  // The serpentine walk over the grid

  datatype Cell = Cell(gx: nat, gy: nat)

  /** The cell visited at step `rgx` of row `gy`: even rows run left to right, odd rows right to left. */
  function RowCell(gy: nat, rgx: nat, maxX: nat): (c: Cell)
    requires rgx <= maxX
    ensures c.gy == gy && c.gx <= maxX
  {
    Cell(if gy % 2 == 1 then maxX - rgx else rgx, gy)
  }

  /** The first `n` cells the inner loop visits in row `gy`. */
  function Row(gy: nat, maxX: nat, n: nat): seq<Cell>
    requires n <= maxX + 1
  {
    if n == 0 then [] else Row(gy, maxX, n - 1) + [RowCell(gy, n - 1, maxX)]
  }

  /** The cells the two loops visit in their first `rows` rows. */
  function Serpentine(maxX: nat, rows: nat): seq<Cell>
  {
    if rows == 0 then [] else Serpentine(maxX, rows - 1) + Row(rows - 1, maxX, maxX + 1)
  }

  lemma {:induction false} RowShape(gy: nat, maxX: nat, n: nat)
    requires n <= maxX + 1
    ensures |Row(gy, maxX, n)| == n
    ensures forall r :: 0 <= r < n ==> Row(gy, maxX, n)[r] == RowCell(gy, r, maxX)
  {
    if n > 0 {
      RowShape(gy, maxX, n - 1);
    }
  }

  /** A full row visits each of its cells once. */
  lemma RowCovers(gy: nat, maxX: nat, c: Cell)
    ensures c in Row(gy, maxX, maxX + 1) <==> c.gy == gy && c.gx <= maxX
  {
    RowShape(gy, maxX, maxX + 1);
    if c.gy == gy && c.gx <= maxX {
      var r := if gy % 2 == 1 then maxX - c.gx else c.gx;
      assert Row(gy, maxX, maxX + 1)[r] == c;
    }
  }

  predicate Distinct(s: seq<Cell>)
  {
    forall j, k :: 0 <= j < k < |s| ==> s[j] != s[k]
  }

  lemma RowDistinct(gy: nat, maxX: nat)
    ensures Distinct(Row(gy, maxX, maxX + 1))
  {
    RowShape(gy, maxX, maxX + 1);
  }

  lemma {:induction false} DistinctAppend(a: seq<Cell>, b: seq<Cell>)
    requires Distinct(a) && Distinct(b) && forall x :: x in a ==> x !in b
    ensures Distinct(a + b)
  {
    forall j, k | 0 <= j < k < |a + b|
      ensures (a + b)[j] != (a + b)[k]
    {
      if k < |a| {
        assert (a + b)[j] == a[j] && (a + b)[k] == a[k];
      } else if j >= |a| {
        assert (a + b)[j] == b[j - |a|] && (a + b)[k] == b[k - |a|];
      } else {
        assert (a + b)[j] == a[j] && (a + b)[k] == b[k - |a|];
        assert a[j] in a;
      }
    }
  }

  /** The walk has `rows * (maxX + 1)` cells. */
  lemma {:induction false} SerpentineLength(maxX: nat, rows: nat)
    ensures |Serpentine(maxX, rows)| == rows * (maxX + 1)
  {
    if rows > 0 {
      SerpentineLength(maxX, rows - 1);
      RowShape(rows - 1, maxX, maxX + 1);
      assert (rows - 1) * (maxX + 1) + (maxX + 1) == rows * (maxX + 1);
    }
  }

  lemma {:induction false} SerpentineMember(maxX: nat, rows: nat, c: Cell)
    ensures c in Serpentine(maxX, rows) <==> c.gx <= maxX && c.gy < rows
  {
    if rows > 0 {
      var front := Serpentine(maxX, rows - 1);
      var row := Row(rows - 1, maxX, maxX + 1);
      assert Serpentine(maxX, rows) == front + row;
      SerpentineMember(maxX, rows - 1, c);
      RowCovers(rows - 1, maxX, c);
    }
  }

  /** The walk visits exactly the cells of the grid's first `rows` rows. */
  lemma SerpentineMembers(maxX: nat, rows: nat)
    ensures forall c :: c in Serpentine(maxX, rows) <==> c.gx <= maxX && c.gy < rows
  {
    forall c: Cell
      ensures c in Serpentine(maxX, rows) <==> c.gx <= maxX && c.gy < rows
    {
      SerpentineMember(maxX, rows, c);
    }
  }

  /** The walk visits no cell twice. */
  lemma {:induction false} SerpentineDistinct(maxX: nat, rows: nat)
    ensures Distinct(Serpentine(maxX, rows))
  {
    if rows > 0 {
      var front := Serpentine(maxX, rows - 1);
      var row := Row(rows - 1, maxX, maxX + 1);
      SerpentineDistinct(maxX, rows - 1);
      SerpentineMembers(maxX, rows - 1);
      RowDistinct(rows - 1, maxX);
      forall x | x in front
        ensures x !in row
      {
        RowCovers(rows - 1, maxX, x);
      }
      DistinctAppend(front, row);
    }
  }

  /** So the walk visits each cell of the grid's first `rows` rows exactly once. */
  lemma SerpentineCovers(maxX: nat, rows: nat)
    ensures |Serpentine(maxX, rows)| == rows * (maxX + 1)
    ensures Distinct(Serpentine(maxX, rows))
    ensures forall c :: c in Serpentine(maxX, rows) <==> c.gx <= maxX && c.gy < rows
  {
    SerpentineLength(maxX, rows);
    SerpentineDistinct(maxX, rows);
    SerpentineMembers(maxX, rows);
  }

  /** Two cells one step apart: along a row, or straight up to the next row. */
  predicate Adjacent(a: Cell, b: Cell)
  {
    (a.gy == b.gy && (a.gx + 1 == b.gx || b.gx + 1 == a.gx)) || (a.gx == b.gx && a.gy + 1 == b.gy)
  }

  /** Each cell of `s` is one step from the one before. */
  predicate Walk(s: seq<Cell>)
    decreases |s|
  {
    |s| <= 1 || (Walk(s[..|s| - 1]) && Adjacent(s[|s| - 2], s[|s| - 1]))
  }

  lemma {:induction false} WalkAt(s: seq<Cell>, k: nat)
    requires Walk(s) && 0 < k < |s|
    ensures Adjacent(s[k - 1], s[k])
    decreases |s|
  {
    if k < |s| - 1 {
      WalkAt(s[..|s| - 1], k);
    }
  }

  lemma {:induction false} WalkAppend(a: seq<Cell>, b: seq<Cell>)
    requires Walk(a) && Walk(b) && a != [] && b != [] && Adjacent(a[|a| - 1], b[0])
    ensures Walk(a + b)
    decreases |b|
  {
    var s := a + b;
    if |b| == 1 {
      assert s[..|s| - 1] == a;
    } else {
      var b' := b[..|b| - 1];
      assert s[..|s| - 1] == a + b';
      WalkAppend(a, b');
      assert s[|s| - 2] == b[|b| - 2];
    }
  }

  /** Two walks joined where the second starts one row above the end of the first. */
  lemma WalkJoin(a: seq<Cell>, b: seq<Cell>, gx: nat, gy: nat)
    requires Walk(a) && Walk(b) && a != [] && b != []
    requires a[|a| - 1] == Cell(gx, gy) && b[0] == Cell(gx, gy + 1)
    ensures Walk(a + b)
  {
    WalkAppend(a, b);
  }

  lemma {:induction false} RowWalk(gy: nat, maxX: nat, n: nat)
    requires n <= maxX + 1
    ensures Walk(Row(gy, maxX, n))
  {
    if n > 1 {
      RowWalk(gy, maxX, n - 1);
      RowShape(gy, maxX, n);
      var s := Row(gy, maxX, n);
      assert s[..|s| - 1] == Row(gy, maxX, n - 1);
    } else {
      RowShape(gy, maxX, n);
    }
  }

  lemma {:induction false} RowFirst(gy: nat, maxX: nat, n: nat)
    requires 0 < n <= maxX + 1
    ensures |Row(gy, maxX, n)| == n && Row(gy, maxX, n)[0] == RowCell(gy, 0, maxX)
  {
    if n > 1 {
      RowFirst(gy, maxX, n - 1);
    }
  }

  /** The walk's first cell is (0, 0), and each row ends where the next one starts: at the same column. */
  lemma {:induction false} SerpentineEnds(maxX: nat, rows: nat)
    requires rows > 0
    ensures |Serpentine(maxX, rows)| > 0
    ensures Serpentine(maxX, rows)[0] == Cell(0, 0)
    ensures Serpentine(maxX, rows)[|Serpentine(maxX, rows)| - 1] == Cell(if rows % 2 == 1 then maxX else 0, rows - 1)
  {
    var front := Serpentine(maxX, rows - 1);
    var row := Row(rows - 1, maxX, maxX + 1);
    RowShape(rows - 1, maxX, maxX + 1);
    if rows == 1 {
      assert Serpentine(maxX, rows) == row;
    } else {
      SerpentineEnds(maxX, rows - 1);
    }
    assert (front + row)[|front + row| - 1] == row[maxX];
  }

  /** The probe never jumps: each cell the walk visits is one step from the one before. */
  lemma {:induction false} SerpentineWalk(maxX: nat, rows: nat)
    ensures Walk(Serpentine(maxX, rows))
  {
    if rows == 1 {
      SerpentineWalkOne(maxX);
    } else if rows > 1 {
      SerpentineWalk(maxX, rows - 1);
      SerpentineWalkStep(maxX, rows);
    }
  }

  lemma SerpentineWalkOne(maxX: nat)
    ensures Walk(Serpentine(maxX, 1))
  {
    RowWalk(0, maxX, maxX + 1);
    EmptyAppend(Row(0, maxX, maxX + 1));
  }

  /** A new row starts above where the rows before it end. */
  lemma SerpentineWalkStep(maxX: nat, rows: nat)
    requires rows > 1 && Walk(Serpentine(maxX, rows - 1))
    ensures Walk(Serpentine(maxX, rows))
  {
    var gx := if (rows - 1) % 2 == 1 then maxX else 0;
    RowJoinable(maxX, rows);
    WalkJoin(Serpentine(maxX, rows - 1), Row(rows - 1, maxX, maxX + 1), gx, rows - 2);
  }

  /** The walk so far ends directly below where row `rows - 1` starts, and that row is a walk. */
  lemma RowJoinable(maxX: nat, rows: nat)
    requires rows > 1
    ensures var front, row, gx := Serpentine(maxX, rows - 1), Row(rows - 1, maxX, maxX + 1), if (rows - 1) % 2 == 1 then maxX else 0;
      && Walk(row) && front != [] && row != []
      && front[|front| - 1] == Cell(gx, rows - 2) && row[0] == Cell(gx, rows - 1)
  {
    RowWalk(rows - 1, maxX, maxX + 1);
    SerpentineEnds(maxX, rows - 1);
    RowFirst(rows - 1, maxX, maxX + 1);
  }

  lemma EmptyAppend<T>(s: seq<T>)
    ensures [] + s == s
  {
  }

  // ---------------------------------------------------------------------
  // The output items

  /** One probe: the cell, the point measured, and the parameter the result is stored into. */
  datatype Probe = Probe(cell: Cell, px: real, py: real, id: int)

  /** What the pass writes: a command line, the header, the probing block, or the resume block. */
  datatype Out =
    | Echo(cmd: Command)
    | Header(cal: Calibration)
    | Block(probes: seq<Probe>)
    | Resume

  /** The cells of `cells` that have a variable, each as a probe at its centre. */
  function ProbesOf(i: Info, t: Table, cells: seq<Cell>): seq<Probe>
  {
    if cells == [] then []
    else
      var c := cells[|cells| - 1];
      var front := ProbesOf(i, t, cells[..|cells| - 1]);
      if HasVariable(t, c.gx, c.gy) then
        front + [Probe(c, Centre(i.millMinX, i.gx, c.gx), Centre(i.millMinY, i.gy, c.gy), Variable(t, c.gx, c.gy))]
      else front
  }

  /** The probing block: the walk over every row `0..gridMaxY`, skipping cells no formula reads. */
  function ProbeBlock(i: Info, t: Table): seq<Probe>
  {
    ProbesOf(i, t, Serpentine(i.gridMaxX, i.gridMaxY + 1))
  }

  predicate IsUnitCommand(c: Command)
  {
    c.name == "G21" || c.name == "G20"
  }

  /** What one command of the list expands to. */
  function ItemsOf(i: Info, t: Table, c: Command): seq<Out>
  {
    if IsUnitCommand(c) then [Echo(c), Header(Settings(i)), Block(ProbeBlock(i, t)), Resume] else [Echo(c)]
  }

  /** The whole output, item by item. */
  function Items(i: Info, t: Table, cs: seq<Command>): seq<Out>
  {
    if cs == [] then [] else Items(i, t, cs[..|cs| - 1]) + ItemsOf(i, t, cs[|cs| - 1])
  }

  /** The cells of the allocated ones in `cells`, in order. */
  function Allocated(t: Table, cells: seq<Cell>): seq<Cell>
  {
    if cells == [] then []
    else
      var c := cells[|cells| - 1];
      Allocated(t, cells[..|cells| - 1]) + (if HasVariable(t, c.gx, c.gy) then [c] else [])
  }

  /** The cells `probes` measure, in order. */
  function ProbedCells(probes: seq<Probe>): seq<Cell>
  {
    if probes == [] then [] else ProbedCells(probes[..|probes| - 1]) + [probes[|probes| - 1].cell]
  }

  /** The commands `items` echo, in order. */
  function Echoed(items: seq<Out>): seq<Command>
  {
    if items == [] then []
    else
      var o := items[|items| - 1];
      Echoed(items[..|items| - 1]) + (if o.Echo? then [o.cmd] else [])
  }

  lemma EchoedNext(xs: seq<Out>, o: Out)
    ensures Echoed(xs + [o]) == Echoed(xs) + (if o.Echo? then [o.cmd] else [])
  {
    assert (xs + [o])[..|xs|] == xs;
  }

  lemma {:induction false} EchoedAppend(a: seq<Out>, b: seq<Out>)
    ensures Echoed(a + b) == Echoed(a) + Echoed(b)
    decreases |b|
  {
    if b == [] {
      assert a + b == a;
    } else {
      var b' := b[..|b| - 1];
      assert (a + b)[..|a + b| - 1] == a + b';
      EchoedAppend(a, b');
      SeqAssoc(Echoed(a), Echoed(b'), if b[|b| - 1].Echo? then [b[|b| - 1].cmd] else []);
    }
  }

  /**
   * A probe block holds one probe per allocated cell of the walk, in the
   * walk's order, each at the cell's centre and storing into the cell's own
   * parameter.
   */
  lemma {:induction false} ProbesOfShape(i: Info, t: Table, cells: seq<Cell>)
    ensures ProbedCells(ProbesOf(i, t, cells)) == Allocated(t, cells)
    ensures forall o :: o in ProbesOf(i, t, cells) ==>
      && o.cell in cells && HasVariable(t, o.cell.gx, o.cell.gy)
      && o.px == Centre(i.millMinX, i.gx, o.cell.gx) && o.py == Centre(i.millMinY, i.gy, o.cell.gy)
      && o.id == Variable(t, o.cell.gx, o.cell.gy)
  {
    if cells != [] {
      var front := cells[..|cells| - 1];
      var c := cells[|cells| - 1];
      ProbesOfShape(i, t, front);
      var p := ProbesOf(i, t, front);
      if HasVariable(t, c.gx, c.gy) {
        assert (p + [Probe(c, Centre(i.millMinX, i.gx, c.gx), Centre(i.millMinY, i.gy, c.gy), Variable(t, c.gx, c.gy))])[..|p|] == p;
      }
    }
  }

  /** A cell is kept by `Allocated` exactly when it is in the walk and has a variable, and order and uniqueness carry over. */
  lemma {:induction false} AllocatedCells(t: Table, cells: seq<Cell>)
    ensures forall c :: c in Allocated(t, cells) <==> c in cells && HasVariable(t, c.gx, c.gy)
    ensures Distinct(cells) ==> Distinct(Allocated(t, cells))
  {
    if cells != [] {
      var front := cells[..|cells| - 1];
      var c := cells[|cells| - 1];
      AllocatedCells(t, front);
      assert cells == front + [c];
      if Distinct(cells) {
        assert Distinct(front) by {
          forall j, k | 0 <= j < k < |front|
            ensures front[j] != front[k]
          {
            assert front[j] == cells[j] && front[k] == cells[k];
          }
        }
        assert c !in front by {
          forall j | 0 <= j < |front|
            ensures front[j] != c
          {
            assert front[j] == cells[j];
          }
        }
      }
    }
  }

  /**
   * The probing block measures every allocated cell of the grid exactly
   * once, and no other cell.
   */
  lemma ProbeBlockCovers(i: Info, t: Table)
    ensures var cells := ProbedCells(ProbeBlock(i, t));
      && Distinct(cells)
      && forall c :: c in cells <==> c.gx <= i.gridMaxX && c.gy <= i.gridMaxY && HasVariable(t, c.gx, c.gy)
  {
    var walk := Serpentine(i.gridMaxX, i.gridMaxY + 1);
    SerpentineCovers(i.gridMaxX, i.gridMaxY + 1);
    ProbesOfShape(i, t, walk);
    AllocatedCells(t, walk);
  }

  lemma ItemsOfEcho(i: Info, t: Table, c: Command)
    ensures Echoed(ItemsOf(i, t, c)) == [c]
  {
    EchoedNext([], Echo(c));
    assert [] + [Echo(c)] == [Echo(c)];
    if IsUnitCommand(c) {
      EchoedFour(c, Header(Settings(i)), Block(ProbeBlock(i, t)));
    }
  }

  /** The header block around a unit command echoes nothing but the command. */
  lemma EchoedFour(c: Command, h: Out, b: Out)
    requires !h.Echo? && !b.Echo?
    ensures Echoed([Echo(c), h, b, Resume]) == [c]
  {
    EchoedNext([], Echo(c));
    EchoedNext([Echo(c)], h);
    EchoedNext([Echo(c), h], b);
    EchoedNext([Echo(c), h, b], Resume);
    assert [] + [Echo(c)] == [Echo(c)];
    assert [Echo(c)] + [h] == [Echo(c), h];
    assert [Echo(c), h] + [b] == [Echo(c), h, b];
    assert [Echo(c), h, b] + [Resume] == [Echo(c), h, b, Resume];
  }

  /** Every command comes out exactly once, in its original order, and nothing else is echoed. */
  lemma {:induction false} ItemsEcho(i: Info, t: Table, cs: seq<Command>)
    ensures Echoed(Items(i, t, cs)) == cs
  {
    if cs != [] {
      var front := cs[..|cs| - 1];
      var c := cs[|cs| - 1];
      ItemsEcho(i, t, front);
      ItemsOfEcho(i, t, c);
      EchoedAppend(Items(i, t, front), ItemsOf(i, t, c));
      FrontLast(cs);
    }
  }

  /** The output begins with the header block exactly at the unit commands. */
  lemma ItemsOfUnit(i: Info, t: Table, c: Command)
    ensures IsUnitCommand(c) <==> |ItemsOf(i, t, c)| > 1
    ensures ItemsOf(i, t, c)[0] == Echo(c)
    ensures IsUnitCommand(c) ==>
      ItemsOf(i, t, c)[1] == Header(Settings(i)) && ItemsOf(i, t, c)[|ItemsOf(i, t, c)| - 1] == Resume
  {
  }

  // ---------------------------------------------------------------------
  // The text

  const Tab3 := "\t\t\t"
  const Tab2 := "\t\t"

  /**
   * The header, with `num` standing for the default stream formatting of a
   * number.
   */
  function HeaderText(c: Calibration, num: real -> string): string
  {
    Concat([
      "\n(Processed with pcb-probe by Ivan de Jesus Deras 2013 [Lee Essen, 2011] )\n\n",
      "#1=", num(c.clearHeight), Tab3, "(clearance height)\n",
      "#2=", num(c.traverseHeight), Tab3, "(traverse height)\n",
      "#3=", num(c.routeDepth), Tab2, "(route depth)\n",
      "#4=", num(c.probeDepth), Tab3, "(probe depth)\n",
      "#5=", num(c.traverseSpeed), Tab3, "(traverse speed)\n",
      "#6=", num(c.probeSpeed), Tab3, "(probe speed)\n",
      if c.drillDepth.Some? then "#7=" + num(c.drillDepth.value) + Tab2 + "(drill spot depth)\n" else "",
      "\n\n",
      "M05", Tab3, "(stop motor)\n",
      "(MSG,PROBE: Position to within 5mm [~0.2 inches] of surface & resume)\n",
      "M60", Tab3, "(pause, wait for resume)\n",
      "G49", Tab3, "(clear any tool offsets)\n",
      "G92.1", Tab3, "(zero co-ordinate offsets)\n",
      "G91", Tab3, "(use relative coordinates)\n",
      "G38.2 Z", num(c.initialProbe), " F[#6]\t(probe to find worksurface)\n",
      "G90", Tab3, "(back to absolute)\n",
      "G92 Z0", Tab3, "(zero Z)\n",
      "G00 Z[#1]", Tab2, "(safe height)\n",
      "(MSG,PROBE: Z-Axis calibrate complete, beginning probe)\n\n",
      "(probe routine)\n",
      "(params: x y traverse_height probe_depth traverse_speed probe_speed)\n",
      "O100 sub\n",
      "G00 X[#1] Y[#2] Z[#3] F[#5]\n",
      "G38.2 Z[#4] F[#6]\n",
      "G00 Z[#3]\n",
      "O100 endsub\n\n"
    ])
  }

  /** The three lines of one probe: a comment, the probe call, and storing the result into the cell's parameter. */
  function ProbeText(c: Cell, px: real, py: real, id: int, num: real -> string): string
  {
    Concat([
      "(PROBE[", IntToString(c.gx), ",", IntToString(c.gy), "] ", num(px), " ", num(py), " -> ", IntToString(id), ")\n",
      "O100 call [", num(px), "] [", num(py), "] [#2] [#4] [#5] [#6]\n",
      "#", IntToString(id), " = #5063\n"
    ])
  }

  const ResumeText := "\n\nG00 Z[#1]" + Tab2 + "(safe height)\n"
    + "(MSG,PROBE: Probe complete, remove connections & resume)\n"
    + "M60" + Tab3 + "(pause, wait for resume)\n"
    + "(MSG,PROBE: Beginning etch)\n\n\n"

  /** The texts `f` gives the elements of `xs`, one after the other. */
  function Join<T>(xs: seq<T>, f: T -> string): string
  {
    if xs == [] then "" else Join(xs[..|xs| - 1], f) + f(xs[|xs| - 1])
  }

  /** The pieces of a text, one after the other. */
  function Concat(pieces: seq<string>): string
  {
    Join(pieces, (s: string) => s)
  }

  lemma JoinNext<T>(xs: seq<T>, x: T, f: T -> string)
    ensures Join(xs + [x], f) == Join(xs, f) + f(x)
  {
    assert (xs + [x])[..|xs|] == xs;
  }

  lemma {:induction false} JoinAppend<T>(a: seq<T>, b: seq<T>, f: T -> string)
    ensures Join(a + b, f) == Join(a, f) + Join(b, f)
    decreases |b|
  {
    if b == [] {
      assert a + b == a;
    } else {
      var b' := b[..|b| - 1];
      assert (a + b)[..|a + b| - 1] == a + b';
      JoinAppend(a, b', f);
      SeqAssoc(Join(a, f), Join(b', f), f(b[|b| - 1]));
    }
  }

  lemma JoinFour<T>(w: T, x: T, y: T, z: T, f: T -> string)
    ensures Join([w, x, y, z], f) == f(w) + f(x) + f(y) + f(z)
  {
    JoinNext([], w, f);
    JoinNext([w], x, f);
    JoinNext([w, x], y, f);
    JoinNext([w, x, y], z, f);
    assert [] + [w] == [w];
    assert [w] + [x] == [w, x];
    assert [w, x] + [y] == [w, x, y];
    assert [w, x, y] + [z] == [w, x, y, z];
  }

  /** How one probe prints. */
  function ProbeLines(num: real -> string): Probe -> string
  {
    (o: Probe) => ProbeText(o.cell, o.px, o.py, o.id, num)
  }

  /** The text of one item; `commandFmt` is the command's own four-decimal formatting. */
  function OutText(o: Out, commandFmt: real -> string, num: real -> string): string
  {
    match o
    case Echo(c) => Render(c, commandFmt) + "\n"
    case Header(cal) => HeaderText(cal, num)
    case Block(probes) => Join(probes, ProbeLines(num))
    case Resume => ResumeText
  }

  function OutLines(commandFmt: real -> string, num: real -> string): Out -> string
  {
    (o: Out) => OutText(o, commandFmt, num)
  }

  /** The output file the pass writes. */
  function Output(i: Info, t: Table, cs: seq<Command>, commandFmt: real -> string, num: real -> string): string
  {
    Join(Items(i, t, cs), OutLines(commandFmt, num))
  }

  /** The text one command of the list expands to. */
  lemma ItemsOfText(i: Info, t: Table, c: Command, commandFmt: real -> string, num: real -> string)
    ensures Join(ItemsOf(i, t, c), OutLines(commandFmt, num))
      == if IsUnitCommand(c)
         then Render(c, commandFmt) + "\n" + HeaderText(Settings(i), num) + Join(ProbeBlock(i, t), ProbeLines(num)) + ResumeText
         else Render(c, commandFmt) + "\n"
  {
    var f := OutLines(commandFmt, num);
    if IsUnitCommand(c) {
      ItemsOfUnitText(i, t, c, commandFmt, num);
    } else {
      JoinNext([], Echo(c), f);
      assert [] + [Echo(c)] == [Echo(c)];
    }
  }

  lemma ItemsOfUnitText(i: Info, t: Table, c: Command, commandFmt: real -> string, num: real -> string)
    requires IsUnitCommand(c)
    ensures Join(ItemsOf(i, t, c), OutLines(commandFmt, num))
      == Render(c, commandFmt) + "\n" + HeaderText(Settings(i), num) + Join(ProbeBlock(i, t), ProbeLines(num)) + ResumeText
  {
    var f := OutLines(commandFmt, num);
    JoinFour(Echo(c), Header(Settings(i)), Block(ProbeBlock(i, t)), Resume, f);
    UnitItemTexts(c, Settings(i), ProbeBlock(i, t), commandFmt, num);
  }

  /** How each of the four items of a unit command prints. */
  lemma UnitItemTexts(c: Command, cal: Calibration, probes: seq<Probe>, commandFmt: real -> string, num: real -> string)
    ensures var f := OutLines(commandFmt, num);
      && f(Echo(c)) == Render(c, commandFmt) + "\n" && f(Header(cal)) == HeaderText(cal, num)
      && f(Block(probes)) == Join(probes, ProbeLines(num)) && f(Resume) == ResumeText
  {
    HeaderItemText(cal, commandFmt, num);
  }

  /** The header item prints as the header text. */
  lemma HeaderItemText(cal: Calibration, commandFmt: real -> string, num: real -> string)
    ensures OutLines(commandFmt, num)(Header(cal)) == HeaderText(cal, num)
  {
  }

  /** The probes of one more cell of the walk. */
  lemma ProbesNext(i: Info, t: Table, cells: seq<Cell>, c: Cell)
    ensures ProbesOf(i, t, cells + [c]) == ProbesOf(i, t, cells)
      + (if HasVariable(t, c.gx, c.gy)
         then [Probe(c, Centre(i.millMinX, i.gx, c.gx), Centre(i.millMinY, i.gy, c.gy), Variable(t, c.gx, c.gy))]
         else [])
  {
    assert (cells + [c])[..|cells|] == cells;
  }

  /** The output of a list one command longer. */
  lemma OutputNext(i: Info, t: Table, cs: seq<Command>, c: Command, commandFmt: real -> string, num: real -> string)
    ensures Output(i, t, cs + [c], commandFmt, num) == Output(i, t, cs, commandFmt, num) + Join(ItemsOf(i, t, c), OutLines(commandFmt, num))
  {
    assert (cs + [c])[..|cs|] == cs;
    JoinAppend(Items(i, t, cs), ItemsOf(i, t, c), OutLines(commandFmt, num));
  }

  /** The output after `k + 1` commands is the output after `k` and then what command `k` writes. */
  lemma OutputStep(i: Info, t: Table, cs: seq<Command>, k: nat, commandFmt: real -> string, num: real -> string,
                   out: string, text: string)
    requires k < |cs| && out == Output(i, t, cs[..k], commandFmt, num)
    requires text == Join(ItemsOf(i, t, cs[k]), OutLines(commandFmt, num))
    ensures out + text == Output(i, t, cs[..k + 1], commandFmt, num)
  {
    TakeNext(cs, k);
    OutputNext(i, t, cs[..k], cs[k], commandFmt, num);
  }

  /** The first `k + 1` elements are the first `k` and then element `k`. */
  lemma TakeNext<T>(s: seq<T>, k: nat)
    requires k < |s|
    ensures s[..k + 1] == s[..k] + [s[k]]
  {
  }

  /** The lines the inner probing loop writes for one cell. */
  function CellText(i: Info, t: Table, c: Cell, num: real -> string): string
  {
    if HasVariable(t, c.gx, c.gy)
    then ProbeText(c, Centre(i.millMinX, i.gx, c.gx), Centre(i.millMinY, i.gy, c.gy), Variable(t, c.gx, c.gy), num)
    else ""
  }

  function CellLines(i: Info, t: Table, num: real -> string): Cell -> string
  {
    (c: Cell) => CellText(i, t, c, num)
  }

  /** The body of the inner probing loop writes `CellText`: the probe at the cell's centre, or nothing. */
  lemma CellTextIs(i: Info, t: Table, c: Cell, px: real, py: real, num: real -> string, line: string)
    requires px == Centre(i.millMinX, i.gx, c.gx) && py == Centre(i.millMinY, i.gy, c.gy)
    requires line == if HasVariable(t, c.gx, c.gy) then ProbeText(c, px, py, Variable(t, c.gx, c.gy), num) else ""
    ensures line == CellText(i, t, c, num)
  {
  }

  /** One more step of the inner probing loop over row `gy`: the text so far, then the next cell's lines. */
  lemma RowTextNext(i: Info, t: Table, gy: nat, rgx: nat, num: real -> string, text: string, line: string)
    requires rgx <= i.gridMaxX
    requires text == Join(Row(gy, i.gridMaxX, rgx), CellLines(i, t, num))
    requires line == CellText(i, t, RowCell(gy, rgx, i.gridMaxX), num)
    ensures text + line == Join(Row(gy, i.gridMaxX, rgx + 1), CellLines(i, t, num))
  {
    var c := RowCell(gy, rgx, i.gridMaxX);
    assert Row(gy, i.gridMaxX, rgx + 1) == Row(gy, i.gridMaxX, rgx) + [c];
    JoinNext(Row(gy, i.gridMaxX, rgx), c, CellLines(i, t, num));
  }

  /** One more step of the outer probing loop: the rows so far, then row `gy`. */
  lemma SerpentineTextNext(i: Info, t: Table, gy: nat, num: real -> string, text: string, row: string)
    requires text == Join(Serpentine(i.gridMaxX, gy), CellLines(i, t, num))
    requires row == Join(Row(gy, i.gridMaxX, i.gridMaxX + 1), CellLines(i, t, num))
    ensures text + row == Join(Serpentine(i.gridMaxX, gy + 1), CellLines(i, t, num))
  {
    JoinAppend(Serpentine(i.gridMaxX, gy), Row(gy, i.gridMaxX, i.gridMaxX + 1), CellLines(i, t, num));
  }

  /**
   * Printing the probes of a walk is printing each cell of the walk in turn,
   * as the probing loops do: a cell without a variable prints nothing.
   */
  lemma {:induction false} ProbesOfText(i: Info, t: Table, cells: seq<Cell>, num: real -> string)
    ensures Join(ProbesOf(i, t, cells), ProbeLines(num)) == Join(cells, CellLines(i, t, num))
  {
    if cells != [] {
      var front := cells[..|cells| - 1];
      var c := cells[|cells| - 1];
      var g := ProbeLines(num);
      ProbesOfText(i, t, front, num);
      assert cells == front + [c];
      ProbesNext(i, t, front, c);
      JoinNext(front, c, CellLines(i, t, num));
      if HasVariable(t, c.gx, c.gy) {
        var o := Probe(c, Centre(i.millMinX, i.gx, c.gx), Centre(i.millMinY, i.gy, c.gy), Variable(t, c.gx, c.gy));
        JoinNext(ProbesOf(i, t, front), o, g);
      } else {
        assert ProbesOf(i, t, front) + [] == ProbesOf(i, t, front);
      }
    }
  }
}
