/**
 * Tool positions and the segment splitter of pass 1 (src/pcb-probe.cpp:22-71).
 * A move that starts below the surface and is longer than the split distance
 * on either axis is halved, recursively, into pieces that each stay within
 * that distance.
 */
module Geometry {
  import opened Wrappers
  import opened Commands

  /** include/pcb-probe.h's `Position`. */
  datatype Position = Position(x: real, y: real, z: real)

  /** What `ResetPos` leaves behind. */
  const Origin := Position(0.0, 0.0, 0.0)

  /** `moveTo`: every axis the command names takes the command's value. */
  function MovedTo(p: Position, c: Command): (q: Position)
    ensures !c.Has('X') ==> q.x == p.x
    ensures !c.Has('Y') ==> q.y == p.y
    ensures !c.Has('Z') ==> q.z == p.z
  {
    Position(if c.Has('X') then c.arguments['X'] else p.x,
             if c.Has('Y') then c.arguments['Y'] else p.y,
             if c.Has('Z') then c.arguments['Z'] else p.z)
  }

  /** Moving to the same command twice is moving once. */
  lemma MoveIdempotent(p: Position, c: Command)
    ensures MovedTo(MovedTo(p, c), c) == MovedTo(p, c)
  {
  }

  /** A command naming all three axes forgets where the tool was. */
  lemma MoveForgetsStart(p: Position, p': Position, c: Command)
    requires c.Has('X') && c.Has('Y') && c.Has('Z')
    ensures MovedTo(p, c) == MovedTo(p', c)
  {
  }

  function Abs(r: real): (a: real)
    ensures a >= 0.0 && (a == r || a == -r)
  {
    if r < 0.0 then -r else r
  }

  /** The larger of the two axis distances of a displacement. */
  function Reach(dx: real, dy: real): (m: real)
    ensures Abs(dx) <= m && Abs(dy) <= m && (m == Abs(dx) || m == Abs(dy))
  {
    if Abs(dx) < Abs(dy) then Abs(dy) else Abs(dx)
  }

  /** `distance_split`'s test: the move is longer than `s` on some axis. */
  predicate TooLong(dx: real, dy: real, s: real)
  {
    Abs(dx) > s || Abs(dy) > s
  }

  lemma ReachHalf(dx: real, dy: real)
    ensures Reach(dx / 2.0, dy / 2.0) == Reach(dx, dy) / 2.0
  {
    assert Abs(dx / 2.0) == Abs(dx) / 2.0;
    assert Abs(dy / 2.0) == Abs(dy) / 2.0;
  }

  lemma FloorHalf(r: real)
    requires r > 1.0
    ensures 0 <= (r / 2.0).Floor < r.Floor
  {
  }

  lemma RatioAboveOne(m: real, s: real)
    requires m > s > 0.0
    ensures m / s > 1.0
  {
    assert m / s * s == m;
  }

  lemma HalfRatio(m: real, s: real)
    requires s > 0.0
    ensures (m / 2.0) / s == (m / s) / 2.0
  {
  }

  /** Halving a move that is too long lowers the measure that bounds the recursion. */
  lemma HalvingShrinks(dx: real, dy: real, s: real)
    requires s > 0.0 && TooLong(dx, dy, s)
    ensures 0 <= (Reach(dx / 2.0, dy / 2.0) / s).Floor < (Reach(dx, dy) / s).Floor
  {
    ReachHalf(dx, dy);
    HalfRatio(Reach(dx, dy), s);
    RatioAboveOne(Reach(dx, dy), s);
    FloorHalf(Reach(dx, dy) / s);
  }

  /** How many times `distance_split` halves a displacement before both axes are within `s`. */
  function Depth(dx: real, dy: real, s: real): nat
    requires s > 0.0
    decreases (Reach(dx, dy) / s).Floor
  {
    if TooLong(dx, dy, s) then
      HalvingShrinks(dx, dy, s);
      1 + Depth(dx / 2.0, dy / 2.0, s)
    else 0
  }

  function Pow2(k: nat): (p: nat)
    ensures p >= 1
  {
    if k == 0 then 1 else 2 * Pow2(k - 1)
  }

  /** The midpoint coordinate `from + dist / 2`. */
  function Mid(f: real, t: real): real
  {
    f + (t - f) / 2.0
  }

  /** Halving a move that is too long takes one off its depth, for both halves. */
  lemma HalvesDepth(fx: real, fy: real, tx: real, ty: real, s: real)
    requires s > 0.0 && TooLong(tx - fx, ty - fy, s)
    ensures var d := Depth(tx - fx, ty - fy, s);
      && d >= 1
      && Depth(Mid(fx, tx) - fx, Mid(fy, ty) - fy, s) == d - 1
      && Depth(tx - Mid(fx, tx), ty - Mid(fy, ty), s) == d - 1
  {
    var dx := tx - fx;
    var dy := ty - fy;
    assert Mid(fx, tx) - fx == dx / 2.0 && tx - Mid(fx, tx) == dx / 2.0;
    assert Mid(fy, ty) - fy == dy / 2.0 && ty - Mid(fy, ty) == dy / 2.0;
    assert Depth(dx, dy, s) == 1 + Depth(dx / 2.0, dy / 2.0, s);
  }

  /** The feed rate a command carries, if any. */
  function FeedOf(c: Command): (f: Option<real>)
    ensures f.Some? <==> c.Has('F')
    ensures f.Some? ==> f.value == c.arguments['F']
  {
    if c.Has('F') then Some(c.arguments['F']) else None
  }

  /**
   * A command the splitter builds: `GCodeCommand(name, x, y)`, then
   * `setFeedRate` when there is a feed rate to copy.
   */
  function PieceCommand(name: string, x: real, y: real, f: Option<real>): (c: Command)
    ensures c.name == name && c.zformula == "" && c.argNameList == "XY"
    ensures c.Has('X') && c.Has('Y') && c.arguments['X'] == x && c.arguments['Y'] == y
    ensures c.ValueOf('X') == x && c.ValueOf('Y') == y
    ensures FeedOf(c) == f
    ensures forall l :: l in c.arguments ==> l in "XYF"
  {
    var xy := XYCommand(name, x, y);
    if f.Some? then xy.WithValue('F', f.value) else xy
  }

  /** `cmd1`: a move to the midpoint, with the feed rate of the move when it has one. */
  function FirstHalf(fx: real, fy: real, c: Command): Command
    requires c.Has('X') && c.Has('Y')
  {
    PieceCommand(c.name, Mid(fx, c.arguments['X']), Mid(fy, c.arguments['Y']), FeedOf(c))
  }

  /** `cmd2`: a move to the target, without a feed rate. */
  function SecondHalf(c: Command): Command
    requires c.Has('X') && c.Has('Y')
  {
    PieceCommand(c.name, c.arguments['X'], c.arguments['Y'], None)
  }

  /**
   * `distance_split` from (fx, fy) applied to `PieceCommand(name, tx, ty, f)`:
   * a short piece is appended as it is, a long one becomes its two halves,
   * each split again.
   */
  function Pieces(fx: real, fy: real, tx: real, ty: real, s: real, name: string, f: Option<real>): (leaves: seq<Command>)
    requires s > 0.0
    ensures |leaves| >= 1
    decreases Depth(tx - fx, ty - fy, s)
  {
    if TooLong(tx - fx, ty - fy, s) then
      HalvesDepth(fx, fy, tx, ty, s);
      Pieces(fx, fy, Mid(fx, tx), Mid(fy, ty), s, name, f)
        + Pieces(Mid(fx, tx), Mid(fy, ty), tx, ty, s, name, None)
    else [PieceCommand(name, tx, ty, f)]
  }

  /**
   * `distance_split` from (fx, fy): the commands it appends. A move that is
   * short enough is appended unchanged; otherwise it becomes a move to the
   * midpoint and a move from the midpoint to the target, each split again.
   */
  function SplitLeaves(fx: real, fy: real, c: Command, s: real): (leaves: seq<Command>)
    requires c.Has('X') && c.Has('Y') && s > 0.0
    ensures |leaves| >= 1
    ensures !TooLong(c.arguments['X'] - fx, c.arguments['Y'] - fy, s) ==> leaves == [c]
  {
    var tx := c.arguments['X'];
    var ty := c.arguments['Y'];
    if TooLong(tx - fx, ty - fy, s) then
      Pieces(fx, fy, Mid(fx, tx), Mid(fy, ty), s, c.name, FeedOf(c))
        + Pieces(Mid(fx, tx), Mid(fy, ty), tx, ty, s, c.name, None)
    else [c]
  }

  /** Splitting a piece the splitter built is what `Pieces` does with it. */
  lemma SplitOfPiece(fx: real, fy: real, tx: real, ty: real, s: real, name: string, f: Option<real>)
    requires s > 0.0
    ensures SplitLeaves(fx, fy, PieceCommand(name, tx, ty, f), s) == Pieces(fx, fy, tx, ty, s, name, f)
  {
  }

  /**
   * The recursion of `distance_split`: a long move appends the split of its
   * first half from the start, then the split of its second half from the midpoint.
   */
  lemma SplitUnfolds(fx: real, fy: real, c: Command, s: real)
    requires c.Has('X') && c.Has('Y') && s > 0.0
    requires TooLong(c.arguments['X'] - fx, c.arguments['Y'] - fy, s)
    ensures SplitLeaves(fx, fy, c, s)
      == SplitLeaves(fx, fy, FirstHalf(fx, fy, c), s)
       + SplitLeaves(Mid(fx, c.arguments['X']), Mid(fy, c.arguments['Y']), SecondHalf(c), s)
  {
    var tx := c.arguments['X'];
    var ty := c.arguments['Y'];
    SplitOfPiece(fx, fy, Mid(fx, tx), Mid(fy, ty), s, c.name, FeedOf(c));
    SplitOfPiece(Mid(fx, tx), Mid(fy, ty), tx, ty, s, c.name, None);
  }

  /** How deep `distance_split` recurses on the move `c` from (fx, fy). */
  function SplitDepth(fx: real, fy: real, c: Command, s: real): nat
    requires c.Has('X') && c.Has('Y') && s > 0.0
  {
    Depth(c.arguments['X'] - fx, c.arguments['Y'] - fy, s)
  }

  /** Each half of a move that is too long is one halving shallower than the move. */
  lemma HalvesShallower(fx: real, fy: real, c: Command, s: real)
    requires c.Has('X') && c.Has('Y') && s > 0.0
    requires TooLong(c.arguments['X'] - fx, c.arguments['Y'] - fy, s)
    ensures SplitDepth(fx, fy, FirstHalf(fx, fy, c), s) < SplitDepth(fx, fy, c, s)
    ensures SplitDepth(Mid(fx, c.arguments['X']), Mid(fy, c.arguments['Y']), SecondHalf(c), s) < SplitDepth(fx, fy, c, s)
  {
    var tx, ty := c.arguments['X'], c.arguments['Y'];
    HalvesDepth(fx, fy, tx, ty, s);
    var h1, h2 := FirstHalf(fx, fy, c), SecondHalf(c);
    assert h1.arguments['X'] == Mid(fx, tx) && h1.arguments['Y'] == Mid(fy, ty);
    assert h2.arguments['X'] == tx && h2.arguments['Y'] == ty;
  }

  /** `split_if_needed`: only a move that starts below the surface and names X and Y is split. */
  function SplitIfNeeded(p: Position, c: Command, s: real): (out: seq<Command>)
    requires s > 0.0
    ensures p.z >= 0.0 || !c.Has('X') || !c.Has('Y') ==> out == [c]
  {
    if p.z >= 0.0 || !c.Has('X') || !c.Has('Y') then [c] else SplitLeaves(p.x, p.y, c, s)
  }

  /** A leaf names X and Y and lies within `s` of (sx, sy) on each axis. */
  predicate StepWithin(l: Command, sx: real, sy: real, s: real)
  {
    l.Has('X') && l.Has('Y') && Abs(l.ValueOf('X') - sx) <= s && Abs(l.ValueOf('Y') - sy) <= s
  }

  /**
   * The leaves form a path from (fx, fy) whose every step stays within `s` on
   * each axis: the first leaf is within `s` of the start, and the others form
   * such a path from where the first one ends.
   */
  predicate Path(fx: real, fy: real, leaves: seq<Command>, s: real)
    decreases |leaves|
  {
    leaves == [] ||
    (StepWithin(leaves[0], fx, fy, s) && Path(leaves[0].ValueOf('X'), leaves[0].ValueOf('Y'), leaves[1..], s))
  }

  /** Two paths, the second starting where the first ends, make one path. */
  lemma {:induction false} PathAppend(fx: real, fy: real, a: seq<Command>, b: seq<Command>, s: real)
    requires a != [] && Path(fx, fy, a, s)
    requires Path(a[|a| - 1].ValueOf('X'), a[|a| - 1].ValueOf('Y'), b, s)
    ensures Path(fx, fy, a + b, s)
    decreases |a|
  {
    assert (a + b)[0] == a[0];
    assert (a + b)[1..] == a[1..] + b;
    if |a| > 1 {
      assert a[1..][|a| - 2] == a[|a| - 1];
      PathAppend(a[0].ValueOf('X'), a[0].ValueOf('Y'), a[1..], b, s);
    } else {
      assert a[1..] == [];
      assert a[1..] + b == b;
    }
  }

  lemma LastOfAppend<T>(a: seq<T>, b: seq<T>)
    requires b != []
    ensures (a + b)[|a + b| - 1] == b[|b| - 1]
  {
  }

  /** The pieces of a split: `Pow2(Depth)` of them. */
  lemma {:induction false} PiecesCount(fx: real, fy: real, tx: real, ty: real, s: real, name: string, f: Option<real>)
    requires s > 0.0
    ensures |Pieces(fx, fy, tx, ty, s, name, f)| == Pow2(Depth(tx - fx, ty - fy, s))
    decreases Depth(tx - fx, ty - fy, s)
  {
    if TooLong(tx - fx, ty - fy, s) {
      HalvesDepth(fx, fy, tx, ty, s);
      PiecesCount(fx, fy, Mid(fx, tx), Mid(fy, ty), s, name, f);
      PiecesCount(Mid(fx, tx), Mid(fy, ty), tx, ty, s, name, None);
      CountOfAppend(Pieces(fx, fy, Mid(fx, tx), Mid(fy, ty), s, name, f),
                    Pieces(Mid(fx, tx), Mid(fy, ty), tx, ty, s, name, None), Depth(tx - fx, ty - fy, s) - 1);
    }
  }

  /** A path to (mx, my) followed by a path from there to (tx, ty) is a path to (tx, ty). */
  lemma PathJoin(fx: real, fy: real, mx: real, my: real, tx: real, ty: real, a: seq<Command>, b: seq<Command>, s: real)
    requires a != [] && Path(fx, fy, a, s) && a[|a| - 1].ValueOf('X') == mx && a[|a| - 1].ValueOf('Y') == my
    requires b != [] && Path(mx, my, b, s) && b[|b| - 1].ValueOf('X') == tx && b[|b| - 1].ValueOf('Y') == ty
    ensures Path(fx, fy, a + b, s) && (a + b)[|a + b| - 1].ValueOf('X') == tx && (a + b)[|a + b| - 1].ValueOf('Y') == ty
  {
    PathAppend(fx, fy, a, b, s);
    LastOfAppend(a, b);
  }

  /** The pieces form a path of steps within `s` from the start, the last one ending at the target. */
  lemma {:induction false} PiecesPath(fx: real, fy: real, tx: real, ty: real, s: real, name: string, f: Option<real>)
    requires s > 0.0
    ensures var leaves := Pieces(fx, fy, tx, ty, s, name, f);
      && Path(fx, fy, leaves, s)
      && leaves[|leaves| - 1].ValueOf('X') == tx
      && leaves[|leaves| - 1].ValueOf('Y') == ty
    decreases Depth(tx - fx, ty - fy, s)
  {
    if TooLong(tx - fx, ty - fy, s) {
      var mx, my := Mid(fx, tx), Mid(fy, ty);
      PiecesHalves(fx, fy, tx, ty, s, name, f);
      PiecesPath(fx, fy, mx, my, s, name, f);
      PiecesPath(mx, my, tx, ty, s, name, None);
      PathJoin(fx, fy, mx, my, tx, ty, Pieces(fx, fy, mx, my, s, name, f), Pieces(mx, my, tx, ty, s, name, None), s);
    } else {
      var leaves := Pieces(fx, fy, tx, ty, s, name, f);
      assert leaves == [PieceCommand(name, tx, ty, f)];
      assert leaves[1..] == [];
    }
  }

  /** A move that is too long: its pieces are those of its halves, each one halving shallower. */
  lemma PiecesHalves(fx: real, fy: real, tx: real, ty: real, s: real, name: string, f: Option<real>)
    requires s > 0.0 && TooLong(tx - fx, ty - fy, s)
    ensures Pieces(fx, fy, tx, ty, s, name, f)
      == Pieces(fx, fy, Mid(fx, tx), Mid(fy, ty), s, name, f) + Pieces(Mid(fx, tx), Mid(fy, ty), tx, ty, s, name, None)
    ensures Depth(Mid(fx, tx) - fx, Mid(fy, ty) - fy, s) < Depth(tx - fx, ty - fy, s)
    ensures Depth(tx - Mid(fx, tx), ty - Mid(fy, ty), s) < Depth(tx - fx, ty - fy, s)
  {
    HalvesDepth(fx, fy, tx, ty, s);
  }

  /** A command built by the splitter for `name`, carrying the feed rate `f`. */
  predicate Built(l: Command, name: string, f: Option<real>)
  {
    l.Has('X') && l.Has('Y') && l == PieceCommand(name, l.arguments['X'], l.arguments['Y'], f)
  }

  /** The first piece carries the feed rate `f`; every other one carries none. */
  predicate AllBuilt(leaves: seq<Command>, name: string, f: Option<real>)
  {
    && leaves != [] && Built(leaves[0], name, f)
    && forall i :: 0 < i < |leaves| ==> Built(leaves[i], name, None)
  }

  lemma AllBuiltAppend(a: seq<Command>, b: seq<Command>, name: string, f: Option<real>)
    requires AllBuilt(a, name, f) && AllBuilt(b, name, None)
    ensures AllBuilt(a + b, name, f)
  {
    var ab := a + b;
    assert ab[0] == a[0];
    forall i | 0 < i < |ab|
      ensures Built(ab[i], name, None)
    {
      if i < |a| {
        assert ab[i] == a[i];
      } else {
        assert ab[i] == b[i - |a|];
      }
    }
  }

  /** Every piece is a command the splitter built, and only the first may carry a feed rate. */
  lemma {:induction false} PiecesBuilt(fx: real, fy: real, tx: real, ty: real, s: real, name: string, f: Option<real>)
    requires s > 0.0
    ensures AllBuilt(Pieces(fx, fy, tx, ty, s, name, f), name, f)
    decreases Depth(tx - fx, ty - fy, s)
  {
    if TooLong(tx - fx, ty - fy, s) {
      HalvesDepth(fx, fy, tx, ty, s);
      PiecesBuilt(fx, fy, Mid(fx, tx), Mid(fy, ty), s, name, f);
      PiecesBuilt(Mid(fx, tx), Mid(fy, ty), tx, ty, s, name, None);
      AllBuiltAppend(Pieces(fx, fy, Mid(fx, tx), Mid(fy, ty), s, name, f),
                     Pieces(Mid(fx, tx), Mid(fy, ty), tx, ty, s, name, None), name, f);
    }
  }

  /** A move that is too long splits exactly as the splitter's own piece to the same target would. */
  lemma SplitIsPieces(fx: real, fy: real, c: Command, s: real)
    requires c.Has('X') && c.Has('Y') && s > 0.0
    requires TooLong(c.arguments['X'] - fx, c.arguments['Y'] - fy, s)
    ensures SplitLeaves(fx, fy, c, s) == Pieces(fx, fy, c.arguments['X'], c.arguments['Y'], s, c.name, FeedOf(c))
  {
  }

  /** A split makes `Pow2(Depth)` leaves. */
  lemma SplitCount(fx: real, fy: real, c: Command, s: real)
    requires c.Has('X') && c.Has('Y') && s > 0.0
    ensures |SplitLeaves(fx, fy, c, s)| == Pow2(Depth(c.arguments['X'] - fx, c.arguments['Y'] - fy, s))
  {
    if TooLong(c.arguments['X'] - fx, c.arguments['Y'] - fy, s) {
      SplitIsPieces(fx, fy, c, s);
      PiecesCount(fx, fy, c.arguments['X'], c.arguments['Y'], s, c.name, FeedOf(c));
    }
  }

  lemma CountOfAppend<T>(a: seq<T>, b: seq<T>, k: nat)
    requires |a| == Pow2(k) && |b| == Pow2(k)
    ensures |a + b| == Pow2(k + 1)
  {
  }

  /**
   * The leaves of a split form a path of steps within `s` from the start,
   * the last one ending at the target.
   */
  lemma SplitPath(fx: real, fy: real, c: Command, s: real)
    requires c.Has('X') && c.Has('Y') && s > 0.0
    ensures var leaves := SplitLeaves(fx, fy, c, s);
      && Path(fx, fy, leaves, s)
      && leaves[|leaves| - 1].ValueOf('X') == c.arguments['X']
      && leaves[|leaves| - 1].ValueOf('Y') == c.arguments['Y']
  {
    if TooLong(c.arguments['X'] - fx, c.arguments['Y'] - fy, s) {
      SplitIsPieces(fx, fy, c, s);
      PiecesPath(fx, fy, c.arguments['X'], c.arguments['Y'], s, c.name, FeedOf(c));
    } else {
      assert SplitLeaves(fx, fy, c, s)[1..] == [];
    }
  }

  /** The sum of the displacements of the leaves along `axis`, starting from `from`. */
  function SumD(axis: char, from: real, leaves: seq<Command>): real
    decreases |leaves|
  {
    if leaves == [] then 0.0
    else (leaves[0].ValueOf(axis) - from) + SumD(axis, leaves[0].ValueOf(axis), leaves[1..])
  }

  /** The displacements add up to the distance from the start to where the last leaf ends. */
  lemma {:induction false} SumTelescopes(axis: char, from: real, leaves: seq<Command>)
    requires leaves != []
    ensures SumD(axis, from, leaves) == leaves[|leaves| - 1].ValueOf(axis) - from
    decreases |leaves|
  {
    if |leaves| > 1 {
      SumTelescopes(axis, leaves[0].ValueOf(axis), leaves[1..]);
      assert leaves[1..][|leaves| - 2] == leaves[|leaves| - 1];
    }
  }

  /** So the displacements of a split add up exactly to the displacement of the move, on X and on Y. */
  lemma SplitDisplacementSum(fx: real, fy: real, c: Command, s: real)
    requires c.Has('X') && c.Has('Y') && s > 0.0
    ensures SumD('X', fx, SplitLeaves(fx, fy, c, s)) == c.arguments['X'] - fx
    ensures SumD('Y', fy, SplitLeaves(fx, fy, c, s)) == c.arguments['Y'] - fy
  {
    SplitPath(fx, fy, c, s);
    SumTelescopes('X', fx, SplitLeaves(fx, fy, c, s));
    SumTelescopes('Y', fy, SplitLeaves(fx, fy, c, s));
  }

  /**
   * When a move is split, every piece is a command the splitter built: only
   * the first carries the move's feed rate, and every other argument of the
   * move, Z included, is gone.
   */
  lemma SplitDropsArguments(fx: real, fy: real, c: Command, s: real)
    requires c.Has('X') && c.Has('Y') && s > 0.0
    requires TooLong(c.arguments['X'] - fx, c.arguments['Y'] - fy, s)
    ensures var leaves := SplitLeaves(fx, fy, c, s);
      && |leaves| >= 2
      && AllBuilt(leaves, c.name, FeedOf(c))
      && forall i :: 0 <= i < |leaves| ==> !leaves[i].Has('Z')
  {
    var tx := c.arguments['X'];
    var ty := c.arguments['Y'];
    var a := Pieces(fx, fy, Mid(fx, tx), Mid(fy, ty), s, c.name, FeedOf(c));
    var b := Pieces(Mid(fx, tx), Mid(fy, ty), tx, ty, s, c.name, None);
    PiecesBuilt(fx, fy, Mid(fx, tx), Mid(fy, ty), s, c.name, FeedOf(c));
    PiecesBuilt(Mid(fx, tx), Mid(fy, ty), tx, ty, s, c.name, None);
    AllBuiltAppend(a, b, c.name, FeedOf(c));
    var leaves := a + b;
    forall i | 0 <= i < |leaves|
      ensures !leaves[i].Has('Z')
    {
      assert Built(leaves[i], c.name, if i == 0 then FeedOf(c) else None);
    }
  }

  /** A 12 mm cut with a 5 mm split distance becomes four 3 mm pieces. */
  lemma SplitExample()
    ensures SplitLeaves(0.0, 0.0, XYCommand("G01", 12.0, 0.0), 5.0)
      == [XYCommand("G01", 3.0, 0.0), XYCommand("G01", 6.0, 0.0),
          XYCommand("G01", 9.0, 0.0), XYCommand("G01", 12.0, 0.0)]
  {
    assert Pieces(0.0, 0.0, 6.0, 0.0, 5.0, "G01", None)
      == Pieces(0.0, 0.0, 3.0, 0.0, 5.0, "G01", None) + Pieces(3.0, 0.0, 6.0, 0.0, 5.0, "G01", None);
    assert Pieces(6.0, 0.0, 12.0, 0.0, 5.0, "G01", None)
      == Pieces(6.0, 0.0, 9.0, 0.0, 5.0, "G01", None) + Pieces(9.0, 0.0, 12.0, 0.0, 5.0, "G01", None);
  }
}
