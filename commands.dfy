/**
 * The command record of include/parser.h: a name, the argument letters in the
 * order they were introduced, the numeric value of each letter, and an
 * optional depth formula that replaces the Z value when the command is
 * rendered back to text.
 */
module Commands {
  import opened Text

  /** A `GCodeCommand` as a value, as it sits in the command list. */
  datatype Command = Command(name: string, zformula: string, argNameList: string, arguments: map<char, real>)
  {
    /** `hasXCoord`, `hasYCoord`, `hasZCoord`, `hasFeedRate`: the letter is a key of the map. */
    predicate Has(letter: char)
    {
      letter in arguments
    }

    /** What `arguments[letter]` reads: the stored value, or 0 for a letter that is not a key. */
    function ValueOf(letter: char): real
    {
      if letter in arguments then arguments[letter] else 0.0
    }

    /** `setXCoord`, `setYCoord`, `setZCoord`, `setFeedRate`: write the map, leave the letter list alone. */
    function WithValue(letter: char, v: real): (c: Command)
      ensures c.name == name && c.zformula == zformula && c.argNameList == argNameList
      ensures c.Has(letter) && c.arguments[letter] == v
      ensures forall l :: l != letter ==> (c.Has(l) <==> Has(l)) && c.ValueOf(l) == ValueOf(l)
    {
      this.(arguments := arguments[letter := v])
    }

    /** `addArgument`: append the letter to the list (even when it is already there) and store the value. */
    function WithArgument(letter: char, v: real): (c: Command)
      ensures c.name == name && c.zformula == zformula
      ensures c.argNameList == argNameList + [letter]
      ensures c.arguments.Keys == arguments.Keys + {letter}
      ensures c.arguments[letter] == v
      ensures forall l :: l != letter ==> c.ValueOf(l) == ValueOf(l)
    {
      Command(name, zformula, argNameList + [letter], arguments[letter := v])
    }

    /** `setZFormula`: list 'Z' if there is no Z value yet, and store the formula; no value changes. */
    function WithZFormula(f: string): (c: Command)
      ensures c.name == name && c.arguments == arguments && c.zformula == f
      ensures c.argNameList == if Has('Z') then argNameList else argNameList + ['Z']
      ensures 'Z' in c.argNameList || Has('Z')
    {
      this.(zformula := f, argNameList := if 'Z' in arguments then argNameList else argNameList + "Z")
    }

    /**
     * What `ToString` leaves behind: every listed letter is a key, the ones
     * that were missing holding 0, and nothing else changes.
     */
    function WithListedKeys(): (c: Command)
      ensures c.name == name && c.zformula == zformula && c.argNameList == argNameList
      ensures c.arguments.Keys == arguments.Keys + (set l | l in argNameList)
      ensures forall l :: c.ValueOf(l) == ValueOf(l)
    {
      this.(arguments := map l | l in arguments.Keys + (set l | l in argNameList) :: ValueOf(l))
    }
  }

  /** The default constructor, and what `Clear` leaves behind. */
  const EmptyCommand := Command("", "", "", map[])

  /** The `(name, x, y)` constructor that the segment splitter uses for each piece. */
  function XYCommand(name: string, x: real, y: real): (c: Command)
    ensures c.name == name && c.zformula == "" && c.argNameList == "XY"
    ensures c.arguments.Keys == {'X', 'Y'} && c.arguments['X'] == x && c.arguments['Y'] == y
  {
    Command(name, "", "XY", map['X' := x, 'Y' := y])
  }

  /** The text `ToString` writes for the letter `letter` with value `v`, given the formula `zformula`. */
  function ArgText(letter: char, v: real, zformula: string, fmt: real -> string): string
  {
    if letter != 'Z' || zformula == "" then " " + [letter] + fmt(v)
    else " " + [letter] + "[" + zformula + "]"
  }

  /** The text `ToString` writes for the argument letter `letter` of `c`. */
  function RenderArg(c: Command, letter: char, fmt: real -> string): string
  {
    ArgText(letter, c.ValueOf(letter), c.zformula, fmt)
  }

  /** The rendering of the first `k` entries of the letter list. */
  function RenderArgs(c: Command, k: nat, fmt: real -> string): string
    requires k <= |c.argNameList|
  {
    if k == 0 then "" else RenderArgs(c, k - 1, fmt) + RenderArg(c, c.argNameList[k - 1], fmt)
  }

  /** `ToString`: the name, then one " <letter><value>" per letter-list entry in order. */
  function Render(c: Command, fmt: real -> string): (r: string)
    ensures |c.name| <= |r| && r[..|c.name|] == c.name
  {
    c.name + RenderArgs(c, |c.argNameList|, fmt)
  }

  /**
   * Values written with a setter are not rendered unless their letter was
   * already listed: the feed rate put on the first half of a split move never
   * reaches the output.
   */
  lemma {:induction false} SetterNotRendered(c: Command, letter: char, v: real, fmt: real -> string, k: nat)
    requires letter !in c.argNameList && k <= |c.argNameList|
    ensures RenderArgs(c.WithValue(letter, v), k, fmt) == RenderArgs(c, k, fmt)
  {
    if k > 0 {
      SetterNotRendered(c, letter, v, fmt, k - 1);
      assert c.argNameList[k - 1] != letter;
    }
  }

  lemma {:induction false} RenderArgsAgree(c: Command, d: Command, k: nat, fmt: real -> string)
    requires k <= |c.argNameList| && k <= |d.argNameList|
    requires c.argNameList[..k] == d.argNameList[..k] && c.zformula == d.zformula
    requires forall l :: l in c.argNameList[..k] ==> c.ValueOf(l) == d.ValueOf(l)
    ensures RenderArgs(c, k, fmt) == RenderArgs(d, k, fmt)
  {
    if k > 0 {
      assert c.argNameList[..k - 1] == c.argNameList[..k][..k - 1];
      assert d.argNameList[..k - 1] == d.argNameList[..k][..k - 1];
      assert c.argNameList[k - 1] == c.argNameList[..k][k - 1];
      RenderArgsAgree(c, d, k - 1, fmt);
      var l := c.argNameList[k - 1];
      assert l in c.argNameList[..k];
      assert RenderArg(c, l, fmt) == RenderArg(d, l, fmt);
    }
  }

  /** A fresh letter added with `addArgument` is rendered last, after everything that was there. */
  lemma AddArgumentRendered(c: Command, letter: char, v: real, fmt: real -> string)
    requires letter !in c.argNameList && (letter != 'Z' || c.zformula == "")
    ensures Render(c.WithArgument(letter, v), fmt) == Render(c, fmt) + (" " + [letter] + fmt(v))
  {
    var d := c.WithArgument(letter, v);
    var n := |c.argNameList|;
    assert d.argNameList[..n] == c.argNameList[..n];
    RenderArgsAgree(c, d, n, fmt);
    assert d.argNameList[n] == letter;
    var piece := RenderArg(d, letter, fmt);
    assert piece == " " + [letter] + fmt(v);
    assert RenderArgs(d, n + 1, fmt) == RenderArgs(c, n, fmt) + piece;
    ConcatAssoc(c.name, RenderArgs(c, n, fmt), piece);
  }

  /**
   * Once a formula is attached, the numeric Z value plays no part in the
   * rendering: 'Z' is rendered as the bracketed formula.
   */
  lemma RenderIgnoresZValue(c: Command, v: real, fmt: real -> string)
    requires c.zformula != ""
    ensures Render(c.WithValue('Z', v), fmt) == Render(c, fmt)
  {
    var d := c.WithValue('Z', v);
    var n := |c.argNameList|;
    assert forall k :: 0 <= k <= n ==> RenderArgs(d, k, fmt) == RenderArgs(c, k, fmt) by {
      forall k | 0 <= k <= n ensures RenderArgs(d, k, fmt) == RenderArgs(c, k, fmt) {
        ZValueInduction(c, v, fmt, k);
      }
    }
  }

  lemma {:induction false} ZValueInduction(c: Command, v: real, fmt: real -> string, k: nat)
    requires c.zformula != "" && k <= |c.argNameList|
    ensures RenderArgs(c.WithValue('Z', v), k, fmt) == RenderArgs(c, k, fmt)
  {
    if k > 0 {
      ZValueInduction(c, v, fmt, k - 1);
    }
  }

  /** Attaching a formula to a command without a Z value renders it once, at the end. */
  lemma FormulaRenderedLast(c: Command, f: string, fmt: real -> string)
    requires !c.Has('Z') && 'Z' !in c.argNameList && c.zformula == "" && f != ""
    ensures Render(c.WithZFormula(f), fmt) == Render(c, fmt) + (" Z[" + f + "]")
  {
    var d := c.WithZFormula(f);
    var n := |c.argNameList|;
    assert c.argNameList[..n] == c.argNameList;
    assert d.argNameList[..n] == c.argNameList;
    RenderArgsAgreeFormula(c, d, n, fmt);
    assert d.argNameList[n] == 'Z';
    var tail := RenderArg(d, 'Z', fmt);
    assert " " + ['Z'] + "[" == " Z[";
    assert tail == " Z[" + f + "]";
    assert RenderArgs(d, n + 1, fmt) == RenderArgs(c, n, fmt) + tail;
    ConcatAssoc(c.name, RenderArgs(c, n, fmt), tail);
  }

  lemma {:induction false} RenderArgsAgreeFormula(c: Command, d: Command, k: nat, fmt: real -> string)
    requires k <= |c.argNameList| && k <= |d.argNameList|
    requires c.argNameList[..k] == d.argNameList[..k] && 'Z' !in c.argNameList[..k]
    requires forall l :: l in c.argNameList[..k] ==> c.ValueOf(l) == d.ValueOf(l)
    ensures RenderArgs(c, k, fmt) == RenderArgs(d, k, fmt)
  {
    if k > 0 {
      assert c.argNameList[..k - 1] == c.argNameList[..k][..k - 1];
      assert d.argNameList[..k - 1] == d.argNameList[..k][..k - 1];
      assert c.argNameList[k - 1] == c.argNameList[..k][k - 1];
      RenderArgsAgreeFormula(c, d, k - 1, fmt);
      var l := c.argNameList[k - 1];
      assert l in c.argNameList[..k];
      assert RenderArg(c, l, fmt) == RenderArg(d, l, fmt);
    }
  }

  /** `ToString` renders the same text when it is called again on what it left behind. */
  lemma ListedKeysRendered(c: Command, fmt: real -> string)
    ensures Render(c.WithListedKeys(), fmt) == Render(c, fmt)
  {
    var d := c.WithListedKeys();
    var n := |c.argNameList|;
    assert c.argNameList[..n] == c.argNameList;
    RenderArgsAgree(c, d, n, fmt);
  }

  /** A command whose listed letters are all keys, as every parsed command, is left as it was. */
  lemma ListedKeysUnchanged(c: Command)
    requires forall l :: l in c.argNameList ==> c.Has(l)
    ensures c.WithListedKeys() == c
  {
    var d := c.WithListedKeys();
    assert d.arguments.Keys == c.arguments.Keys;
    assert forall l :: l in d.arguments ==> d.arguments[l] == d.ValueOf(l);
  }

  /** A 'Z' that is listed only for its formula becomes a key holding 0. */
  lemma ListedKeysFormulaZ(c: Command, f: string)
    requires !c.Has('Z')
    ensures var d := c.WithZFormula(f).WithListedKeys(); d.Has('Z') && d.arguments['Z'] == 0.0
  {
    var e := c.WithZFormula(f);
    assert 'Z' in e.argNameList;
    assert e.WithListedKeys().ValueOf('Z') == e.ValueOf('Z');
  }

  /** The map `m` after `m[letter]`: a letter that is not a key is inserted with 0. */
  function Inserted(m: map<char, real>, letter: char): map<char, real>
  {
    if letter in m then m else m[letter := 0.0]
  }

  /** The map of `c` after `ToString` has read the first `k` listed letters. */
  ghost function ReadKeys(c: Command, k: nat): map<char, real>
    requires k <= |c.argNameList|
  {
    if k == 0 then c.arguments else Inserted(ReadKeys(c, k - 1), c.argNameList[k - 1])
  }

  lemma {:induction false} ReadKeysValues(c: Command, k: nat)
    requires k <= |c.argNameList|
    ensures forall l :: l in ReadKeys(c, k) <==> l in c.arguments || l in c.argNameList[..k]
    ensures forall l :: l in ReadKeys(c, k) ==> ReadKeys(c, k)[l] == c.ValueOf(l)
  {
    if k > 0 {
      ReadKeysValues(c, k - 1);
      assert c.argNameList[..k] == c.argNameList[..k - 1] + [c.argNameList[k - 1]];
    }
  }

  lemma ReadKeysAll(c: Command)
    ensures ReadKeys(c, |c.argNameList|) == c.WithListedKeys().arguments
  {
    var n := |c.argNameList|;
    ReadKeysValues(c, n);
    assert c.argNameList[..n] == c.argNameList;
    var m, w := ReadKeys(c, n), c.WithListedKeys().arguments;
    assert m.Keys == w.Keys;
    assert forall l :: l in m ==> m[l] == w[l] by {
      forall l | l in m ensures m[l] == w[l] {
        assert c.WithListedKeys().ValueOf(l) == c.ValueOf(l);
      }
    }
  }

  lemma RenderArgsNext(c: Command, i: nat, fmt: real -> string, piece: string)
    requires i < |c.argNameList| && piece == RenderArg(c, c.argNameList[i], fmt)
    ensures c.name + RenderArgs(c, i + 1, fmt) == c.name + RenderArgs(c, i, fmt) + piece
  {
    ConcatAssoc(c.name, RenderArgs(c, i, fmt), piece);
  }

  /** parser.h's `GCodeCommand`, whose members update its four fields in place. */
  class GCodeCommand {
    var name: string
    var zformula: string
    var argNameList: string
    var arguments: map<char, real>

    function Value(): Command
      reads this
    {
      Command(name, zformula, argNameList, arguments)
    }

    /** `GCodeCommand(name, x, y)`. */
    constructor WithXY(name: string, x: real, y: real)
      ensures Value() == XYCommand(name, x, y)
    {
      this.name := name;
      argNameList := "XY";
      arguments := map['X' := x, 'Y' := y];
      zformula := "";
    }

    /** `GCodeCommand()`. */
    constructor ()
      ensures Value() == EmptyCommand
    {
      name := "";
      zformula := "";
      argNameList := "";
      arguments := map[];
    }

    /** The implicit copy constructor (`GCodeCommand cmd = *it;`). */
    constructor Copy(c: Command)
      ensures Value() == c
    {
      name := c.name;
      zformula := c.zformula;
      argNameList := c.argNameList;
      arguments := c.arguments;
    }

    method SetXCoord(x: real)
      modifies this
      ensures Value() == old(Value()).WithValue('X', x)
    {
      arguments := arguments['X' := x];
    }

    method SetYCoord(y: real)
      modifies this
      ensures Value() == old(Value()).WithValue('Y', y)
    {
      arguments := arguments['Y' := y];
    }

    method SetZCoord(z: real)
      modifies this
      ensures Value() == old(Value()).WithValue('Z', z)
    {
      arguments := arguments['Z' := z];
    }

    method SetFeedRate(f: real)
      modifies this
      ensures Value() == old(Value()).WithValue('F', f)
    {
      arguments := arguments['F' := f];
    }

    method SetZFormula(f: string)
      modifies this
      ensures Value() == old(Value()).WithZFormula(f)
    {
      if !HasZCoord() {
        argNameList := argNameList + "Z";
      }
      zformula := f;
    }

    predicate HasXCoord()
      reads this
      ensures HasXCoord() <==> Value().Has('X')
    {
      'X' in arguments
    }

    predicate HasYCoord()
      reads this
      ensures HasYCoord() <==> Value().Has('Y')
    {
      'Y' in arguments
    }

    predicate HasZCoord()
      reads this
      ensures HasZCoord() <==> Value().Has('Z')
    {
      'Z' in arguments
    }

    predicate HasFeedRate()
      reads this
      ensures HasFeedRate() <==> Value().Has('F')
    {
      'F' in arguments
    }

    /*
     * The getters read through `operator[]`, which would insert a 0 for an
     * absent letter; every caller in the program asks `has*` first, so the
     * model requires it.
     */

    function GetXCoord(): (x: real)
      reads this
      requires HasXCoord()
      ensures x == Value().ValueOf('X')
    {
      arguments['X']
    }

    function GetYCoord(): (y: real)
      reads this
      requires HasYCoord()
      ensures y == Value().ValueOf('Y')
    {
      arguments['Y']
    }

    function GetZCoord(): (z: real)
      reads this
      requires HasZCoord()
      ensures z == Value().ValueOf('Z')
    {
      arguments['Z']
    }

    function GetFeedRate(): (f: real)
      reads this
      requires HasFeedRate()
      ensures f == Value().ValueOf('F')
    {
      arguments['F']
    }

    method AddArgument(letter: char, v: real)
      modifies this
      ensures Value() == old(Value()).WithArgument(letter, v)
    {
      argNameList := argNameList + [letter];
      arguments := arguments[letter := v];
    }

    method Clear()
      modifies this
      ensures Value() == EmptyCommand
    {
      arguments := map[];
      name := "";
      zformula := "";
      argNameList := "";
    }

    /** `arguments[letter]`: the value read, after a 0 is inserted for a letter that is not a key. */
    method Index(letter: char) returns (v: real)
      modifies this
      ensures v == old(Value()).ValueOf(letter)
      ensures arguments == Inserted(old(arguments), letter)
      ensures name == old(name) && zformula == old(zformula) && argNameList == old(argNameList)
    {
      if letter !in arguments {
        arguments := arguments[letter := 0.0];
      }
      v := arguments[letter];
    }

    /**
     * `ToString`, with `fmt` standing for the fixed four-decimal stream output
     * of a value. It reads each listed letter with `arguments[letter]`, which
     * inserts a 0 for a letter that is not yet a key (a 'Z' listed only for
     * its formula), so the command afterwards has every listed letter as a key.
     */
    method ToString(fmt: real -> string) returns (s: string)
      modifies this
      ensures s == Render(old(Value()), fmt)
      ensures Value() == old(Value()).WithListedKeys()
    {
      ghost var c := Value();
      s := name;
      for i := 0 to |argNameList|
        invariant name == c.name && zformula == c.zformula && argNameList == c.argNameList
        invariant arguments == ReadKeys(c, i)
        invariant s == c.name + RenderArgs(c, i, fmt)
      {
        var letter := argNameList[i];
        ReadKeysValues(c, i);
        var v := Index(letter);
        var piece := ArgText(letter, v, zformula, fmt);
        RenderArgsNext(c, i, fmt, piece);
        s := s + piece;
      }
      ReadKeysAll(c);
    }
  }
}
