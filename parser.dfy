/**
 * The line tokenizer of src/parser.cpp: an index that moves forward over one
 * line of program text and turns it into a command name and its
 * letter-prefixed arguments. `atof` is a parameter: the model says which
 * characters are handed to it, not how it reads them.
 */
module Parser {
  import opened Text
  import opened Wrappers
  import opened Commands

  /** The two `exit` paths of parser.cpp, plus the out-of-range read of an unterminated comment in `NextToken`. */
  datatype ParseError = UnknownSymbol(symbol: char) | UnknownArgument(symbol: char) | CommentOverrun

  /** Where `SkipSpaces` stops: the first non-space at or after `pos`, or the end of the line. */
  function SkipEnd(line: string, pos: nat): (p: nat)
    decreases |line| - pos
    ensures pos <= p
    ensures pos <= |line| ==> p <= |line|
    ensures pos >= |line| ==> p == pos
    ensures forall k :: pos <= k < p ==> IsSpace(line[k])
    ensures p < |line| ==> !IsSpace(line[p])
  {
    if pos < |line| && IsSpace(line[pos]) then SkipEnd(line, pos + 1) else pos
  }

  /**
   * Where a scan for `stop` ends: the first `stop` at or after `pos`, or the
   * end of the line. `ParseNumber` scans for ' ' (tabs and '(' do not stop
   * it) and a comment scan for ')'.
   */
  function ScanTo(line: string, pos: nat, stop: char): (p: nat)
    decreases |line| - pos
    ensures pos <= p
    ensures pos <= |line| ==> p <= |line|
    ensures p <= |line| || p == pos
    ensures forall k :: pos <= k < p ==> line[k] != stop
    ensures p < |line| ==> line[p] == stop
  {
    if pos < |line| && line[pos] != stop then ScanTo(line, pos + 1, stop) else pos
  }

  /** Where a command word ends: the first white-space character at or after `pos`, or the end of the line. */
  function WordEnd(line: string, pos: nat): (p: nat)
    decreases |line| - pos
    ensures pos <= p
    ensures pos <= |line| ==> p <= |line|
    ensures p <= |line| || p == pos
    ensures forall k :: pos <= k < p ==> !IsSpace(line[k])
    ensures p < |line| ==> IsSpace(line[p])
  {
    if pos < |line| && !IsSpace(line[pos]) then WordEnd(line, pos + 1) else pos
  }

  /** What `NextToken` returns when started at `pos`: the token and the new index, or the error. */
  function TokenAt(line: string, pos: nat): (r: Result<(string, nat), ParseError>)
    requires pos <= |line| + 1
    decreases |line| + 1 - pos
    ensures r.Ok? ==> r.value.1 <= |line|
  {
    var p := SkipEnd(line, pos);
    if p == |line| then Ok(("", p))
    else if p > |line| then Err(CommentOverrun)
    else if line[p] == '(' then TokenAt(line, ScanTo(line, p, ')') + 1)
    else if line[p] == 'X' then Ok(("G01", 0))
    else if line[p] in "SMG" then
      var e := WordEnd(line, p);
      Ok((line[p..e], e))
    else Err(UnknownSymbol(line[p]))
  }

  /** A word read from a G, M or S has no white space and ends at white space or the end of the line. */
  lemma WordShape(line: string, p: nat)
    requires p < |line| && line[p] in "SMG"
    ensures var w := line[p..WordEnd(line, p)];
      && w != "" && w[0] in "GMS"
      && (forall k :: 0 <= k < |w| ==> !IsSpace(w[k]))
      && (WordEnd(line, p) == |line| || IsSpace(line[WordEnd(line, p)]))
  {
    var e := WordEnd(line, p);
    assert line[p..e][0] == line[p];
    forall k | 0 <= k < e - p ensures !IsSpace(line[p..e][k]) {
      assert line[p..e][k] == line[p + k];
    }
  }

  /**
   * The shape of a token: an empty token only at the end of the line; a word
   * starting with G, M or S that runs up to white space or the end; or the
   * implicit "G01" of a line that starts with an X coordinate.
   */
  lemma {:induction false} TokenShape(line: string, pos: nat)
    requires pos <= |line| + 1
    ensures var r := TokenAt(line, pos);
      r.Ok? && r.value.0 == "" ==> r.value.1 == |line|
    ensures var r := TokenAt(line, pos);
      r.Ok? && r.value.0 != "" && r.value.1 > 0 ==>
        && r.value.0[0] in "GMS"
        && (forall k :: 0 <= k < |r.value.0| ==> !IsSpace(r.value.0[k]))
        && (r.value.1 == |line| || IsSpace(line[r.value.1]))
    ensures var r := TokenAt(line, pos);
      r.Ok? && r.value.0 != "" && r.value.1 == 0 ==> r.value.0 == "G01" && line != ""
    decreases |line| + 1 - pos
  {
    var p := SkipEnd(line, pos);
    if p == |line| {
      TokenAtEnd(line, pos);
    } else if p > |line| {
      TokenAtOverrun(line, pos);
    } else if line[p] == '(' {
      TokenAtComment(line, pos);
      TokenShape(line, ScanTo(line, p, ')') + 1);
    } else if line[p] == 'X' {
      TokenAtCoordinate(line, pos);
    } else if line[p] in "SMG" {
      TokenAtWord(line, pos);
      WordShape(line, p);
    } else {
      TokenAtUnknown(line, pos);
    }
  }

  /** The argument loop of `ParseGCodeLine`, from index `i`, adding to `acc`. */
  function ArgsFrom(line: string, i: nat, acc: Command, atof: string -> real): Result<Command, ParseError>
    requires i <= |line| + 1
    decreases |line| + 1 - i
  {
    var j := SkipEnd(line, i);
    if j >= |line| then Ok(acc)
    else if IsAlpha(line[j]) then
      var e := ScanTo(line, j + 1, ' ');
      ArgsFrom(line, e, acc.WithArgument(line[j], atof(line[j + 1..e])), atof)
    else if line[j] == '(' then ArgsFrom(line, ScanTo(line, j, ')') + 1, acc, atof)
    else Err(UnknownArgument(line[j]))
  }

  /** The command `ParseGCodeLine` leaves behind for one line, or the error it exits with. */
  function ParseLine(line: string, atof: string -> real): Result<Command, ParseError>
  {
    match TokenAt(line, 0)
    case Err(e) => Err(e)
    case Ok((name, i)) =>
      var c := EmptyCommand.(name := name);
      if i >= |line| then Ok(c) else ArgsFrom(line, i, c, atof)
  }

  method SkipSpaces(line: string, pos: nat) returns (p: nat)
    ensures p == SkipEnd(line, pos)
  {
    p := pos;
    while p < |line| && IsSpace(line[p])
      invariant pos <= p && SkipEnd(line, p) == SkipEnd(line, pos)
      decreases |line| - p
    {
      p := p + 1;
    }
  }

  /** `ParseNumber`: collect the characters up to the next ' ' and hand them to `atof`. */
  method ParseNumber(line: string, pos: nat, atof: string -> real) returns (v: real, p: nat)
    requires pos <= |line|
    ensures p == ScanTo(line, pos, ' ') && v == atof(line[pos..p])
  {
    var str := "";
    p := pos;
    while p < |line| && line[p] != ' '
      invariant pos <= p <= |line| && str == line[pos..p]
      invariant ScanTo(line, p, ' ') == ScanTo(line, pos, ' ')
      decreases |line| - p
    {
      str := str + [line[p]];
      p := p + 1;
    }
    v := atof(str);
  }

  /** The comment loop of `NextToken` and `ParseGCodeLine`: move past the next ')', or one past the end. */
  method SkipComment(line: string, open: nat) returns (p: nat)
    requires open <= |line|
    ensures p == ScanTo(line, open, ')') + 1
  {
    p := open;
    while p < |line| && line[p] != ')'
      invariant open <= p <= |line| && ScanTo(line, p, ')') == ScanTo(line, open, ')')
      decreases |line| - p
    {
      p := p + 1;
    }
    p := p + 1;
  }

  /** The inner loop of `NextToken` that copies a command word. */
  method ReadWord(line: string, start: nat) returns (word: string, p: nat)
    requires start <= |line|
    ensures p == WordEnd(line, start) && word == line[start..p]
  {
    word := "";
    p := start;
    while p < |line| && !IsSpace(line[p])
      invariant start <= p <= |line| && word == line[start..p]
      invariant WordEnd(line, p) == WordEnd(line, start)
      decreases |line| - p
    {
      word := word + [line[p]];
      p := p + 1;
    }
  }

  /* The cases of `TokenAt`, one lemma each, for `NextToken`'s loop. */

  lemma TokenAtEnd(line: string, pos: nat)
    requires pos <= |line| + 1 && SkipEnd(line, pos) == |line|
    ensures TokenAt(line, pos) == Ok(("", |line|))
  {
  }

  lemma TokenAtOverrun(line: string, pos: nat)
    requires pos <= |line| + 1 && SkipEnd(line, pos) > |line|
    ensures TokenAt(line, pos) == Err(CommentOverrun)
  {
  }

  lemma TokenAtComment(line: string, pos: nat)
    requires pos <= |line| + 1 && SkipEnd(line, pos) < |line| && line[SkipEnd(line, pos)] == '('
    ensures TokenAt(line, pos) == TokenAt(line, ScanTo(line, SkipEnd(line, pos), ')') + 1)
  {
  }

  lemma TokenAtCoordinate(line: string, pos: nat)
    requires pos <= |line| + 1 && SkipEnd(line, pos) < |line| && line[SkipEnd(line, pos)] == 'X'
    ensures TokenAt(line, pos) == Ok(("G01", 0))
  {
  }

  lemma TokenAtWord(line: string, pos: nat)
    requires pos <= |line| + 1 && SkipEnd(line, pos) < |line| && line[SkipEnd(line, pos)] in "SMG"
    ensures var p := SkipEnd(line, pos); TokenAt(line, pos) == Ok((line[p..WordEnd(line, p)], WordEnd(line, p)))
  {
  }

  lemma TokenAtUnknown(line: string, pos: nat)
    requires pos <= |line| + 1 && SkipEnd(line, pos) < |line|
    requires line[SkipEnd(line, pos)] !in "(XSMG"
    ensures TokenAt(line, pos) == Err(UnknownSymbol(line[SkipEnd(line, pos)]))
  {
  }

  method NextToken(line: string, pos: nat) returns (r: Result<(string, nat), ParseError>)
    requires pos <= |line|
    ensures r == TokenAt(line, pos)
  {
    var p := pos;
    var done := false;
    r := Ok(("", 0));
    while !done
      invariant p <= |line| + 1
      invariant !done ==> TokenAt(line, p) == TokenAt(line, pos)
      invariant done ==> r == TokenAt(line, pos)
      decreases |line| + 1 - p, !done
    {
      p, done, r := TokenStep(line, p);
    }
  }

  /** One pass of `NextToken`'s loop: skip spaces, then return a token or an error, or skip a comment. */
  method TokenStep(line: string, pos: nat) returns (next: nat, done: bool, r: Result<(string, nat), ParseError>)
    requires pos <= |line| + 1
    ensures pos <= next <= |line| + 1
    ensures done ==> r == TokenAt(line, pos)
    ensures !done ==> pos < next && TokenAt(line, next) == TokenAt(line, pos)
  {
    next := SkipSpaces(line, pos);
    done := true;
    if next == |line| {
      TokenAtEnd(line, pos);
      r := Ok(("", next));
    } else if next > |line| {
      TokenAtOverrun(line, pos);
      r := Err(CommentOverrun);
    } else {
      var c := line[next];
      if c == '(' {
        TokenAtComment(line, pos);
        next := SkipComment(line, next);
        done := false;
        r := Ok(("", 0));
      } else if c == 'X' {
        TokenAtCoordinate(line, pos);
        r := Ok(("G01", 0));
      } else if c == 'S' || c == 'M' || c == 'G' {
        TokenAtWord(line, pos);
        var word, e := ReadWord(line, next);
        r := Ok((word, e));
      } else {
        TokenAtUnknown(line, pos);
        r := Err(UnknownSymbol(c));
      }
    }
  }

  /**
   * `ParseGCodeLine`: read the name with `NextToken`, clear the command, then
   * read the arguments. `None` is a normal return; `Some(e)` stands for the
   * `exit` of the source.
   */
  method ParseGCodeLine(line: string, command: GCodeCommand, atof: string -> real) returns (err: Option<ParseError>)
    modifies command
    ensures ParseLine(line, atof).Ok? <==> err.None?
    ensures ParseLine(line, atof).Ok? ==> command.Value() == ParseLine(line, atof).value
    ensures ParseLine(line, atof).Err? ==> err == Some(ParseLine(line, atof).error)
  {
    var tok := NextToken(line, 0);
    if tok.Err? {
      return Some(tok.error);
    }
    var i := tok.value.1;
    command.Clear();
    command.name := tok.value.0;
    assert command.Value() == EmptyCommand.(name := tok.value.0);
    if i >= |line| {
      return None;
    }
    err := ParseArguments(line, i, command, atof);
  }

  /** The argument loop stops at the end of the line, ... */
  lemma ArgsFromDone(line: string, i: nat, acc: Command, atof: string -> real)
    requires i <= |line| + 1 && SkipEnd(line, i) >= |line|
    ensures ArgsFrom(line, i, acc, atof) == Ok(acc)
  {
  }

  /** ... reads a letter and the number after it, ... */
  lemma ArgsFromLetter(line: string, i: nat, acc: Command, atof: string -> real)
    requires i <= |line| + 1
    requires SkipEnd(line, i) < |line| && IsAlpha(line[SkipEnd(line, i)])
    ensures var j := SkipEnd(line, i); var e := ScanTo(line, j + 1, ' ');
      ArgsFrom(line, i, acc, atof) == ArgsFrom(line, e, acc.WithArgument(line[j], atof(line[j + 1..e])), atof)
  {
  }

  /** ... skips a comment, ... */
  lemma ArgsFromComment(line: string, i: nat, acc: Command, atof: string -> real)
    requires i <= |line| + 1
    requires SkipEnd(line, i) < |line| && line[SkipEnd(line, i)] == '('
    ensures ArgsFrom(line, i, acc, atof) == ArgsFrom(line, ScanTo(line, SkipEnd(line, i), ')') + 1, acc, atof)
  {
  }

  /** ... and rejects anything else. */
  lemma ArgsFromUnknown(line: string, i: nat, acc: Command, atof: string -> real)
    requires i <= |line| + 1
    requires SkipEnd(line, i) < |line| && !IsAlpha(line[SkipEnd(line, i)]) && line[SkipEnd(line, i)] != '('
    ensures ArgsFrom(line, i, acc, atof) == Err(UnknownArgument(line[SkipEnd(line, i)]))
  {
  }

  /**
   * The argument loop of `ParseGCodeLine`: one argument per letter-prefixed
   * token, comments skipped, anything else an error.
   */
  method ParseArguments(line: string, start: nat, command: GCodeCommand, atof: string -> real)
    returns (err: Option<ParseError>)
    requires start <= |line|
    modifies command
    ensures ArgsFrom(line, start, old(command.Value()), atof).Ok? <==> err.None?
    ensures err.None? ==> ArgsFrom(line, start, old(command.Value()), atof) == Ok(command.Value())
    ensures err.Some? ==> ArgsFrom(line, start, old(command.Value()), atof) == Err(err.value)
  {
    ghost var expected := ArgsFrom(line, start, command.Value(), atof);
    var i := start;
    var done := false;
    err := None;
    while !done
      invariant i <= |line| + 1
      invariant !done ==> ArgsFrom(line, i, command.Value(), atof) == expected
      invariant done ==> err.None? ==> expected == Ok(command.Value())
      invariant done ==> err.Some? ==> expected == Err(err.value)
      decreases |line| + 1 - i, !done
    {
      i, done, err := ParseArgument(line, i, command, atof);
    }
  }

  /** One pass of the argument loop: skip spaces, then stop, read one argument, or skip one comment. */
  method ParseArgument(line: string, i: nat, command: GCodeCommand, atof: string -> real)
    returns (next: nat, done: bool, err: Option<ParseError>)
    requires i <= |line| + 1
    modifies command
    ensures i <= next <= |line| + 1 && (!done ==> i < next)
    ensures done && err.None? ==> ArgsFrom(line, i, old(command.Value()), atof) == Ok(command.Value())
    ensures done && err.Some? ==> ArgsFrom(line, i, old(command.Value()), atof) == Err(err.value)
    ensures !done ==> ArgsFrom(line, i, old(command.Value()), atof) == ArgsFrom(line, next, command.Value(), atof)
  {
    ghost var acc := command.Value();
    next := SkipSpaces(line, i);
    done := false;
    err := None;
    if next >= |line| {
      ArgsFromDone(line, i, acc, atof);
      done := true;
    } else if IsAlpha(line[next]) {
      ArgsFromLetter(line, i, acc, atof);
      next := ReadArgument(line, next, command, atof);
    } else if line[next] == '(' {
      ArgsFromComment(line, i, acc, atof);
      next := SkipComment(line, next);
    } else {
      ArgsFromUnknown(line, i, acc, atof);
      done := true;
      err := Some(UnknownArgument(line[next]));
    }
  }

  /** The letter at `j` and the number after it become one more argument of `command`. */
  method ReadArgument(line: string, j: nat, command: GCodeCommand, atof: string -> real) returns (next: nat)
    requires j < |line|
    modifies command
    ensures next == ScanTo(line, j + 1, ' ')
    ensures command.Value() == old(command.Value()).WithArgument(line[j], atof(line[j + 1..next]))
  {
    var letter := line[j];
    var v;
    v, next := ParseNumber(line, j + 1, atof);
    command.AddArgument(letter, v);
  }

  /** A parsed command has no formula, only letter arguments, and exactly the listed letters as keys. */
  ghost predicate WellFormed(c: Command)
  {
    && c.zformula == ""
    && (forall k :: 0 <= k < |c.argNameList| ==> IsAlpha(c.argNameList[k]))
    && (forall l :: l in c.arguments <==> l in c.argNameList)
  }

  lemma {:induction false} ArgsFromWellFormed(line: string, i: nat, acc: Command, atof: string -> real)
    requires i <= |line| + 1 && WellFormed(acc)
    requires ArgsFrom(line, i, acc, atof).Ok?
    ensures WellFormed(ArgsFrom(line, i, acc, atof).value)
    ensures acc.name == ArgsFrom(line, i, acc, atof).value.name
    ensures acc.argNameList <= ArgsFrom(line, i, acc, atof).value.argNameList
    decreases |line| + 1 - i
  {
    var j := SkipEnd(line, i);
    if j >= |line| {
    } else if IsAlpha(line[j]) {
      var e := ScanTo(line, j + 1, ' ');
      var acc' := acc.WithArgument(line[j], atof(line[j + 1..e]));
      assert WellFormed(acc');
      ArgsFromWellFormed(line, e, acc', atof);
    } else if line[j] == '(' {
      ArgsFromWellFormed(line, ScanTo(line, j, ')') + 1, acc, atof);
    }
  }

  /**
   * Every command the parser produces is well formed; its name is the first
   * token of the line; a line without a name has no arguments. (A leading X
   * coordinate stands for an implicit "G01".)
   */
  lemma ParsedIsWellFormed(line: string, atof: string -> real)
    requires ParseLine(line, atof).Ok?
    ensures WellFormed(ParseLine(line, atof).value)
    ensures ParseLine(line, atof).value.name == TokenAt(line, 0).value.0
    ensures ParseLine(line, atof).value.name == "" ==> ParseLine(line, atof).value == EmptyCommand
  {
    var (name, i) := TokenAt(line, 0).value;
    TokenShape(line, 0);
    var c := EmptyCommand.(name := name);
    if i < |line| {
      ArgsFromWellFormed(line, i, c, atof);
    }
  }

  /*
   * Round trip: rendering a command and parsing the text back gives the same
   * command, as long as the name is a command word, the record is well
   * formed, and every value's text contains no ' ' and reads back as that
   * value.
   */

  ghost predicate Reparsable(c: Command, fmt: real -> string, atof: string -> real)
  {
    && c.name != "" && c.name[0] in "GMS"
    && (forall k :: 0 <= k < |c.name| ==> !IsSpace(c.name[k]))
    && WellFormed(c)
    && (forall l :: l in c.arguments ==> ' ' !in fmt(c.arguments[l]) && atof(fmt(c.arguments[l])) == c.arguments[l])
  }

  /** The command after the first `k` arguments of `c` were added. */
  ghost function Built(c: Command, k: nat): Command
    requires WellFormed(c) && k <= |c.argNameList|
  {
    Command(c.name, "", c.argNameList[..k], map l | l in c.argNameList[..k] :: c.arguments[l])
  }

  /** The rendering of letter-list entries `k` up to `n`. */
  function RenderFrom(c: Command, k: nat, n: nat, fmt: real -> string): string
    requires k <= n <= |c.argNameList|
    decreases n - k
  {
    if k == n then "" else RenderArg(c, c.argNameList[k], fmt) + RenderFrom(c, k + 1, n, fmt)
  }

  lemma {:induction false} RenderFromLast(c: Command, k: nat, n: nat, fmt: real -> string)
    requires k < n <= |c.argNameList|
    ensures RenderFrom(c, k, n, fmt) == RenderFrom(c, k, n - 1, fmt) + RenderArg(c, c.argNameList[n - 1], fmt)
    decreases n - k
  {
    if k < n - 1 {
      RenderFromLast(c, k + 1, n, fmt);
      var first := RenderArg(c, c.argNameList[k], fmt);
      var last := RenderArg(c, c.argNameList[n - 1], fmt);
      ConcatAssoc(first, RenderFrom(c, k + 1, n - 1, fmt), last);
    } else {
      EmptyConcat(RenderArg(c, c.argNameList[k], fmt));
    }
  }

  lemma {:induction false} RenderArgsSplit(c: Command, k: nat, n: nat, fmt: real -> string)
    requires k <= n <= |c.argNameList|
    ensures RenderArgs(c, n, fmt) == RenderArgs(c, k, fmt) + RenderFrom(c, k, n, fmt)
    decreases n - k
  {
    if k < n {
      RenderArgsSplit(c, k, n - 1, fmt);
      RenderFromLast(c, k, n, fmt);
      ConcatAssoc(RenderArgs(c, k, fmt), RenderFrom(c, k, n - 1, fmt), RenderArg(c, c.argNameList[n - 1], fmt));
    } else {
      EmptyConcat(RenderArgs(c, k, fmt));
    }
  }

  lemma {:induction false} NumberEndAt(line: string, p: nat, e: nat)
    requires p <= e <= |line|
    requires forall q :: p <= q < e ==> line[q] != ' '
    requires e == |line| || line[e] == ' '
    ensures ScanTo(line, p, ' ') == e
    decreases e - p
  {
    if p < e {
      NumberEndAt(line, p + 1, e);
    }
  }

  lemma {:induction false} WordEndAt(line: string, p: nat, e: nat)
    requires p <= e <= |line|
    requires forall q :: p <= q < e ==> !IsSpace(line[q])
    requires e == |line| || IsSpace(line[e])
    ensures WordEnd(line, p) == e
    decreases e - p
  {
    if p < e {
      WordEndAt(line, p + 1, e);
    }
  }

  /** The argument loop reads " <letter><text>" at `pos` as one argument whose value is `atof(text)`. */
  lemma ArgsFromStep(line: string, pos: nat, e: nat, acc: Command, atof: string -> real)
    requires pos + 2 <= e <= |line|
    requires line[pos] == ' ' && IsAlpha(line[pos + 1]) && ScanTo(line, pos + 2, ' ') == e
    ensures ArgsFrom(line, pos, acc, atof)
      == ArgsFrom(line, e, acc.WithArgument(line[pos + 1], atof(line[pos + 2..e])), atof)
  {
    assert SkipEnd(line, pos + 1) == pos + 1;
    assert SkipEnd(line, pos) == pos + 1;
  }

  /** The middle piece of a three-part concatenation is found where it was put. */
  lemma MiddleSlice(a: string, b: string, c: string)
    ensures (a + b + c)[|a|..|a| + |b|] == b
  {
    var s := a + b + c;
    assert forall i :: 0 <= i < |b| ==> s[|a| + i] == b[i];
  }

  /** No character of the middle piece `t` of `a + t + r` is a space. */
  lemma MiddleHasNoSpace(a: string, t: string, r: string)
    requires ' ' !in t
    ensures forall q :: |a| <= q < |a| + |t| ==> (a + t + r)[q] != ' '
  {
    var s := a + t + r;
    forall q | |a| <= q < |a| + |t| ensures s[q] != ' ' {
      assert s[q] == t[q - |a|];
    }
  }

  /** The piece after the middle one starts right after it. */
  lemma AfterMiddle(a: string, t: string, r: string)
    requires r != ""
    ensures (a + t + r)[|a| + |t|] == r[0]
  {
  }

  /** Where the pieces of " <letter><text>" sit once it is written after `prefix`. */
  lemma ArgumentLayout(line: string, prefix: string, letter: char, t: string, rest: string)
    requires line == prefix + ([' ', letter] + t) + rest
    requires ' ' !in t && (rest == "" || rest[0] == ' ')
    ensures |prefix| + 2 + |t| <= |line|
    ensures line[|prefix|] == ' ' && line[|prefix| + 1] == letter
    ensures line[|prefix| + 2..|prefix| + 2 + |t|] == t
    ensures ScanTo(line, |prefix| + 2, ' ') == |prefix| + 2 + |t|
  {
    var head := prefix + [' ', letter];
    ConcatAssoc(prefix, [' ', letter], t);
    HeadLayout(prefix, letter, t + rest);
    MiddleSlice(head, t, rest);
    NumberEndMiddle(head, t, rest);
  }

  lemma HeadLayout(prefix: string, letter: char, r: string)
    ensures (prefix + [' ', letter] + r)[|prefix|] == ' '
    ensures (prefix + [' ', letter] + r)[|prefix| + 1] == letter
  {
  }

  /** A number written as the middle piece `t` of `a + t + r` ends where `t` does. */
  lemma NumberEndMiddle(a: string, t: string, r: string)
    requires ' ' !in t && (r == "" || r[0] == ' ')
    ensures ScanTo(a + t + r, |a|, ' ') == |a| + |t|
  {
    var line := a + t + r;
    MiddleHasNoSpace(a, t, r);
    if r != "" {
      AfterMiddle(a, t, r);
    }
    NumberEndAt(line, |a|, |a| + |t|);
  }

  /** Without a Z formula every argument renders as " <letter><value>". */
  lemma RenderArgPlain(c: Command, fmt: real -> string, k: nat)
    requires c.zformula == "" && k < |c.argNameList|
    ensures RenderArg(c, c.argNameList[k], fmt) == [' ', c.argNameList[k]] + fmt(c.ValueOf(c.argNameList[k]))
  {
  }

  /** Rendered argument text is empty or starts with the separating space. */
  lemma RenderFromSpaced(c: Command, fmt: real -> string, k: nat)
    requires k <= |c.argNameList|
    ensures var rest := RenderFrom(c, k, |c.argNameList|, fmt); rest == "" || rest[0] == ' '
  {
    var n := |c.argNameList|;
    if k < n {
      RenderFromStep(c, fmt, k);
    }
  }

  lemma RenderFromStep(c: Command, fmt: real -> string, k: nat)
    requires k < |c.argNameList|
    ensures RenderFrom(c, k, |c.argNameList|, fmt)
      == RenderArg(c, c.argNameList[k], fmt) + RenderFrom(c, k + 1, |c.argNameList|, fmt)
  {
  }

  /** Adding argument `k` to the first `k` gives the first `k + 1`. */
  lemma BuiltStep(c: Command, k: nat)
    requires WellFormed(c) && k < |c.argNameList|
    ensures c.argNameList[k] in c.arguments
    ensures Built(c, k).WithArgument(c.argNameList[k], c.arguments[c.argNameList[k]]) == Built(c, k + 1)
  {
    var L := c.argNameList[k];
    assert L in c.argNameList;
    assert c.argNameList[..k + 1] == c.argNameList[..k] + [L];
  }

  /**
   * The argument loop, started where the rendering of entries `k..` begins,
   * adds exactly those entries.
   */
  lemma {:induction false} ArgumentsReparsed(c: Command, fmt: real -> string, atof: string -> real,
                                             line: string, prefix: string, k: nat)
    requires Reparsable(c, fmt, atof) && k <= |c.argNameList|
    requires line == prefix + RenderFrom(c, k, |c.argNameList|, fmt)
    ensures ArgsFrom(line, |prefix|, Built(c, k), atof) == Ok(Built(c, |c.argNameList|))
    decreases |c.argNameList| - k
  {
    var n := |c.argNameList|;
    if k < n {
      var L := c.argNameList[k];
      BuiltStep(c, k);
      var t := fmt(c.arguments[L]);
      var arg := [' ', L] + t;
      var rest := RenderFrom(c, k + 1, n, fmt);
      RenderFromStep(c, fmt, k);
      RenderArgPlain(c, fmt, k);
      RenderFromSpaced(c, fmt, k + 1);
      ConcatAssoc(prefix, arg, rest);
      assert line == prefix + arg + rest;
      assert IsAlpha(L);
      assert ' ' !in t && atof(t) == c.arguments[L];
      var next := Built(c, k).WithArgument(L, atof(t));
      assert next == Built(c, k + 1);
      var e := |prefix + arg|;
      ArgumentLayout(line, prefix, L, t, rest);
      ArgsFromStep(line, |prefix|, e, Built(c, k), atof);
      ArgumentsReparsed(c, fmt, atof, line, prefix + arg, k + 1);
    } else {
      assert SkipEnd(line, |line|) == |line|;
    }
  }

  lemma RenderNameFirst(c: Command, fmt: real -> string)
    ensures Render(c, fmt) == c.name + RenderFrom(c, 0, |c.argNameList|, fmt)
  {
    var all := RenderFrom(c, 0, |c.argNameList|, fmt);
    RenderArgsSplit(c, 0, |c.argNameList|, fmt);
    assert RenderArgs(c, 0, fmt) == "";
    assert RenderArgs(c, |c.argNameList|, fmt) == "" + all;
    EmptyConcat(all);
  }

  /** The rendered text starts with the command word, read back as the first token. */
  lemma NameReparsed(c: Command, fmt: real -> string)
    requires c.name != "" && c.name[0] in "GMS"
    requires forall k :: 0 <= k < |c.name| ==> !IsSpace(c.name[k])
    ensures TokenAt(Render(c, fmt), 0) == Ok((c.name, |c.name|))
  {
    var line := Render(c, fmt);
    var w := |c.name|;
    RenderNameFirst(c, fmt);
    RenderFromSpaced(c, fmt, 0);
    forall q | 0 <= q < w ensures !IsSpace(line[q]) {
      assert line[q] == c.name[q];
    }
    WordEndAt(line, 0, w);
    assert SkipEnd(line, 0) == 0;
  }

  /** The whole record is `Built` from all of its arguments, and the parser's start is `Built` from none. */
  lemma BuiltEnds(c: Command)
    requires WellFormed(c)
    ensures Built(c, |c.argNameList|) == c
    ensures Built(c, 0) == EmptyCommand.(name := c.name)
  {
    assert c.argNameList[..|c.argNameList|] == c.argNameList;
    assert c.argNameList[..0] == "";
  }

  /** Parsing what `ToString` writes gives the command back. */
  lemma ParseRenderRoundTrip(c: Command, fmt: real -> string, atof: string -> real)
    requires Reparsable(c, fmt, atof)
    ensures ParseLine(Render(c, fmt), atof) == Ok(c)
  {
    RenderNameFirst(c, fmt);
    NameReparsed(c, fmt);
    BuiltEnds(c);
    ArgumentsReparsed(c, fmt, atof, Render(c, fmt), c.name, 0);
    if c.argNameList == "" {
      assert c.arguments == map[];
    }
  }
}
