/**
 * The cell-variable allocator of pass 2 (src/pcb-probe.cpp:13-14, 167-201):
 * each grid cell that a formula refers to gets its own G-code parameter
 * number, handed out in order from 2000 and never changed afterwards.
 */
module Cells {
  import opened Text

  /** `getKey`: the cell's two indices written in decimal, joined by a comma. */
  function GetKey(gx: int, gy: int): string
  {
    IntToString(gx) + "," + IntToString(gy)
  }

  /** Different cells have different keys. */
  lemma GetKeyInjective(a: int, b: int, c: int, d: int)
    requires GetKey(a, b) == GetKey(c, d)
    ensures a == c && b == d
  {
    IntToStringShape(a);
    IntToStringShape(c);
    CommaSplit(IntToString(a), IntToString(b), IntToString(c), IntToString(d));
    IntToStringInjective(a, c);
    IntToStringInjective(b, d);
  }

  /** The first parameter number handed out. */
  const FirstVariable := 2000

  /** `cellVariables` and `nextVariableNumber`, as a value. */
  datatype Table = Table(vars: map<string, int>, next: int)

  /** The allocator before the first cell. */
  const EmptyTable := Table(map[], FirstVariable)

  /**
   * Every id lies in `[2000, next)`, and no two keys share one. Together with
   * `GetKeyInjective` this gives each cell an id of its own.
   */
  predicate Valid(t: Table)
  {
    && t.next >= FirstVariable
    && (forall k :: k in t.vars ==> FirstVariable <= t.vars[k] < t.next)
    && (forall k, k' :: k in t.vars && k' in t.vars && k != k' ==> t.vars[k] != t.vars[k'])
  }

  /** `cellHasVariable`. */
  predicate HasVariable(t: Table, gx: int, gy: int)
  {
    GetKey(gx, gy) in t.vars
  }

  /** `cell_variable`, on a cell that has one (`operator[]` would otherwise insert a 0). */
  function Variable(t: Table, gx: int, gy: int): int
    requires HasVariable(t, gx, gy)
  {
    t.vars[GetKey(gx, gy)]
  }

  /** `ensure_cell_variable`: a cell without an id gets `next`, and `next` moves on by one. */
  function Ensure(t: Table, gx: int, gy: int): (r: Table)
    ensures HasVariable(r, gx, gy)
  {
    var key := GetKey(gx, gy);
    if key in t.vars then t else Table(t.vars[key := t.next], t.next + 1)
  }

  lemma EmptyValid()
    ensures Valid(EmptyTable) && forall gx, gy :: !HasVariable(EmptyTable, gx, gy)
  {
  }

  /** Ensuring a cell twice is ensuring it once. */
  lemma EnsureIdempotent(t: Table, gx: int, gy: int)
    ensures Ensure(Ensure(t, gx, gy), gx, gy) == Ensure(t, gx, gy)
  {
  }

  /**
   * A cell that already has an id keeps the table as it is; a new cell gets
   * `next`, the counter rises by exactly one, and the table stays valid.
   */
  lemma EnsureAllocates(t: Table, gx: int, gy: int)
    requires Valid(t)
    ensures var r := Ensure(t, gx, gy);
      && Valid(r)
      && (HasVariable(t, gx, gy) ==> r == t)
      && (!HasVariable(t, gx, gy) ==> Variable(r, gx, gy) == t.next && r.next == t.next + 1)
  {
    var r := Ensure(t, gx, gy);
    var key := GetKey(gx, gy);
    if key !in t.vars {
      forall k, k' | k in r.vars && k' in r.vars && k != k'
        ensures r.vars[k] != r.vars[k']
      {
        if k != key && k' != key {
          assert r.vars[k] == t.vars[k] && r.vars[k'] == t.vars[k'];
        }
      }
    }
  }

  /** The table only grows: no cell loses its id or gets another one. */
  lemma EnsureGrows(t: Table, gx: int, gy: int)
    ensures var r := Ensure(t, gx, gy);
      && t.next <= r.next
      && forall k :: k in t.vars ==> k in r.vars && r.vars[k] == t.vars[k]
  {
  }

  /** In a valid table, two different cells never share an id. */
  lemma DistinctCells(t: Table, a: int, b: int, c: int, d: int)
    requires Valid(t) && HasVariable(t, a, b) && HasVariable(t, c, d)
    requires a != c || b != d
    ensures Variable(t, a, b) != Variable(t, c, d)
  {
    if GetKey(a, b) == GetKey(c, d) {
      GetKeyInjective(a, b, c, d);
    }
  }
}
