/**
 * The scattering table of a component (a pandas DataFrame in the source):
 * an ordered list of column names and a list of rows. A row maps column
 * names to cells; a name a row has no entry for reads as a missing (NaN)
 * cell, as a freshly added pandas column does.
 */
module ScatteringTable {
  import opened Wrappers
  import opened Failures
  import opened Headers
  import opened Sequences

  /** A table cell: NaN, a number (frequency, gain in dB, numeric dependency) or a text value. */
  datatype Cell = Missing | Num(x: real) | Text(s: string)

  type Row = map<string, Cell>

  datatype Table = Table(columns: seq<string>, rows: seq<Row>)

  function Get(r: Row, c: string): Cell
  {
    if c in r then r[c] else Missing
  }

  /** pandas element-wise `==`: NaN equals nothing, not even NaN. */
  predicate Same(a: Cell, b: Cell)
  {
    !a.Missing? && a == b
  }

  function Column(t: Table, c: string): seq<Cell>
  {
    seq(|t.rows|, k requires 0 <= k < |t.rows| => Get(t.rows[k], c))
  }

  /** `set(column.dropna())`: the distinct non-missing values of a column. */
  function DistinctPresent(s: seq<Cell>): (r: seq<Cell>)
    ensures |r| <= |s|
    decreases |s|
  {
    if s == [] then []
    else
      var u := DistinctPresent(s[..|s| - 1]);
      var last := s[|s| - 1];
      if last.Missing? || last in u then u else u + [last]
  }

  /** The result is the set of the non-missing values: each of them, once. */
  lemma {:induction false} DistinctPresentIsSet(s: seq<Cell>)
    ensures forall x :: x in DistinctPresent(s) <==> x in s && !x.Missing?
    ensures NoDup(DistinctPresent(s))
    decreases |s|
  {
    if s != [] {
      DistinctPresentIsSet(s[..|s| - 1]);
      assert s == s[..|s| - 1] + [s[|s| - 1]];
    }
  }

  // ---------------------------------------------------------------------
  // Column classification

  /** GET_DEPENDENCIES: the one-line columns that are neither the frequency nor a gain column, in column order. */
  function Dependencies(columns: seq<string>): (r: seq<string>)
    ensures |r| <= |columns|
  {
    if columns == [] then []
    else
      var rest := Dependencies(columns[1..]);
      if IsDependency(columns[0]) then [columns[0]] + rest else rest
  }

  lemma {:induction false} DependenciesMembers(columns: seq<string>)
    ensures forall x :: x in Dependencies(columns) <==> x in columns && IsDependency(x)
  {
    if columns != [] {
      DependenciesMembers(columns[1..]);
      assert columns == [columns[0]] + columns[1..];
    }
  }

  /** The dependencies keep the order of the columns: with distinct column names, an earlier dependency stands at an earlier column. */
  lemma {:induction false} DependenciesInOrder(columns: seq<string>)
    ensures forall k :: 0 <= k < |Dependencies(columns)| ==> Dependencies(columns)[k] in columns
    ensures NoDup(columns) ==> NoDup(Dependencies(columns))
    ensures NoDup(columns) ==> forall i, j :: 0 <= i < j < |Dependencies(columns)| ==>
      IndexOf(columns, Dependencies(columns)[i]) < IndexOf(columns, Dependencies(columns)[j])
  {
    DependenciesMembers(columns);
    if NoDup(columns) && columns != [] {
      var rest := columns[1..];
      TailNoDup(columns);
      IndexOfTail(columns);
      DependenciesInOrder(rest);
      var d := Dependencies(rest);
      if IsDependency(columns[0]) {
        ConsInOrder(columns, d);
      }
    }
  }

  /** The columns matched against a per-hop table (Circuit.py:149): all but the two-digit gain columns and the names with an inner line break. */
  function CompareColumns(columns: seq<string>): (r: seq<string>)
    ensures |r| <= |columns|
  {
    if columns == [] then []
    else
      var rest := CompareColumns(columns[1..]);
      if IsCompared(columns[0]) then [columns[0]] + rest else rest
  }

  lemma {:induction false} CompareColumnsMembers(columns: seq<string>)
    ensures forall x :: x in CompareColumns(columns) <==> x in columns && IsCompared(x)
  {
    if columns != [] {
      CompareColumnsMembers(columns[1..]);
      assert columns == [columns[0]] + columns[1..];
    }
  }

  // ---------------------------------------------------------------------
  // Per-hop column selection and renaming (Circuit.py:125-127)

  function KeptColumns(columns: seq<string>, outPort: int, inPort: int): (r: seq<string>)
    ensures |r| <= |columns|
  {
    if columns == [] then []
    else
      var rest := KeptColumns(columns[1..], outPort, inPort);
      if KeptForHop(columns[0], outPort, inPort) then [columns[0]] + rest else rest
  }

  lemma {:induction false} KeptColumnsMembers(columns: seq<string>, outPort: int, inPort: int)
    ensures forall x :: x in KeptColumns(columns, outPort, inPort) <==> x in columns && KeptForHop(x, outPort, inPort)
  {
    if columns != [] {
      KeptColumnsMembers(columns[1..], outPort, inPort);
      assert columns == [columns[0]] + columns[1..];
    }
  }

  function KeptRow(r: Row, outPort: int, inPort: int): Row
  {
    map c | c in r && KeptForHop(c, outPort, inPort) :: r[c]
  }

  /** `filter(regex=...)` of Circuit.py:125: drop every two-digit gain column except S{out}{in}, and every name with an inner line break. */
  function SelectHop(t: Table, outPort: int, inPort: int): (r: Table)
    ensures |r.rows| == |t.rows|
  {
    Table(KeptColumns(t.columns, outPort, inPort),
          seq(|t.rows|, k requires 0 <= k < |t.rows| => KeptRow(t.rows[k], outPort, inPort)))
  }

  /** The selection keeps exactly the columns the filter matches, and in every row their entries. */
  lemma SelectHopShape(t: Table, outPort: int, inPort: int)
    ensures var r := SelectHop(t, outPort, inPort);
      forall x :: x in r.columns <==> x in t.columns && KeptForHop(x, outPort, inPort)
    ensures var r := SelectHop(t, outPort, inPort);
      forall k, c :: 0 <= k < |r.rows| ==>
        Get(r.rows[k], c) == if KeptForHop(c, outPort, inPort) then Get(t.rows[k], c) else Missing
  {
    KeptColumnsMembers(t.columns, outPort, inPort);
  }

  function RenameInRow(r: Row, from: string, to: string): Row
  {
    (r - {from})[to := Get(r, from)]
  }

  /** `rename(columns={from: to})`: a no-op when `from` is not a column. */
  function RenameColumn(t: Table, from: string, to: string): (r: Table)
    ensures from !in t.columns ==> r == t
    ensures |r.columns| == |t.columns| && |r.rows| == |t.rows|
  {
    if from !in t.columns then t
    else
      Table(seq(|t.columns|, k requires 0 <= k < |t.columns| => if t.columns[k] == from then to else t.columns[k]),
            seq(|t.rows|, k requires 0 <= k < |t.rows| => RenameInRow(t.rows[k], from, to)))
  }

  /** Renaming changes the one column's name and nothing else: every row keeps its entries. */
  lemma RenameColumnShape(t: Table, from: string, to: string)
    ensures from in t.columns ==> to in RenameColumn(t, from, to).columns
    ensures var r := RenameColumn(t, from, to);
      forall x :: x in r.columns && x != to ==> x in t.columns && x != from
    ensures var r := RenameColumn(t, from, to);
      from in t.columns ==> forall k :: 0 <= k < |r.rows| ==> Get(r.rows[k], to) == Get(t.rows[k], from)
    ensures var r := RenameColumn(t, from, to);
      from in t.columns ==> forall k, c :: 0 <= k < |r.rows| && c != from && c != to ==>
        Get(r.rows[k], c) == Get(t.rows[k], c)
  {
    if from in t.columns {
      var at := IndexOf(t.columns, from);
      assert RenameColumn(t, from, to).columns[at] == to;
    }
  }

  // ---------------------------------------------------------------------
  // Cartesian expansion over a new dependency (Circuit.py:133-147)

  /** Every row tagged with `v` in column `d`, as a column assignment does. */
  function Tagged(rows: seq<Row>, d: string, v: Cell): (r: seq<Row>)
    ensures |r| == |rows|
  {
    seq(|rows|, k requires 0 <= k < |rows| => rows[k][d := v])
  }

  /** The rows tagged with the first value, followed by a tagged copy per further value. */
  function ExpandedRows(rows: seq<Row>, d: string, values: seq<Cell>): seq<Row>
    decreases |values|
  {
    if |values| == 0 then []
    else ExpandedRows(rows, d, values[..|values| - 1]) + Tagged(rows, d, values[|values| - 1])
  }

  function ExpandTable(t: Table, d: string, values: seq<Cell>): Table
  {
    Table(t.columns + [d], ExpandedRows(t.rows, d, values))
  }

  /** The expansion multiplies the row count by the number of values. */
  lemma {:induction false} ExpandedRowsLength(rows: seq<Row>, d: string, values: seq<Cell>)
    ensures |ExpandedRows(rows, d, values)| == |values| * |rows|
    decreases |values|
  {
    if |values| > 0 {
      ExpandedRowsLength(rows, d, values[..|values| - 1]);
      assert (|values| - 1) * |rows| + |rows| == |values| * |rows|;
    }
  }

  /** Row `j * n + k` of the expansion is original row `k` tagged with value `j`, every other column unchanged. */
  lemma {:induction false} ExpandedRowAt(rows: seq<Row>, d: string, values: seq<Cell>, j: nat, k: nat)
    requires j < |values| && k < |rows|
    ensures j * |rows| + k < |ExpandedRows(rows, d, values)|
    ensures ExpandedRows(rows, d, values)[j * |rows| + k] == rows[k][d := values[j]]
    ensures forall c :: c != d ==> Get(ExpandedRows(rows, d, values)[j * |rows| + k], c) == Get(rows[k], c)
    decreases |values|
  {
    ExpandedRowsLength(rows, d, values);
    var front := values[..|values| - 1];
    ExpandedRowsLength(rows, d, front);
    assert ExpandedRows(rows, d, values) == ExpandedRows(rows, d, front) + Tagged(rows, d, values[|values| - 1]);
    if j < |values| - 1 {
      ExpandedRowAt(rows, d, front, j, k);
      assert j * |rows| + k < |front| * |rows| by {
        assert j * |rows| <= (|front| - 1) * |rows|;
        assert (|front| - 1) * |rows| + |rows| == |front| * |rows|;
      }
    } else {
      assert j * |rows| == |front| * |rows|;
    }
  }

  /** Every row of the expansion is an original row tagged with one of the values, and conversely. */
  lemma {:induction false} ExpandedRowsMembership(rows: seq<Row>, d: string, values: seq<Cell>, x: Row)
    ensures x in ExpandedRows(rows, d, values) <==>
      exists j, k :: 0 <= j < |values| && 0 <= k < |rows| && x == rows[k][d := values[j]]
    decreases |values|
  {
    if |values| > 0 {
      var front := values[..|values| - 1];
      ExpandedRowsMembership(rows, d, front, x);
      var last := values[|values| - 1];
      assert ExpandedRows(rows, d, values) == ExpandedRows(rows, d, front) + Tagged(rows, d, last);
      if x in Tagged(rows, d, last) {
        var k :| 0 <= k < |rows| && Tagged(rows, d, last)[k] == x;
        assert x == rows[k][d := values[|values| - 1]];
      }
      if exists j, k :: 0 <= j < |values| && 0 <= k < |rows| && x == rows[k][d := values[j]] {
        var j, k :| 0 <= j < |values| && 0 <= k < |rows| && x == rows[k][d := values[j]];
        if j < |values| - 1 {
          assert x == rows[k][d := front[j]];
        } else {
          assert Tagged(rows, d, last)[k] == x;
        }
      }
    }
  }

  /** Expansion of one dependency as the source does it: tag with the first value, then concatenate a copy per further value. */
  method ExpandDependency(t: Table, d: string, values: seq<Cell>) returns (r: Table)
    requires |values| > 0
    ensures r == ExpandTable(t, d, values)
  {
    // Circuit.py:137: a new column holding the first value in every row.
    r := Table(t.columns + [d], Tagged(t.rows, d, values[0]));
    assert values[..1] == [values[0]];
    assert ExpandedRows(t.rows, d, values[..1]) == Tagged(t.rows, d, values[0]);
    var mockup := r;
    var i := 1;
    while i < |values|
      invariant 1 <= i <= |values|
      invariant r == Table(t.columns + [d], ExpandedRows(t.rows, d, values[..i]))
      invariant mockup.rows == Tagged(t.rows, d, values[i - 1])
    {
      // Circuit.py:143: the copy's rows, retagged with the next value.
      mockup := Table(mockup.columns, Tagged(mockup.rows, d, values[i]));
      assert mockup.rows == Tagged(t.rows, d, values[i]) by {
        forall k | 0 <= k < |t.rows| ensures mockup.rows[k] == t.rows[k][d := values[i]] {
          assert t.rows[k][d := values[i - 1]][d := values[i]] == t.rows[k][d := values[i]];
        }
      }
      // Circuit.py:144: the retagged copy goes below the rows so far.
      r := Table(r.columns, r.rows + mockup.rows);
      assert values[..i + 1][..i] == values[..i];
      i := i + 1;
    }
    assert values[..i] == values;
  }

  /**
   * Circuit.py:133, the set difference of the two dependency lists: the
   * dependencies of the per-hop table that the accumulator has no column
   * for, each once, in the per-hop table's column order.
   */
  function NewDependencies(selection: seq<string>, accumulator: seq<string>): (r: seq<string>)
    ensures |r| <= |selection|
    decreases |selection|
  {
    if selection == [] then []
    else
      var front, last := selection[..|selection| - 1], selection[|selection| - 1];
      var r := NewDependencies(front, accumulator);
      if IsDependency(last) && last !in accumulator && last !in r then r + [last] else r
  }

  /** The result is the set difference: each new dependency, once. */
  lemma {:induction false} NewDependenciesIsSet(selection: seq<string>, accumulator: seq<string>)
    ensures forall x :: x in NewDependencies(selection, accumulator) <==>
      x in selection && IsDependency(x) && x !in accumulator
    ensures NoDup(NewDependencies(selection, accumulator))
    decreases |selection|
  {
    if selection != [] {
      NewDependenciesIsSet(selection[..|selection| - 1], accumulator);
      assert selection == selection[..|selection| - 1] + [selection[|selection| - 1]];
    }
  }

  function ValuesOf(sel: Table, d: string): seq<Cell>
  {
    DistinctPresent(Column(sel, d))
  }

  /** The accumulator expanded over each dependency of `deps` in turn, failing on the first one without values. */
  function ExpandAll(acc: Table, sel: Table, deps: seq<string>): Result<Table, Failure>
    decreases |deps|
  {
    if deps == [] then Ok(acc)
    else
      var values := ValuesOf(sel, deps[0]);
      if values == [] then Err(EmptyDependency(deps[0]))
      else ExpandAll(ExpandTable(acc, deps[0], values), sel, deps[1..])
  }

  /** Circuit.py:133-144: fold every dependency new to the accumulator into it. */
  function ExpandNew(acc: Table, sel: Table): Result<Table, Failure>
  {
    ExpandAll(acc, sel, NewDependencies(sel.columns, acc.columns))
  }

  /** The product of the numbers of values of the dependencies. */
  function RowFactor(sel: Table, deps: seq<string>): nat
  {
    if deps == [] then 1 else |ValuesOf(sel, deps[0])| * RowFactor(sel, deps[1..])
  }

  /** Expansion succeeds exactly when every dependency has a non-missing value. */
  lemma {:induction false} ExpandAllSucceeds(acc: Table, sel: Table, deps: seq<string>)
    ensures ExpandAll(acc, sel, deps).Ok? <==> forall i :: 0 <= i < |deps| ==> ValuesOf(sel, deps[i]) != []
    decreases |deps|
  {
    if deps != [] {
      var values := ValuesOf(sel, deps[0]);
      ExpandAllSucceeds(ExpandTable(acc, deps[0], values), sel, deps[1..]);
      assert forall i :: 1 <= i < |deps| ==> deps[1..][i - 1] == deps[i];
    }
  }

  /**
   * A successful expansion appends the dependencies as columns and
   * multiplies the row count by the product of their numbers of values.
   */
  lemma {:induction false} ExpandAllShape(acc: Table, sel: Table, deps: seq<string>)
    requires ExpandAll(acc, sel, deps).Ok?
    ensures ExpandAll(acc, sel, deps).value.columns == acc.columns + deps
    ensures |ExpandAll(acc, sel, deps).value.rows| == |acc.rows| * RowFactor(sel, deps)
    decreases |deps|
  {
    if deps != [] {
      var values := ValuesOf(sel, deps[0]);
      var next := ExpandTable(acc, deps[0], values);
      ExpandAllShape(next, sel, deps[1..]);
      ExpandedRowsLength(acc.rows, deps[0], values);
      assert acc.columns + deps == next.columns + deps[1..];
      MulRotate(|acc.rows|, |values|, RowFactor(sel, deps[1..]));
    }
  }

  lemma MulRotate(a: nat, b: nat, c: nat)
    ensures (b * a) * c == a * (b * c)
  {
  }

  /** The expansion loop of Circuit.py:133-144, one call of ExpandDependency per new dependency. */
  method ExpandNewDependencies(acc: Table, sel: Table) returns (r: Result<Table, Failure>)
    ensures r == ExpandNew(acc, sel)
  {
    var deps := NewDependencies(sel.columns, acc.columns);
    var t := acc;
    for i := 0 to |deps|
      invariant ExpandAll(t, sel, deps[i..]) == ExpandNew(acc, sel)
    {
      assert deps[i..][1..] == deps[i + 1..];
      var values := DistinctPresent(Column(sel, deps[i]));
      if values == [] {
        return Err(EmptyDependency(deps[i]));
      }
      t := ExpandDependency(t, deps[i], values);
    }
    r := Ok(t);
  }

  // ---------------------------------------------------------------------
  // dB accumulation (Circuit.py:149-164)

  /** `float(cell)` / `isnan(cell)`: NaN is a missing gain, text is refused. */
  function GainOf(c: Cell, name: string): Result<Option<real>, Failure>
  {
    match c
    case Missing => Ok(None)
    case Num(x) => Ok(Some(x))
    case Text(_) => Err(NonNumericGain(name))
  }

  /** Adding a per-hop dB value into a running total; a missing value on either side is skipped. */
  function Combine(current: Option<real>, added: Option<real>): Option<real>
  {
    match added
    case None => current
    case Some(a) =>
      match current
      case None => Some(a)
      case Some(c) => Some(c + a)
  }

  /** The per-hop row agrees with the accumulator row on every compared column the per-hop table has. */
  predicate Matches(candidate: Row, row: Row, compare: seq<string>, selColumns: seq<string>)
  {
    forall c :: c in compare && c in selColumns ==> Same(Get(candidate, c), Get(row, c))
  }

  /** The first candidate row that survives the successive `loc` filters of Circuit.py:154-156. */
  function FirstMatch(candidates: seq<Row>, row: Row, compare: seq<string>, selColumns: seq<string>): (r: Option<nat>)
    ensures r.Some? ==> r.value < |candidates|
  {
    if candidates == [] then None
    else if Matches(candidates[0], row, compare, selColumns) then Some(0)
    else
      match FirstMatch(candidates[1..], row, compare, selColumns)
      case None => None
      case Some(k) => Some(k + 1)
  }

  /** FirstMatch finds the first matching row, and finds none exactly when no row matches. */
  lemma {:induction false} FirstMatchIsFirst(candidates: seq<Row>, row: Row, compare: seq<string>, selColumns: seq<string>)
    ensures var r := FirstMatch(candidates, row, compare, selColumns);
      (r.Some? ==> Matches(candidates[r.value], row, compare, selColumns)) &&
      (r.Some? ==> forall k :: 0 <= k < r.value ==> !Matches(candidates[k], row, compare, selColumns)) &&
      (r.None? ==> forall k :: 0 <= k < |candidates| ==> !Matches(candidates[k], row, compare, selColumns))
    decreases |candidates|
  {
    if candidates != [] && !Matches(candidates[0], row, compare, selColumns) {
      FirstMatchIsFirst(candidates[1..], row, compare, selColumns);
    }
  }

  /** One iteration of the row loop of Circuit.py:152-164. */
  function AccumulateRow(row: Row, columns: seq<string>, sel: Table, name: string): Result<Row, Failure>
  {
    if name !in columns then Err(MissingColumn(name))
    else
      var current :- GainOf(Get(row, name), name);
      if name !in sel.columns then Err(MissingColumn(name))
      else
        match FirstMatch(sel.rows, row, CompareColumns(columns), sel.columns)
        case None => Err(NoMatchingRow(name))
        case Some(k) =>
          var added :- GainOf(Get(sel.rows[k], name), name);
          if added.None? then Ok(row) else Ok(row[name := Num(Combine(current, added).value)])
  }

  /** The first `m` rows of the accumulator after accumulation, or the first row's failure. */
  function AccumulatePrefix(acc: Table, sel: Table, name: string, m: nat): Result<seq<Row>, Failure>
    requires m <= |acc.rows|
  {
    if m == 0 then Ok([])
    else
      var prev :- AccumulatePrefix(acc, sel, name, m - 1);
      var row :- AccumulateRow(acc.rows[m - 1], acc.columns, sel, name);
      Ok(prev + [row])
  }

  function AccumulateTable(acc: Table, sel: Table, name: string): Result<Table, Failure>
  {
    var rows :- AccumulatePrefix(acc, sel, name, |acc.rows|);
    Ok(Table(acc.columns, rows))
  }

  lemma {:induction false} AccumulatePrefixFails(acc: Table, sel: Table, name: string, m: nat, n: nat)
    requires m <= n <= |acc.rows| && AccumulatePrefix(acc, sel, name, m).Err?
    ensures AccumulatePrefix(acc, sel, name, n) == AccumulatePrefix(acc, sel, name, m)
    decreases n - m
  {
    if m < n {
      AccumulatePrefixFails(acc, sel, name, m, n - 1);
    }
  }

  /** A total written back as a cell: a missing total stays NaN. */
  function OptionCell(o: Option<real>): Cell
  {
    if o.Some? then Num(o.value) else Missing
  }

  /**
   * What one row step writes: only the entry `name` changes, and it becomes
   * the current entry combined with the entry of the first matching row of
   * the per-hop table.
   */
  lemma AccumulateRowWrites(row: Row, columns: seq<string>, sel: Table, name: string)
    requires AccumulateRow(row, columns, sel, name).Ok?
    ensures name in columns && name in sel.columns
    ensures FirstMatch(sel.rows, row, CompareColumns(columns), sel.columns).Some?
    ensures var k := FirstMatch(sel.rows, row, CompareColumns(columns), sel.columns).value;
      var current := GainOf(Get(row, name), name);
      var added := GainOf(Get(sel.rows[k], name), name);
      var r := AccumulateRow(row, columns, sel, name).value;
      current.Ok? && added.Ok? &&
      Get(r, name) == OptionCell(Combine(current.value, added.value)) &&
      forall c :: c != name ==> Get(r, c) == Get(row, c)
  {
  }

  /** A successful accumulation keeps the columns and the rows, each row stepped on its own. */
  lemma {:induction false} AccumulatePrefixRows(acc: Table, sel: Table, name: string, m: nat)
    requires m <= |acc.rows| && AccumulatePrefix(acc, sel, name, m).Ok?
    ensures |AccumulatePrefix(acc, sel, name, m).value| == m
    ensures forall k :: 0 <= k < m ==>
      AccumulateRow(acc.rows[k], acc.columns, sel, name) == Ok(AccumulatePrefix(acc, sel, name, m).value[k])
  {
    if m > 0 {
      AccumulatePrefixRows(acc, sel, name, m - 1);
    }
  }

  /** The row loop of Circuit.py:152-164, writing each row's entry in place. */
  method AccumulateHop(acc: Table, sel: Table, name: string) returns (r: Result<Table, Failure>)
    ensures r == AccumulateTable(acc, sel, name)
  {
    var rows := acc.rows;
    for index := 0 to |acc.rows|
      invariant |rows| == |acc.rows|
      invariant AccumulatePrefix(acc, sel, name, index) == Ok(rows[..index])
      invariant forall k :: index <= k < |rows| ==> rows[k] == acc.rows[k]
    {
      var updated := AccumulateRow(rows[index], acc.columns, sel, name);
      AccumulateNext(acc, sel, name, index, rows[..index], updated);
      if updated.Err? {
        return Err(updated.error);
      }
      rows := rows[index := updated.value];
      assert rows[..index + 1] == rows[..index] + [updated.value];
    }
    assert rows[..|acc.rows|] == rows;
    r := Ok(Table(acc.columns, rows));
  }

  /** After a row step: the loop goes on with the updated row, or the accumulation fails with the step's error. */
  lemma AccumulateNext(acc: Table, sel: Table, name: string, m: nat, done: seq<Row>, updated: Result<Row, Failure>)
    requires m < |acc.rows| && AccumulatePrefix(acc, sel, name, m) == Ok(done)
    requires updated == AccumulateRow(acc.rows[m], acc.columns, sel, name)
    ensures updated.Ok? ==> AccumulatePrefix(acc, sel, name, m + 1) == Ok(done + [updated.value])
    ensures updated.Err? ==> AccumulateTable(acc, sel, name) == Err(updated.error)
  {
    if updated.Err? {
      AccumulatePrefixFails(acc, sel, name, m + 1, |acc.rows|);
    }
  }

  /** The dB value a cell holds; NaN (and text, which the row step refuses) give none. */
  function CellGain(c: Cell): Option<real>
  {
    if c.Num? then Some(c.x) else None
  }

  /** The gain a hop adds to a row: the `name` entry of the first per-hop row matching it, if there is one. */
  function HopGain(sel: Table, row: Row, columns: seq<string>, name: string): Option<real>
  {
    match FirstMatch(sel.rows, row, CompareColumns(columns), sel.columns)
    case None => None
    case Some(j) => CellGain(Get(sel.rows[j], name))
  }

  /** Rows that agree on the compared columns find the same first match. */
  lemma {:induction false} FirstMatchAgrees(candidates: seq<Row>, row: Row, other: Row, compare: seq<string>, selColumns: seq<string>)
    requires forall c :: c in compare ==> Get(row, c) == Get(other, c)
    ensures FirstMatch(candidates, row, compare, selColumns) == FirstMatch(candidates, other, compare, selColumns)
    decreases |candidates|
  {
    if candidates != [] {
      assert Matches(candidates[0], row, compare, selColumns) == Matches(candidates[0], other, compare, selColumns);
      FirstMatchAgrees(candidates[1..], row, other, compare, selColumns);
    }
  }

  /**
   * One accumulation into a two-digit gain column `name`: the columns and
   * the row count stay, every other entry of row k stays, and the entry
   * `name` becomes its value combined with the hop's gain for that row.
   */
  lemma AccumulateTableAt(acc: Table, sel: Table, name: string, k: nat)
    requires AccumulateTable(acc, sel, name).Ok? && k < |acc.rows|
    ensures var r := AccumulateTable(acc, sel, name).value;
      r.columns == acc.columns && |r.rows| == |acc.rows| &&
      GainOf(Get(acc.rows[k], name), name) == Ok(CellGain(Get(acc.rows[k], name))) &&
      Get(r.rows[k], name) == OptionCell(Combine(CellGain(Get(acc.rows[k], name)), HopGain(sel, acc.rows[k], acc.columns, name))) &&
      forall c :: c != name ==> Get(r.rows[k], c) == Get(acc.rows[k], c)
  {
    AccumulatePrefixRows(acc, sel, name, |acc.rows|);
    AccumulateRowWrites(acc.rows[k], acc.columns, sel, name);
  }

  /** Writing a total back and reading it again gives the total. */
  lemma OptionCellGain(o: Option<real>, name: string)
    ensures CellGain(OptionCell(o)) == o && GainOf(OptionCell(o), name) == Ok(o)
  {
  }

  // ---------------------------------------------------------------------
  // Additivity along a cascade

  /** The running total after adding the per-hop values one hop at a time. */
  function Cascade(current: Option<real>, values: seq<Option<real>>): Option<real>
    decreases |values|
  {
    if values == [] then current
    else Combine(Cascade(current, values[..|values| - 1]), values[|values| - 1])
  }

  predicate AnyPresent(values: seq<Option<real>>)
  {
    exists k :: 0 <= k < |values| && values[k].Some?
  }

  /** The sum of the present values (a missing value contributes nothing). */
  function PresentSum(values: seq<Option<real>>): real
  {
    if values == [] then 0.0
    else PresentSum(values[1..]) + (if values[0].Some? then values[0].value else 0.0)
  }

  lemma {:induction false} PresentSumSnoc(values: seq<Option<real>>, v: Option<real>)
    ensures PresentSum(values + [v]) == PresentSum(values) + (if v.Some? then v.value else 0.0)
    decreases |values|
  {
    if values != [] {
      assert (values + [v])[1..] == values[1..] + [v];
      PresentSumSnoc(values[1..], v);
    }
  }

  /**
   * Cascade additivity: the entry after a path is the sum, in dB, of the
   * present per-hop values (and of the entry's own earlier value if it had
   * one); it stays missing only when every per-hop value is missing.
   */
  lemma {:induction false} CascadeIsSum(current: Option<real>, values: seq<Option<real>>)
    ensures !AnyPresent(values) ==> Cascade(current, values) == current
    ensures AnyPresent(values) ==>
      Cascade(current, values) == Some((if current.Some? then current.value else 0.0) + PresentSum(values))
    decreases |values|
  {
    if values != [] {
      var front, last := values[..|values| - 1], values[|values| - 1];
      CascadeIsSum(current, front);
      assert values == front + [last];
      PresentSumSnoc(front, last);
      AnyPresentSnoc(front, last);
      if !AnyPresent(front) {
        assert PresentSum(front) == 0.0 by { NoPresentSumsToZero(front); }
      }
    }
  }

  lemma AnyPresentSnoc(front: seq<Option<real>>, last: Option<real>)
    ensures AnyPresent(front + [last]) <==> AnyPresent(front) || last.Some?
  {
    var values := front + [last];
    if AnyPresent(values) {
      var k :| 0 <= k < |values| && values[k].Some?;
      if k < |front| { assert front[k].Some?; }
    }
    if AnyPresent(front) {
      var k :| 0 <= k < |front| && front[k].Some?;
      assert values[k].Some?;
    }
    if last.Some? {
      assert values[|front|].Some?;
    }
  }

  lemma {:induction false} NoPresentSumsToZero(values: seq<Option<real>>)
    requires !AnyPresent(values)
    ensures PresentSum(values) == 0.0
    decreases |values|
  {
    if values != [] {
      assert !values[0].Some?;
      NoPresentSumsToZero(values[1..]);
    }
  }
}
