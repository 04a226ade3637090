/**
 * The pandas DataFrames the console passes around: named columns in order,
 * and rows that map every column name to a cell.
 */
module Tables {
  import opened Strings

  /** One DataFrame cell: a string, an integer, or NaN. */
  datatype Cell = Str(s: string) | Int(i: int) | Missing

  type Row = map<string, Cell>

  datatype Table = Table(columns: seq<string>, rows: seq<Row>)

  function ColumnSet(columns: seq<string>): (r: set<string>)
    ensures forall c :: c in r <==> c in columns
  {
    set c | c in columns
  }

  predicate NoDuplicates(s: seq<string>) {
    forall i, j :: 0 <= i < j < |s| ==> s[i] != s[j]
  }

  /** No name of a is a name of b. */
  predicate Disjoint(a: seq<string>, b: seq<string>) {
    forall i, j :: 0 <= i < |a| && 0 <= j < |b| ==> a[i] != b[j]
  }

  /** Two duplicate-free lists with no name in common make a duplicate-free list. */
  lemma NoDuplicatesAppend(a: seq<string>, b: seq<string>)
    requires NoDuplicates(a) && NoDuplicates(b) && Disjoint(a, b)
    ensures NoDuplicates(a + b)
  {
    forall i, j | 0 <= i < j < |a + b| ensures (a + b)[i] != (a + b)[j] {
      if i >= |a| {
        assert (a + b)[i] == b[i - |a|] && (a + b)[j] == b[j - |a|];
      } else if j >= |a| {
        assert (a + b)[j] == b[j - |a|];
      }
    }
  }

  lemma DisjointAppend(a: seq<string>, b: seq<string>, c: seq<string>)
    requires Disjoint(a, c) && Disjoint(b, c)
    ensures Disjoint(a + b, c)
  {
    forall i, j | 0 <= i < |a + b| && 0 <= j < |c| ensures (a + b)[i] != c[j] {
      if i >= |a| {
        assert (a + b)[i] == b[i - |a|];
      }
    }
  }

  /** Column names are distinct and every row has a cell for exactly those columns. */
  predicate WellFormed(t: Table) {
    && NoDuplicates(t.columns)
    && forall i :: 0 <= i < |t.rows| ==> t.rows[i].Keys == ColumnSet(t.columns)
  }

  /** `str(value)` of a cell, as the csv writer and `.astype(str)` render it. */
  function CellText(c: Cell): string {
    match c
    case Str(s) => s
    case Int(i) => IntToString(i)
    case Missing => "nan"
  }

  /** A frame with the given columns and no rows (`pd.DataFrame(columns=...)`, `df.iloc[0:0]`). */
  function EmptyTable(columns: seq<string>): (t: Table)
    requires NoDuplicates(columns)
    ensures WellFormed(t) && t.rows == [] && t.columns == columns
  {
    Table(columns, [])
  }

  /** The column list after `df[name] = ...`: unchanged when the column exists, else name on the right. */
  function WithColumn(columns: seq<string>, name: string): (r: seq<string>)
    ensures |columns| <= |r| && r[..|columns|] == columns
  {
    if name in columns then columns else columns + [name]
  }

  /**
   * `df[name] = values`: an existing column is overwritten in place, a new one
   * is appended on the right; every other cell is untouched.
   */
  function SetColumn(t: Table, name: string, values: seq<Cell>): (r: Table)
    requires WellFormed(t) && |values| == |t.rows|
    ensures WellFormed(r)
    ensures r.columns == WithColumn(t.columns, name)
    ensures |r.rows| == |t.rows|
    ensures forall i :: 0 <= i < |t.rows| ==> r.rows[i][name] == values[i]
    ensures forall i, c :: 0 <= i < |t.rows| && c in t.columns && c != name ==> r.rows[i][c] == t.rows[i][c]
  {
    var cols := WithColumn(t.columns, name);
    assert ColumnSet(cols) == ColumnSet(t.columns) + {name};
    Table(cols, seq(|t.rows|, i requires 0 <= i < |t.rows| => t.rows[i][name := values[i]]))
  }

  /**
   * `df.loc[len(df)] = d`: a new last row aligned on the frame's columns; keys of
   * d that are not columns are dropped and columns d lacks hold NaN.
   */
  function AppendRow(t: Table, d: map<string, Cell>): (r: Table)
    requires WellFormed(t)
    ensures WellFormed(r)
    ensures r.columns == t.columns
    ensures |r.rows| == |t.rows| + 1 && r.rows[..|t.rows|] == t.rows
    ensures forall c :: c in t.columns ==> r.rows[|t.rows|][c] == if c in d then d[c] else Missing
  {
    var row := map c | c in ColumnSet(t.columns) :: if c in d then d[c] else Missing;
    Table(t.columns, t.rows + [row])
  }

  /** Every row has a cell in column col. */
  predicate HasColumn(rows: seq<Row>, col: string) {
    forall i :: 0 <= i < |rows| ==> col in rows[i]
  }

  /** A column of a well-formed frame has a cell in every row. */
  lemma ColumnInRows(t: Table, col: string)
    requires WellFormed(t) && col in t.columns
    ensures HasColumn(t.rows, col)
  {
    assert col in ColumnSet(t.columns);
  }

  /** `(df[col] <test>).sum()`: the number of rows whose cell in col passes p. */
  function CountRows(rows: seq<Row>, col: string, p: Cell -> bool): (n: nat)
    requires HasColumn(rows, col)
    ensures n <= |rows|
  {
    if rows == [] then 0
    else
      CountRows(rows[..|rows| - 1], col, p) + if p(rows[|rows| - 1][col]) then 1 else 0
  }

  /** No row passes exactly when the count is 0; every row passes exactly when it is the row count. */
  lemma {:induction false} CountRowsExtremes(rows: seq<Row>, col: string, p: Cell -> bool)
    requires HasColumn(rows, col)
    ensures CountRows(rows, col, p) == 0 <==> forall i :: 0 <= i < |rows| ==> !p(rows[i][col])
    ensures CountRows(rows, col, p) == |rows| <==> forall i :: 0 <= i < |rows| ==> p(rows[i][col])
  {
    if rows != [] {
      var init := rows[..|rows| - 1];
      CountRowsLast(rows, col, p);
      CountRowsExtremes(init, col, p);
      assert forall i :: 0 <= i < |init| ==> init[i] == rows[i];
    }
  }

  /** The count is the number of row positions whose cell in col passes p. */
  lemma {:induction false} CountRowsIsCardinality(rows: seq<Row>, col: string, p: Cell -> bool)
    requires HasColumn(rows, col)
    ensures CountRows(rows, col, p) == |set i | 0 <= i < |rows| && p(rows[i][col])|
  {
    if rows != [] {
      var init := rows[..|rows| - 1];
      var last := |rows| - 1;
      CountRowsIsCardinality(init, col, p);
      var before := set i | 0 <= i < |init| && p(init[i][col]);
      var after := set i | 0 <= i < |rows| && p(rows[i][col]);
      var added: set<int> := if p(rows[last][col]) then {last} else {};
      forall i ensures i in after <==> i in before || i in added {
        if 0 <= i < |init| {
          assert init[i] == rows[i];
        }
      }
      assert after == before + added;
      assert last !in before;
      assert |added| == if p(rows[last][col]) then 1 else 0;
      CountRowsLast(rows, col, p);
    }
  }

  /** The last row adds 1 to the count of the rows before it exactly when its cell passes. */
  lemma CountRowsLast(rows: seq<Row>, col: string, p: Cell -> bool)
    requires rows != [] && HasColumn(rows, col)
    ensures HasColumn(rows[..|rows| - 1], col)
    ensures CountRows(rows, col, p) == CountRows(rows[..|rows| - 1], col, p) + if p(rows[|rows| - 1][col]) then 1 else 0
  {
  }

  /** Counting over two blocks of rows is counting each block and adding. */
  lemma {:induction false} CountRowsAppend(a: seq<Row>, b: seq<Row>, col: string, p: Cell -> bool)
    requires HasColumn(a, col) && HasColumn(b, col)
    ensures HasColumn(a + b, col)
    ensures CountRows(a + b, col, p) == CountRows(a, col, p) + CountRows(b, col, p)
  {
    if b == [] {
      assert a + b == a;
    } else {
      var init, last := b[..|b| - 1], b[|b| - 1];
      assert HasColumn(init, col);
      CountRowsAppend(a, init, col, p);
      var ab := a + b;
      assert ab[..|ab| - 1] == a + init && ab[|ab| - 1] == last;
      CountRowsLast(ab, col, p);
      CountRowsLast(b, col, p);
    }
  }

  /** One row counts 1 exactly when its cell passes. */
  lemma CountRowsSingle(r: Row, col: string, p: Cell -> bool)
    requires col in r
    ensures CountRows([r], col, p) == if p(r[col]) then 1 else 0
  {
    assert [r][..0] == [];
  }

  /** Counts under tests no cell passes twice add up to at most the row count. */
  lemma {:induction false} ExclusiveCountsBounded(rows: seq<Row>, col: string, p: Cell -> bool, q: Cell -> bool, r: Cell -> bool)
    requires HasColumn(rows, col)
    requires forall c :: !(p(c) && q(c)) && !(p(c) && r(c)) && !(q(c) && r(c))
    ensures CountRows(rows, col, p) + CountRows(rows, col, q) + CountRows(rows, col, r) <= |rows|
  {
    if rows != [] {
      ExclusiveCountsBounded(rows[..|rows| - 1], col, p, q, r);
    }
  }
}
