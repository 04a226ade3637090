/**
 * The session log viewer of `pages/session_logs.py`: severity counts over a
 * saved session table, and the display table with protocol names, severity
 * badges and a fixed column order.
 */
module SessionLogs {
  import opened Wrappers
  import opened Strings
  import opened Tables
  import opened Ordering

  const SeverityColumn := "severity"
  const ProtocolColumn := "protocol_type"

  const HighBadge := "\U{1F534} High"
  const MediumBadge := "\U{1F7E0} Medium"
  const LowBadge := "\U{1F7E2} Low"

  /** `PROTOCOL_MAP.get(x, "OTHER")`: the codes 1, 2 and 3 are named, anything else is OTHER. */
  function ProtocolName(c: Cell): (r: string)
    ensures r == "TCP" <==> c == Int(1)
    ensures r == "UDP" <==> c == Int(2)
    ensures r == "ICMP" <==> c == Int(3)
    ensures r == "OTHER" <==> c != Int(1) && c != Int(2) && c != Int(3)
  {
    if c == Int(1) then "TCP"
    else if c == Int(2) then "UDP"
    else if c == Int(3) then "ICMP"
    else "OTHER"
  }

  /** `severity_badge`: "High" and "Medium" are decorated, every other value gets the Low badge. */
  function SeverityBadge(c: Cell): (r: string)
    ensures r == HighBadge <==> c == Str("High")
    ensures r == MediumBadge <==> c == Str("Medium")
    ensures r == LowBadge <==> c != Str("High") && c != Str("Medium")
  {
    if c == Str("High") then HighBadge
    else if c == Str("Medium") then MediumBadge
    else LowBadge
  }

  /** `preferred_order`. */
  const PreferredOrder := ["timestamp", "packet", "duration", "protocol_type", "service", "flag",
                           "src_bytes", "dst_bytes", "count", "srv_count", "attack", "severity", "confidence"]

  /** `[c for c in order if c in present]`. */
  function KeepPresent(order: seq<string>, present: set<string>): (r: seq<string>)
    ensures |r| <= |order|
    ensures forall c :: c in r <==> c in order && c in present
  {
    if order == [] then []
    else (if order[0] in present then [order[0]] else []) + KeepPresent(order[1..], present)
  }

  /** KeepPresent keeps the order it was given. */
  lemma {:induction false} KeepPresentIsSubsequence(order: seq<string>, present: set<string>)
    ensures IsSubsequence(KeepPresent(order, present), order)
    decreases |order|
  {
    if order != [] {
      KeepPresentIsSubsequence(order[1..], present);
      var r := KeepPresent(order, present);
      if order[0] in present {
        assert r[0] == order[0] && r[1..] == KeepPresent(order[1..], present);
      } else {
        assert r == KeepPresent(order[1..], present);
      }
    }
  }

  /** KeepPresent repeats no column when the order repeats none. */
  lemma {:induction false} KeepPresentNoDuplicates(order: seq<string>, present: set<string>)
    requires NoDuplicates(order)
    ensures NoDuplicates(KeepPresent(order, present))
    decreases |order|
  {
    if order != [] {
      assert NoDuplicates(order[1..]) by {
        forall i, j | 0 <= i < j < |order[1..]| ensures order[1..][i] != order[1..][j] {
          assert order[1..][i] == order[i + 1] && order[1..][j] == order[j + 1];
        }
      }
      KeepPresentNoDuplicates(order[1..], present);
      var rest := KeepPresent(order[1..], present);
      assert order[0] !in order[1..] by {
        forall k | 0 <= k < |order[1..]| ensures order[1..][k] != order[0] {
          assert order[1..][k] == order[k + 1];
        }
      }
      assert order[0] !in rest;
    }
  }

  /**
   * `existing_cols`: exactly the preferred columns the table has, in the
   * preferred order, each once.
   */
  function DisplayColumns(columns: seq<string>): (r: seq<string>)
    ensures forall c :: c in r <==> c in PreferredOrder && c in columns
    ensures IsSubsequence(r, PreferredOrder)
    ensures NoDuplicates(r)
  {
    var r := KeepPresent(PreferredOrder, ColumnSet(columns));
    KeepPresentIsSubsequence(PreferredOrder, ColumnSet(columns));
    PreferredOrderDistinct();
    KeepPresentNoDuplicates(PreferredOrder, ColumnSet(columns));
    r
  }

  /** The severity KPI cards. */
  datatype Kpis = Kpis(total: nat, high: nat, medium: nat, low: nat)

  /** `severity_col == level` after `.astype(str)`. */
  predicate TextIsHigh(c: Cell) { CellText(c) == "High" }
  predicate TextIsMedium(c: Cell) { CellText(c) == "Medium" }
  predicate TextIsLow(c: Cell) { CellText(c) == "Low" }

  /** The text of a cell names a level only when the cell is that string. */
  lemma LevelTextIsString(c: Cell, level: string)
    requires level == "High" || level == "Medium" || level == "Low"
    ensures CellText(c) == level <==> c == Str(level)
  {
    if c.Int? {
      var t := CellText(c);
      if c.i < 0 {
        assert t[0] == '-';
      } else {
        assert IsDigit(t[0]);
      }
    }
  }

  /** A session table whose severity column exists, as `session_df["severity"]` needs. */
  predicate Viewable(t: Table) {
    WellFormed(t) && SeverityColumn in t.columns
  }

  /** The four KPI cards: rows, and rows whose severity text is High, Medium or Low. */
  function SessionKpis(t: Table): (k: Kpis)
    requires Viewable(t)
    ensures k.total == |t.rows|
    ensures k.high + k.medium + k.low <= k.total
    ensures HasColumn(t.rows, SeverityColumn)
    ensures k.high == CountRows(t.rows, SeverityColumn, TextIsHigh)
    ensures k.medium == CountRows(t.rows, SeverityColumn, TextIsMedium)
    ensures k.low == CountRows(t.rows, SeverityColumn, TextIsLow)
    ensures k.high == 0 <==> forall i :: 0 <= i < |t.rows| ==> t.rows[i][SeverityColumn] != Str("High")
    ensures k.medium == 0 <==> forall i :: 0 <= i < |t.rows| ==> t.rows[i][SeverityColumn] != Str("Medium")
    ensures k.low == 0 <==> forall i :: 0 <= i < |t.rows| ==> t.rows[i][SeverityColumn] != Str("Low")
  {
    KpiCounts(t);
    Kpis(|t.rows|, CountRows(t.rows, SeverityColumn, TextIsHigh),
         CountRows(t.rows, SeverityColumn, TextIsMedium), CountRows(t.rows, SeverityColumn, TextIsLow))
  }

  /**
   * The three level counts fit in the row count, and each is zero exactly
   * when no severity cell is that level's string.
   */
  lemma KpiCounts(t: Table)
    requires Viewable(t)
    ensures HasColumn(t.rows, SeverityColumn)
    ensures CountRows(t.rows, SeverityColumn, TextIsHigh) + CountRows(t.rows, SeverityColumn, TextIsMedium)
      + CountRows(t.rows, SeverityColumn, TextIsLow) <= |t.rows|
    ensures CountRows(t.rows, SeverityColumn, TextIsHigh) == 0
      <==> forall i :: 0 <= i < |t.rows| ==> t.rows[i][SeverityColumn] != Str("High")
    ensures CountRows(t.rows, SeverityColumn, TextIsMedium) == 0
      <==> forall i :: 0 <= i < |t.rows| ==> t.rows[i][SeverityColumn] != Str("Medium")
    ensures CountRows(t.rows, SeverityColumn, TextIsLow) == 0
      <==> forall i :: 0 <= i < |t.rows| ==> t.rows[i][SeverityColumn] != Str("Low")
  {
    ColumnInRows(t, SeverityColumn);
    ExclusiveCountsBounded(t.rows, SeverityColumn, TextIsHigh, TextIsMedium, TextIsLow);
    forall c: Cell ensures TextIsHigh(c) <==> c == Str("High") {
      LevelTextIsString(c, "High");
    }
    LevelCountZero(t.rows, TextIsHigh, "High");
    forall c: Cell ensures TextIsMedium(c) <==> c == Str("Medium") {
      LevelTextIsString(c, "Medium");
    }
    LevelCountZero(t.rows, TextIsMedium, "Medium");
    forall c: Cell ensures TextIsLow(c) <==> c == Str("Low") {
      LevelTextIsString(c, "Low");
    }
    LevelCountZero(t.rows, TextIsLow, "Low");
  }

  /** A test that passes exactly one string counts zero exactly when no cell is that string. */
  lemma LevelCountZero(rows: seq<Row>, p: Cell -> bool, level: string)
    requires HasColumn(rows, SeverityColumn)
    requires forall c :: p(c) <==> c == Str(level)
    ensures CountRows(rows, SeverityColumn, p) == 0 <==> forall i :: 0 <= i < |rows| ==> rows[i][SeverityColumn] != Str(level)
  {
    CountRowsExtremes(rows, SeverityColumn, p);
  }

  /** What the display shows for a cell of a column: protocol names, severity badges, else the cell. */
  function DisplayCell(column: string, c: Cell): Cell {
    if column == ProtocolColumn then Str(ProtocolName(c))
    else if column == SeverityColumn then Str(SeverityBadge(c))
    else c
  }

  /** `styled_df`: the preferred columns only, each cell shown by DisplayCell, rows in order. */
  function DisplayTable(t: Table): (d: Table)
    requires WellFormed(t)
    ensures WellFormed(d)
    ensures d.columns == DisplayColumns(t.columns) && |d.rows| == |t.rows|
    ensures forall i, c :: 0 <= i < |t.rows| && c in d.columns ==> d.rows[i][c] == DisplayCell(c, t.rows[i][c])
  {
    var cols := DisplayColumns(t.columns);
    assert forall c :: c in ColumnSet(cols) ==> c in ColumnSet(t.columns);
    Table(cols, seq(|t.rows|, i requires 0 <= i < |t.rows| =>
      map c | c in ColumnSet(cols) :: DisplayCell(c, t.rows[i][c])))
  }

  datatype PageError = NoSessionSelected | EmptySession

  datatype SessionView = SessionView(kpis: Kpis, display: Table)

  /**
   * The page for the selected session: stops when none is selected or the
   * file holds no rows; otherwise shows the KPIs and the display table.
   */
  function SessionPage(selected: Option<Table>): (r: Result<SessionView, PageError>)
    requires selected.Some? ==> WellFormed(selected.value)
    requires selected.Some? && |selected.value.rows| > 0 ==> SeverityColumn in selected.value.columns
    ensures r == Err(NoSessionSelected) <==> selected.None?
    ensures r == Err(EmptySession) <==> selected.Some? && selected.value.rows == []
    ensures r.Ok? ==> r.value.kpis == SessionKpis(selected.value) && r.value.display == DisplayTable(selected.value)
  {
    if selected.None? then Err(NoSessionSelected)
    else if selected.value.rows == [] then Err(EmptySession)
    else Ok(SessionView(SessionKpis(selected.value), DisplayTable(selected.value)))
  }

  /** No column is preferred twice. */
  lemma PreferredOrderDistinct()
    ensures NoDuplicates(PreferredOrder)
  {
  }
}
