/**
 * The metric cards, risk panel and greeting of `pages/user_dashboard.py`,
 * computed from the live packet table the detection page fills.
 */
module Dashboard {
  import opened Wrappers
  import opened Strings
  import opened Tables

  const AttackColumn := "attack"
  const SeverityColumn := "severity"

  /**
   * `df`: the live table when it exists and has rows, otherwise an empty
   * frame with just the attack and severity columns.
   */
  function MetricsFrame(live: Option<Table>): Table {
    if live.Some? && |live.value.rows| > 0 then live.value else Table([AttackColumn, SeverityColumn], [])
  }

  /** A live table that can be counted: `df.get("severity")` must find the column. */
  predicate Countable(live: Option<Table>) {
    live.Some? ==> WellFormed(live.value) && (|live.value.rows| > 0 ==> SeverityColumn in live.value.columns)
  }

  /** `df["attack"] != "Normal"`: NaN and every other label count, the match is case-sensitive. */
  predicate IsAttackCell(c: Cell) { c != Str("Normal") }

  predicate IsHighCell(c: Cell) { c == Str("High") }
  predicate IsMediumCell(c: Cell) { c == Str("Medium") }
  predicate IsLowCell(c: Cell) { c == Str("Low") }

  datatype Metrics = Metrics(total: nat, attacks: nat, high: nat, medium: nat, low: nat)

  /**
   * The metric counts: all rows, rows whose attack is not exactly "Normal"
   * (none when there is no attack column), and rows whose severity is
   * exactly "High", "Medium" or "Low".
   */
  function ComputeMetrics(live: Option<Table>): (m: Metrics)
    requires Countable(live)
    ensures m.attacks <= m.total && m.high + m.medium + m.low <= m.total
    ensures m.total == |MetricsFrame(live).rows|
    ensures m.total == 0 ==> m == Metrics(0, 0, 0, 0, 0)
    ensures var t := MetricsFrame(live);
      AttackColumn in t.columns ==> (m.attacks == 0 <==> forall i :: 0 <= i < |t.rows| ==> t.rows[i][AttackColumn] == Str("Normal"))
    ensures AttackColumn !in MetricsFrame(live).columns ==> m.attacks == 0
    ensures var t := MetricsFrame(live);
      AttackColumn in t.columns ==> HasColumn(t.rows, AttackColumn) && m.attacks == CountRows(t.rows, AttackColumn, IsAttackCell)
    ensures var t := MetricsFrame(live);
      && HasColumn(t.rows, SeverityColumn)
      && m.high == CountRows(t.rows, SeverityColumn, IsHighCell)
      && m.medium == CountRows(t.rows, SeverityColumn, IsMediumCell)
      && m.low == CountRows(t.rows, SeverityColumn, IsLowCell)
    ensures var t := MetricsFrame(live);
      && (m.high == 0 <==> forall i :: 0 <= i < |t.rows| ==> t.rows[i][SeverityColumn] != Str("High"))
      && (m.medium == 0 <==> forall i :: 0 <= i < |t.rows| ==> t.rows[i][SeverityColumn] != Str("Medium"))
      && (m.low == 0 <==> forall i :: 0 <= i < |t.rows| ==> t.rows[i][SeverityColumn] != Str("Low"))
  {
    var t := MetricsFrame(live);
    SeverityCounts(t);
    var attacks := if AttackColumn in t.columns then (AttackCount(t); CountRows(t.rows, AttackColumn, IsAttackCell)) else 0;
    Metrics(|t.rows|, attacks, CountRows(t.rows, SeverityColumn, IsHighCell),
            CountRows(t.rows, SeverityColumn, IsMediumCell), CountRows(t.rows, SeverityColumn, IsLowCell))
  }

  /** No attack is counted exactly when every attack cell is "Normal". */
  lemma AttackCount(t: Table)
    requires WellFormed(t) && AttackColumn in t.columns
    ensures HasColumn(t.rows, AttackColumn)
    ensures CountRows(t.rows, AttackColumn, IsAttackCell) == 0
      <==> forall i :: 0 <= i < |t.rows| ==> t.rows[i][AttackColumn] == Str("Normal")
  {
    ColumnInRows(t, AttackColumn);
    CountRowsExtremes(t.rows, AttackColumn, IsAttackCell);
  }

  /**
   * The three severity counts fit in the row count, and each is zero exactly
   * when no cell holds its level.
   */
  lemma SeverityCounts(t: Table)
    requires WellFormed(t) && SeverityColumn in t.columns
    ensures HasColumn(t.rows, SeverityColumn)
    ensures CountRows(t.rows, SeverityColumn, IsHighCell) + CountRows(t.rows, SeverityColumn, IsMediumCell)
      + CountRows(t.rows, SeverityColumn, IsLowCell) <= |t.rows|
    ensures CountRows(t.rows, SeverityColumn, IsHighCell) == 0
      <==> forall i :: 0 <= i < |t.rows| ==> t.rows[i][SeverityColumn] != Str("High")
    ensures CountRows(t.rows, SeverityColumn, IsMediumCell) == 0
      <==> forall i :: 0 <= i < |t.rows| ==> t.rows[i][SeverityColumn] != Str("Medium")
    ensures CountRows(t.rows, SeverityColumn, IsLowCell) == 0
      <==> forall i :: 0 <= i < |t.rows| ==> t.rows[i][SeverityColumn] != Str("Low")
  {
    ColumnInRows(t, SeverityColumn);
    ExclusiveCountsBounded(t.rows, SeverityColumn, IsHighCell, IsMediumCell, IsLowCell);
    CountRowsExtremes(t.rows, SeverityColumn, IsHighCell);
    CountRowsExtremes(t.rows, SeverityColumn, IsMediumCell);
    CountRowsExtremes(t.rows, SeverityColumn, IsLowCell);
  }

  /** `(attacks / total) * 100 if total else 0`, before rounding to two places. */
  function AttackRatio(attacks: nat, total: nat): (r: real)
    requires attacks <= total
    ensures total == 0 ==> r == 0.0
    ensures total > 0 ==> r * (total as real) == 100.0 * (attacks as real)
    ensures 0.0 <= r <= 100.0
  {
    if total == 0 then 0.0
    else
      var r := (attacks as real / total as real) * 100.0;
      assert attacks as real / total as real <= 1.0;
      r
  }

  /** `high + medium + low or 1`: the divisor of the distribution bars, never zero. */
  function TotalEvents(high: nat, medium: nat, low: nat): (n: nat)
    ensures n >= 1
    ensures high + medium + low > 0 ==> n == high + medium + low
    ensures high + medium + low == 0 ==> n == 1
  {
    if high + medium + low != 0 then high + medium + low else 1
  }

  /** Every distribution bar is at most full width. */
  lemma BarsWithinWidth(m: Metrics)
    ensures var n := TotalEvents(m.high, m.medium, m.low);
      m.high <= n && m.medium <= n && m.low <= n
  {
  }

  /** The risk panel: level, description and the card's CSS class. */
  datatype RiskPanel = RiskPanel(level: string, description: string, ctaClass: string)

  /** The if/elif of the risk panel: any high-severity row first, then any attack at all. */
  function Risk(high: nat, attacks: nat): (r: RiskPanel)
    ensures r.level == "HIGH RISK" <==> high > 0
    ensures r.level == "MODERATE RISK" <==> high == 0 && attacks > 0
    ensures r.level == "LOW RISK" <==> high == 0 && attacks == 0
  {
    if high > 0 then RiskPanel("HIGH RISK", "Critical intrusions detected. Immediate response required.", "cta-high")
    else if attacks > 0 then RiskPanel("MODERATE RISK", "Suspicious traffic detected. Monitor sessions.", "cta-medium")
    else RiskPanel("LOW RISK", "Traffic looks clean.", "cta-low")
  }

  /** The session card below the panel: its CSS class and subtitle. */
  datatype CtaState = CtaState(ctaClass: string, subtitle: string)

  /** The second if/elif, which decides the session card on its own. */
  function Cta(high: nat, attacks: nat): (c: CtaState)
    ensures c.ctaClass == "cta-high" <==> high > 0
    ensures c.ctaClass == "cta-medium" <==> high == 0 && attacks > 0
    ensures c.ctaClass == "cta-low" <==> high == 0 && attacks == 0
  {
    if high > 0 then CtaState("cta-high", "Critical intrusions detected. Immediate response required.")
    else if attacks > 0 then CtaState("cta-medium", "Suspicious activity detected. Inspect session logs.")
    else CtaState("cta-low", "Traffic looks clean. View historical sessions.")
  }

  /**
   * The card repeats the panel's three-way decision: same class on every
   * input; the texts agree only in the high-risk case.
   */
  lemma CtaFollowsRisk(high: nat, attacks: nat)
    ensures Cta(high, attacks).ctaClass == Risk(high, attacks).ctaClass
    ensures Cta(high, attacks).subtitle == Risk(high, attacks).description <==> high > 0
  {
  }

  /** The address shown in the greeting: the session's e-mail, or "user". */
  function GreetedAddress(email: Option<string>): string {
    if email.Some? then email.value else "user"
  }

  /**
   * `user_email.split("@")[0].capitalize()`: the text before the first "@"
   * (the whole address when there is none), first letter upper-cased and the
   * rest lower-cased.
   */
  function UserName(email: Option<string>): (r: string)
    ensures var e := GreetedAddress(email);
      |r| == IndexOf(e, '@') && r == Capitalize(e[..IndexOf(e, '@')])
    ensures '@' !in r
  {
    var e := GreetedAddress(email);
    var first := Split(e, '@', -1)[0];
    assert first == e[..IndexOf(e, '@')];
    var r := Capitalize(first);
    assert forall i :: 0 <= i < |r| ==> r[i] != '@';
    r
  }

  /** Without an e-mail in the session the greeting names "User". */
  lemma UserNameDefault()
    ensures UserName(None) == "User"
  {
    assert IndexOf("user", '@') == 4;
    assert "user"[..4] == "user";
  }
}
