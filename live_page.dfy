/**
 * The live stream part of `pages/detection_page.py`: the session-state
 * machine that starts, steps and stops the capture generator, the two tables
 * every yielded event is appended to, and the lookups over the live table
 * once the stream has stopped.
 *
 * One script run of the page is one method call. The generator of
 * `live_packet_stream()` is its closure state (a LiveCapture.Capture) and the
 * packets the sniffer will still deliver to it.
 */
module LivePage {
  import opened Wrappers
  import opened Strings
  import opened Tables
  import opened Severity
  import opened LogStore
  import opened LiveCapture

  const ChartColumns := ["packet", "severity", "attack", "confidence"]

  /** The packet number and the basic connection features of the live table. */
  const BasicColumns := ["packet", "duration", "protocol_type", "service", "flag", "src_bytes", "dst_bytes", "land"]
  /** The time-based traffic features. */
  const TrafficColumns := ["count", "srv_count", "serror_rate", "srv_serror_rate", "rerror_rate",
                           "srv_rerror_rate", "same_srv_rate", "diff_srv_rate", "srv_diff_host_rate"]
  /** The host-based traffic features. */
  const HostColumns := ["dst_host_count", "dst_host_srv_count", "dst_host_same_srv_rate",
                        "dst_host_diff_srv_rate", "dst_host_same_src_port_rate",
                        "dst_host_srv_diff_host_rate", "dst_host_serror_rate", "dst_host_srv_serror_rate",
                        "dst_host_rerror_rate", "dst_host_srv_rerror_rate"]
  /** The detection result. */
  const ResultColumns := ["attack", "severity", "confidence"]

  /** The thirty columns of `live_packets_df`. */
  const LiveColumns := BasicColumns + TrafficColumns + HostColumns + ResultColumns

  /** `sev_num`: Low is 1, Medium is 2, anything else is 3. */
  function SevNum(severity: string): (n: int)
    ensures 1 <= n <= 3
    ensures n == 1 <==> severity == "Low"
    ensures n == 2 <==> severity == "Medium"
  {
    if severity == "Low" then 1 else if severity == "Medium" then 2 else 3
  }

  /** The capture only ever reports Low or High, so the live chart never plots Medium. */
  lemma LiveChartSkipsMedium(attack: string)
    ensures SevNum(CaptureSeverity(attack)) != 2
    ensures SevNum(CaptureSeverity(attack)) == 1 <==> attack == "Normal"
  {
  }

  /** The chart point of an event. */
  function ChartRow(e: LiveEvent): map<string, Cell> {
    map["packet" := Int(e.row), "severity" := Int(SevNum(e.severity)), "attack" := Str(e.prediction),
        "confidence" := Int(e.confidence)]
  }

  function FeatureCells(features: map<string, int>): map<string, Cell> {
    map k | k in features :: Int(features[k])
  }

  /**
   * `row_data`, the dict both `save_log` and the live table receive: the
   * packet number, then the features (which win over it on a clash), then
   * the label, severity and confidence.
   */
  function EventRow(e: LiveEvent): (r: map<string, Cell>)
    ensures HasLogKeys(r)
    ensures r["attack"] == Str(e.prediction) && r["severity"] == Str(e.severity) && r["confidence"] == Int(e.confidence)
    ensures "packet" !in e.features ==> r["packet"] == Int(e.row)
  {
    map["packet" := Int(e.row)] + FeatureCells(e.features)
      + map["attack" := Str(e.prediction), "severity" := Str(e.severity), "confidence" := Int(e.confidence)]
  }

  /** The row holds d aligned on the columns: d's cell where d has one, NaN elsewhere. */
  predicate Aligns(row: Row, d: map<string, Cell>, columns: seq<string>) {
    forall c :: c in columns ==> c in row && row[c] == if c in d then d[c] else Missing
  }

  /** Row i of t is the row f(events[i]) aligned on t's columns, for every event. */
  ghost predicate ShowsEvents(t: Table, events: seq<LiveEvent>, f: LiveEvent -> map<string, Cell>) {
    && |t.rows| == |events|
    && forall i :: 0 <= i < |events| ==> Aligns(t.rows[i], f(events[i]), t.columns)
  }

  /** Appending an event's row keeps the table in step with the events. */
  lemma AppendShowsEvent(t: Table, events: seq<LiveEvent>, f: LiveEvent -> map<string, Cell>, e: LiveEvent)
    requires WellFormed(t) && ShowsEvents(t, events, f)
    ensures ShowsEvents(AppendRow(t, f(e)), events + [e], f)
  {
    var r := AppendRow(t, f(e));
    assert r.rows[..|t.rows|] == t.rows;
    forall i | 0 <= i < |events| + 1
      ensures Aligns(r.rows[i], f((events + [e])[i]), r.columns)
    {
      if i < |events| {
        assert r.rows[i] == t.rows[i];
      } else {
        forall c | c in r.columns ensures c in r.rows[i] {
          assert c in ColumnSet(r.columns);
        }
      }
    }
  }

  /** The event rows strictly increase: the capture's counter only goes up. */
  predicate Increasing(events: seq<LiveEvent>) {
    (forall i :: 0 <= i < |events| ==> events[i].row >= 1)
    && forall i, j :: 0 <= i < j < |events| ==> events[i].row < events[j].row
  }

  /** No event shown is numbered past n. */
  predicate RowsUpTo(events: seq<LiveEvent>, n: int) {
    forall i :: 0 <= i < |events| ==> events[i].row <= n
  }

  /** Both tables are well formed and hold, row for row, the chart points and rows of the events. */
  ghost predicate TablesShow(chart: Table, live: Table, shown: seq<LiveEvent>) {
    && WellFormed(chart) && WellFormed(live)
    && ShowsEvents(chart, shown, ChartRow) && ShowsEvents(live, shown, EventRow)
    && Increasing(shown)
  }

  /** Emptied tables show no events. */
  lemma EmptyTablesShow(chartColumns: seq<string>, liveColumns: seq<string>)
    requires NoDuplicates(chartColumns) && NoDuplicates(liveColumns)
    ensures TablesShow(Table(chartColumns, []), Table(liveColumns, []), [])
  {
  }

  /** Appending a later event to both tables keeps them in step. */
  lemma AppendKeepsTablesShow(chart: Table, live: Table, shown: seq<LiveEvent>, e: LiveEvent)
    requires TablesShow(chart, live, shown) && RowsUpTo(shown, e.row - 1) && e.row >= 1
    ensures TablesShow(AppendRow(chart, ChartRow(e)), AppendRow(live, EventRow(e)), shown + [e])
    ensures RowsUpTo(shown + [e], e.row)
  {
    AppendShowsEvent(chart, shown, ChartRow, e);
    AppendShowsEvent(live, shown, EventRow, e);
    AppendKeepsIncreasing(shown, e);
  }

  /** A later-numbered event keeps the numbers strictly increasing. */
  lemma AppendKeepsIncreasing(shown: seq<LiveEvent>, e: LiveEvent)
    requires Increasing(shown) && RowsUpTo(shown, e.row - 1) && e.row >= 1
    ensures Increasing(shown + [e]) && RowsUpTo(shown + [e], e.row)
  {
    var s := shown + [e];
    forall i, j | 0 <= i < j < |s| ensures s[i].row < s[j].row {
      if j < |shown| {
        assert s[i] == shown[i] && s[j] == shown[j];
      } else {
        assert s[i] == shown[i];
      }
    }
  }

  /** What one script run of the live section did. */
  datatype StepOutcome =
    | Idle                      // not running, or no generator
    | Shown(event: LiveEvent)   // an event was logged and appended to both tables
    | Exhausted                 // the generator raised StopIteration
    | LogFailed(event: LiveEvent) // save_log could not open the session file

  /** The session state the page keeps between script runs. */
  class Page {
    var running: bool
    var generator: Capture?
    /** The packets the sniffer will still hand to the generator, with their arrival times. */
    var feed: seq<(Packet, int)>
    var chart: Table
    var live: Table
    var logFile: Option<Path>
    var lastPage: Option<string>
    const email: string
    /** The events appended to both tables since the last start. */
    ghost var shown: seq<LiveEvent>

    ghost predicate Valid()
      reads this, generator
    {
      && (running <==> generator != null)
      && (running ==> logFile.Some?)
      && (generator != null ==> generator.Valid() && RowsUpTo(shown, generator.packetNo))
      && TablesShow(chart, live, shown)
    }

    /** The first script run of a login session: the defaults of the state initialisation. */
    constructor (email: string)
      ensures Valid()
      ensures !running && generator == null && feed == [] && logFile == None && lastPage == None
      ensures chart == Table(ChartColumns, []) && live == Table(LiveColumns, []) && shown == []
      ensures this.email == email
    {
      running := false;
      generator := null;
      feed := [];
      ColumnsDistinct();
      chart := Table(ChartColumns, []);
      live := Table(LiveColumns, []);
      logFile := None;
      lastPage := None;
      this.email := email;
      shown := [];
    }

    /**
     * The top of every script run: when the recorded last page is not this
     * one, the stream is switched off; then this page is recorded. As only
     * this page writes the key, the switch-off can only happen on the first run.
     */
    method EnterPage()
      requires Valid()
      modifies this
      ensures Valid()
      ensures lastPage == Some("detection")
      ensures old(lastPage) != Some("detection") ==> !running && generator == null
      ensures old(lastPage) == Some("detection") ==> running == old(running) && generator == old(generator)
      ensures feed == old(feed) && chart == old(chart) && live == old(live) && logFile == old(logFile) && shown == old(shown)
    {
      if lastPage != Some("detection") {
        running := false;
        generator := null;
      }
      lastPage := Some("detection");
    }

    /**
     * The write `_last_page` needs from every other page for the switch-off
     * above to work: that page's name is recorded and nothing else changes.
     */
    method LeavePage(other: string)
      requires Valid() && other != "detection"
      modifies this
      ensures Valid()
      ensures lastPage == Some(other)
      ensures running == old(running) && generator == old(generator) && feed == old(feed)
      ensures chart == old(chart) && live == old(live) && logFile == old(logFile) && shown == old(shown)
    {
      lastPage := Some(other);
    }

    /**
     * "Start Live Detection": a fresh generator over the packets to come,
     * both tables emptied with their columns kept, and a new log session
     * opened in the user's directory.
     */
    method Start(store: LogStore, timestamp: string, template: map<string, int>, packets: seq<(Packet, int)>)
      requires Valid()
      modifies this, store
      ensures Valid()
      ensures running && generator != null && fresh(generator)
      ensures generator.packetNo == 0 && generator.byteCounts == map[] && generator.base == template
      ensures feed == packets && shown == []
      ensures chart == Table(old(chart.columns), []) && live == Table(old(live.columns), [])
      ensures logFile.Some? && logFile.value.dir == UserDirName(email)
      ensures logFile.value.name == SessionFileName(|old(store.Files(UserDirName(email)))| + 1, timestamp)
      ensures logFile.Some? ==> var p := logFile.value; store.dirs == old(store.dirs)[p.dir := old(store.Files(p.dir))[p.name := [LogFields]]]
      ensures lastPage == old(lastPage)
    {
      var path := store.StartNewSession(email, timestamp);
      Reset(template, packets, path);
    }

    /** The page side of Start: a fresh generator, emptied tables and the new log file. */
    method Reset(template: map<string, int>, packets: seq<(Packet, int)>, path: Path)
      requires Valid()
      modifies this
      ensures Valid()
      ensures running && generator != null && fresh(generator)
      ensures generator.packetNo == 0 && generator.byteCounts == map[] && generator.base == template
      ensures feed == packets && shown == []
      ensures chart == Table(old(chart.columns), []) && live == Table(old(live.columns), [])
      ensures logFile == Some(path) && lastPage == old(lastPage)
    {
      EmptyTablesShow(chart.columns, live.columns);
      running := true;
      generator := new Capture(template);
      feed := packets;
      chart := Table(chart.columns, []);
      live := Table(live.columns, []);
      shown := [];
      logFile := Some(path);
    }

    /** "Stop Live Stream". */
    method Stop()
      requires Valid()
      modifies this
      ensures Valid()
      ensures !running && generator == null
      ensures feed == old(feed) && chart == old(chart) && live == old(live) && logFile == old(logFile) && shown == old(shown)
      ensures lastPage == old(lastPage)
    {
      running := false;
      generator := null;
    }

    /**
     * The live section of one script run: when running, pull the next event.
     * An exhausted generator switches the stream off. An event is logged with
     * `save_log`; if that succeeds, its chart point and its row are appended,
     * one each, carrying the event's number.
     */
    method Step(store: LogStore, timestamp: string) returns (outcome: StepOutcome)
      requires Valid()
      modifies this, store, generator
      ensures Valid()
      ensures !old(running) ==> outcome == Idle && running == old(running) && feed == old(feed) && store.dirs == old(store.dirs)
      ensures old(running) ==> outcome != Idle
      ensures outcome == Exhausted ==> !running && generator == null && feed == [] && store.dirs == old(store.dirs)
      ensures outcome == Exhausted ==>
        && old(generator).packetNo == old(generator.packetNo) + |old(feed)|
        && forall k :: 0 <= k < |old(feed)| ==> old(feed)[k].0.ip.None?
      ensures |feed| <= |old(feed)| && feed == old(feed)[|old(feed)| - |feed|..]
      ensures outcome.Shown? || outcome.LogFailed? ==>
        && running && generator == old(generator)
        && |feed| < |old(feed)|
        && generator.packetNo == old(generator.packetNo) + (|old(feed)| - |feed|)
        && (forall k :: 0 <= k < |old(feed)| - |feed| - 1 ==> old(feed)[k].0.ip.None?)
        && outcome.event.row == generator.packetNo
        && Processed(old(generator.seen), old(generator.startTimes), generator.base, old(feed)[|old(feed)| - |feed| - 1],
                     generator.seen, generator.startTimes, outcome.event)
      ensures outcome.Shown? ==>
        && chart == AppendRow(old(chart), ChartRow(outcome.event))
        && live == AppendRow(old(live), EventRow(outcome.event))
        && shown == old(shown) + [outcome.event]
      ensures !outcome.Shown? ==> chart == old(chart) && live == old(live) && shown == old(shown)
      ensures outcome.Shown? || outcome.LogFailed? ==> (outcome.Shown? <==> old(logFile).value.dir in old(store.dirs))
      ensures outcome.LogFailed? ==> store.dirs == old(store.dirs)
      ensures outcome.Shown? ==>
        var p := old(logFile).value;
        var before := old(store.dirs)[p.dir];
        var existing := if p.name in before then before[p.name] else [];
        var header := if p.name in before then [] else [LogFields];
        store.dirs == old(store.dirs)[p.dir := before[p.name := existing + header + [LogLine(timestamp, EventRow(outcome.event))]]]
      ensures logFile == old(logFile) && lastPage == old(lastPage)
    {
      if !running {
        return Idle;
      }
      var e := Pull();
      if e.None? {
        return Exhausted;
      }
      ghost var g, seen, starts, number := generator, generator.seen, generator.startTimes, generator.packetNo;
      outcome := Deliver(store, e.value, timestamp);
      assert generator == g && g.seen == seen && g.startTimes == starts && g.packetNo == number;
    }

    /**
     * The pulled event is logged with `save_log`; if that succeeds, its chart
     * point and its row are appended, one each.
     */
    method Deliver(store: LogStore, event: LiveEvent, timestamp: string) returns (outcome: StepOutcome)
      requires Valid() && running && event.row == generator.packetNo && event.row >= 1
      requires RowsUpTo(shown, event.row - 1)
      modifies this, store
      ensures Valid()
      ensures outcome == Shown(event) || outcome == LogFailed(event)
      ensures outcome.Shown? <==> old(logFile).value.dir in old(store.dirs)
      ensures outcome.Shown? ==>
        && chart == AppendRow(old(chart), ChartRow(event))
        && live == AppendRow(old(live), EventRow(event))
        && shown == old(shown) + [event]
      ensures outcome.LogFailed? ==> chart == old(chart) && live == old(live) && shown == old(shown)
      ensures outcome.LogFailed? ==> store.dirs == old(store.dirs)
      ensures outcome.Shown? ==>
        var p := old(logFile).value;
        var before := old(store.dirs)[p.dir];
        var existing := if p.name in before then before[p.name] else [];
        var header := if p.name in before then [] else [LogFields];
        store.dirs == old(store.dirs)[p.dir := before[p.name := existing + header + [LogLine(timestamp, EventRow(event))]]]
      ensures running && generator == old(generator) && feed == old(feed)
      ensures logFile == old(logFile) && lastPage == old(lastPage)
    {
      var ok := store.SaveLog(logFile.value, EventRow(event), timestamp);
      if !ok {
        return LogFailed(event);
      }
      Show(event);
      return Shown(event);
    }

    /**
     * `next(live_generator)`: the generator runs over the feed up to its next
     * yield; when it raises StopIteration the stream is switched off.
     */
    method Pull() returns (e: Option<LiveEvent>)
      requires Valid() && running
      modifies this, generator
      ensures Valid()
      ensures e.None? <==> !running
      ensures e.None? ==> generator == null && feed == []
      ensures e.None? ==>
        var g := old(generator);
        && g.byteCounts == old(g.byteCounts) && g.startTimes == old(g.startTimes) && g.seen == old(g.seen)
        && g.packetNo == old(g.packetNo) + |old(feed)|
        && forall k :: 0 <= k < |old(feed)| ==> old(feed)[k].0.ip.None?
      ensures |feed| <= |old(feed)| && feed == old(feed)[|old(feed)| - |feed|..]
      ensures e.Some? ==>
        && generator == old(generator)
        && |feed| < |old(feed)|
        && generator.packetNo == old(generator.packetNo) + (|old(feed)| - |feed|)
        && (forall k :: 0 <= k < |old(feed)| - |feed| - 1 ==> old(feed)[k].0.ip.None?)
        && e.value.row == generator.packetNo && e.value.row >= 1
        && RowsUpTo(shown, e.value.row - 1)
        && Processed(old(generator.seen), old(generator.startTimes), generator.base, old(feed)[|old(feed)| - |feed| - 1],
                     generator.seen, generator.startTimes, e.value)
      ensures chart == old(chart) && live == old(live) && shown == old(shown)
      ensures logFile == old(logFile) && lastPage == old(lastPage)
    {
      var next, used := generator.NextEvent(feed);
      ghost var before := feed;
      feed := feed[used..];
      assert |before| - |feed| == used;
      if next.None? {
        running := false;
        generator := null;
      }
      e := next;
    }

    /** The chart point and the row of a new event are appended, one each. */
    method Show(event: LiveEvent)
      requires Valid() && running && event.row == generator.packetNo && event.row >= 1
      requires RowsUpTo(shown, event.row - 1)
      modifies this
      ensures Valid()
      ensures chart == AppendRow(old(chart), ChartRow(event)) && live == AppendRow(old(live), EventRow(event))
      ensures shown == old(shown) + [event]
      ensures running && generator == old(generator) && feed == old(feed)
      ensures logFile == old(logFile) && lastPage == old(lastPage)
    {
      AppendKeepsTablesShow(chart, live, shown, event);
      chart, live, shown := AppendRow(chart, ChartRow(event)), AppendRow(live, EventRow(event)), shown + [event];
      assert generator.Valid();
    }
  }

  /**
   * The code as written: no other page records itself under `_last_page`, so
   * a visit elsewhere leaves the page state untouched and coming back to the
   * detection page finds the stream still running.
   */
  method ReturnKeepsStream(email: string, store: LogStore, timestamp: string, template: map<string, int>,
                           packets: seq<(Packet, int)>) returns (p: Page)
    modifies store
    ensures p.Valid() && p.running && p.generator != null && p.lastPage == Some("detection")
  {
    p := new Page(email);
    p.EnterPage();
    p.Start(store, timestamp, template, packets);
    // the user opens another page, which writes no key; then returns
    p.EnterPage();
  }

  /**
   * The intended behaviour: when another page records itself on its run,
   * coming back switches the stream off before anything is pulled.
   */
  method ReturnStopsStream(email: string, store: LogStore, timestamp: string, template: map<string, int>,
                           packets: seq<(Packet, int)>, other: string) returns (p: Page)
    requires other != "detection"
    modifies store
    ensures p.Valid() && !p.running && p.generator == null && p.lastPage == Some("detection")
  {
    p := new Page(email);
    p.EnterPage();
    p.Start(store, timestamp, template, packets);
    p.LeavePage(other);
    p.EnterPage();
  }

  /** The row appended to either table for an event carries the event's number as its packet. */
  lemma AppendedRowsCarryPacket(chart: Table, live: Table, e: LiveEvent)
    requires WellFormed(chart) && WellFormed(live) && "packet" in chart.columns && "packet" in live.columns
    requires "packet" !in e.features
    ensures var c := AppendRow(chart, ChartRow(e));
      |c.rows| == |chart.rows| + 1 && c.rows[|chart.rows|]["packet"] == Int(e.row)
    ensures var l := AppendRow(live, EventRow(e));
      |l.rows| == |live.rows| + 1 && l.rows[|live.rows|]["packet"] == Int(e.row)
  {
  }

  /** No column is listed twice, as the frame constructor needs. */
  lemma ColumnsDistinct()
    ensures NoDuplicates(ChartColumns) && NoDuplicates(LiveColumns)
    ensures |LiveColumns| == 30
  {
    BlocksDistinct();
    BlocksDisjoint();
    NoDuplicatesAppend(BasicColumns, TrafficColumns);
    DisjointAppend(BasicColumns, TrafficColumns, HostColumns);
    NoDuplicatesAppend(BasicColumns + TrafficColumns, HostColumns);
    DisjointAppend(BasicColumns, TrafficColumns, ResultColumns);
    DisjointAppend(BasicColumns + TrafficColumns, HostColumns, ResultColumns);
    NoDuplicatesAppend(BasicColumns + TrafficColumns + HostColumns, ResultColumns);
  }

  lemma BlocksDistinct()
    ensures NoDuplicates(BasicColumns) && NoDuplicates(TrafficColumns)
    ensures NoDuplicates(HostColumns) && NoDuplicates(ResultColumns)
  {
  }

  lemma BlocksDisjoint()
    ensures Disjoint(BasicColumns, TrafficColumns) && Disjoint(BasicColumns, HostColumns)
    ensures Disjoint(BasicColumns, ResultColumns) && Disjoint(TrafficColumns, HostColumns)
    ensures Disjoint(TrafficColumns, ResultColumns) && Disjoint(HostColumns, ResultColumns)
  {
  }

  // ---------------------------------------------------------------- after the stream

  /** Every event row has the columns the lookups read. */
  predicate Searchable(live: Table) {
    WellFormed(live) && "attack" in live.columns && "confidence" in live.columns
  }

  /**
   * "Predict by Packet Number": the number input runs from 1 to the row
   * count, so `iloc[row_no - 1]` is always a row; the severity shown is
   * recomputed from the label with `detect_severity`.
   */
  function SelectPacket(live: Table, rowNo: int): (r: (Row, string))
    requires Searchable(live) && 1 <= rowNo <= |live.rows|
    ensures 0 <= rowNo - 1 < |live.rows| && r.0 == live.rows[rowNo - 1]
    ensures IsLevel(r.1) && r.1 == DetectSeverity(CellText(live.rows[rowNo - 1]["attack"]))
  {
    ColumnInRows(live, "attack");
    var row := live.rows[rowNo - 1];
    (row, DetectSeverity(CellText(row["attack"])))
  }

  /**
   * The input is a position, not a packet number: the row at position k
   * holds the k-th event shown, whose packet number is at least k (larger
   * when non-IP packets were counted but not shown).
   */
  lemma SelectedPacketNumber(live: Table, shown: seq<LiveEvent>, rowNo: int)
    requires Searchable(live) && ShowsEvents(live, shown, EventRow) && Increasing(shown)
    requires "packet" in live.columns && 1 <= rowNo <= |live.rows|
    requires "packet" !in shown[rowNo - 1].features
    ensures SelectPacket(live, rowNo).0["packet"] == Int(shown[rowNo - 1].row)
    ensures shown[rowNo - 1].row >= rowNo
  {
    var e := shown[rowNo - 1];
    var d := EventRow(e);
    assert Aligns(live.rows[rowNo - 1], d, live.columns);
    assert "packet" in d && d["packet"] == Int(e.row);
    assert live.rows[rowNo - 1]["packet"] == d["packet"];
    RowNumbersAtLeastPosition(shown, rowNo - 1);
  }

  /** Strictly increasing positive numbers reach at least position + 1. */
  lemma {:induction false} RowNumbersAtLeastPosition(events: seq<LiveEvent>, i: nat)
    requires Increasing(events) && i < |events|
    ensures events[i].row >= i + 1
  {
    if i > 0 {
      RowNumbersAtLeastPosition(events, i - 1);
    }
  }

  /**
   * A live row logged for "Probe" carries the capture's High, while the
   * lookup recomputes Medium for it.
   */
  lemma ProbeShownAsMedium(live: Table, rowNo: int)
    requires Searchable(live) && 1 <= rowNo <= |live.rows|
    requires live.rows[rowNo - 1]["attack"] == Str("Probe")
    ensures SelectPacket(live, rowNo).1 == "Medium"
    ensures CaptureSeverity("Probe") == "High"
  {
    DetectSeverityTable();
  }

  /**
   * One line of the search result table: the matching row's position in the
   * live table (its "Row" column shows position + 1), label, recomputed
   * severity and confidence.
   */
  datatype SearchHit = SearchHit(index: nat, attack: string, severity: string, confidence: Cell)

  /** Row i exists and its lower-cased label contains the query. */
  predicate IsHit(rows: seq<Row>, q: string, i: int) {
    0 <= i < |rows| && "attack" in rows[i] && Contains(Lower(CellText(rows[i]["attack"])), q)
  }

  /** The search result line for row i. */
  function HitAt(rows: seq<Row>, i: nat): (h: SearchHit)
    requires HasColumn(rows, "attack") && HasColumn(rows, "confidence") && i < |rows|
    ensures h.index == i && h.attack == CellText(rows[i]["attack"]) && h.confidence == rows[i]["confidence"]
    ensures IsLevel(h.severity) && h.severity == DetectSeverity(h.attack)
  {
    var attack := CellText(rows[i]["attack"]);
    SearchHit(i, attack, DetectSeverity(attack), rows[i]["confidence"])
  }

  /** The positions from `from` up to n that pass p, in increasing order. */
  function Positions(n: nat, p: nat -> bool, from: nat): (r: seq<nat>)
    requires from <= n
    ensures forall k :: 0 <= k < |r| ==> from <= r[k] < n && p(r[k])
    ensures forall k, l :: 0 <= k < l < |r| ==> r[k] < r[l]
    ensures forall i :: from <= i < n && p(i) ==> i in r
    decreases n - from
  {
    if from == n then []
    else
      var rest := Positions(n, p, from + 1);
      if p(from) then [from] + rest else rest
  }

  /** The result lines for the given rows, one per position, in the order given. */
  function HitsAt(rows: seq<Row>, pos: seq<nat>): (r: seq<SearchHit>)
    requires HasColumn(rows, "attack") && HasColumn(rows, "confidence")
    requires forall k :: 0 <= k < |pos| ==> pos[k] < |rows|
    ensures |r| == |pos| && forall k :: 0 <= k < |pos| ==> r[k] == HitAt(rows, pos[k])
  {
    if pos == [] then [] else [HitAt(rows, pos[0])] + HitsAt(rows, pos[1..])
  }

  /** The result lines of the rows whose lower-cased label contains q, in row order. */
  function SearchRows(rows: seq<Row>, q: string): (r: seq<SearchHit>)
    requires HasColumn(rows, "attack") && HasColumn(rows, "confidence")
    ensures forall k :: 0 <= k < |r| ==> IsHit(rows, q, r[k].index) && r[k] == HitAt(rows, r[k].index)
    ensures forall k, l :: 0 <= k < l < |r| ==> r[k].index < r[l].index
    ensures forall i :: IsHit(rows, q, i) ==> HitAt(rows, i) in r
  {
    var hit := i => IsHit(rows, q, i);
    var pos := Positions(|rows|, hit, 0);
    var hits := HitsAt(rows, pos);
    HitsOfPositions(rows, q, hit, pos, hits);
    hits
  }

  /** Result lines built from the increasing, complete list of hit positions have the search's properties. */
  lemma HitsOfPositions(rows: seq<Row>, q: string, hit: nat -> bool, pos: seq<nat>, hits: seq<SearchHit>)
    requires HasColumn(rows, "attack") && HasColumn(rows, "confidence")
    requires forall i: nat :: hit(i) == IsHit(rows, q, i)
    requires forall k :: 0 <= k < |pos| ==> 0 <= pos[k] < |rows| && hit(pos[k])
    requires forall k, l :: 0 <= k < l < |pos| ==> pos[k] < pos[l]
    requires forall i :: 0 <= i < |rows| && hit(i) ==> i in pos
    requires |hits| == |pos| && forall k :: 0 <= k < |pos| ==> hits[k] == HitAt(rows, pos[k])
    ensures forall k :: 0 <= k < |hits| ==> IsHit(rows, q, hits[k].index) && hits[k] == HitAt(rows, hits[k].index)
    ensures forall k, l :: 0 <= k < l < |hits| ==> hits[k].index < hits[l].index
    ensures forall i :: IsHit(rows, q, i) ==> HitAt(rows, i) in hits
  {
    forall i | IsHit(rows, q, i) ensures HitAt(rows, i) in hits {
      assert hit(i) && i in pos;
      var k :| 0 <= k < |pos| && pos[k] == i;
      assert hits[k] == HitAt(rows, i);
    }
  }

  /**
   * "Search Attack": nothing while the lower-cased query is empty; otherwise
   * one line per row whose lower-cased label contains it, in row order, with
   * the severity recomputed from the label.
   */
  function SearchAttacks(live: Table, query: string): (r: Option<seq<SearchHit>>)
    requires Searchable(live)
    ensures r.None? <==> Lower(query) == []
    ensures r.Some? ==> forall k :: 0 <= k < |r.value| ==>
      IsHit(live.rows, Lower(query), r.value[k].index) && r.value[k] == HitAt(live.rows, r.value[k].index)
    ensures r.Some? ==> forall k, l :: 0 <= k < l < |r.value| ==> r.value[k].index < r.value[l].index
    ensures r.Some? ==> forall i :: IsHit(live.rows, Lower(query), i) ==> HitAt(live.rows, i) in r.value
  {
    ColumnInRows(live, "attack");
    ColumnInRows(live, "confidence");
    if Lower(query) == [] then None else Some(SearchRows(live.rows, Lower(query)))
  }
}
