/**
 * Offline and streaming inference of `common/detection_utlis.py`.
 *
 * The preprocessing chain (scaler, column reordering) and the classifier are
 * collaborators outside the model: their combined output is given as `preds`,
 * one score vector per input row with one score per class of the label
 * encoder, whose classes are `classes`. Scores are integers (for instance
 * probabilities in thousandths) so that maxima and ties are exact.
 */
module Detection {
  import opened Wrappers
  import opened Strings
  import opened Tables
  import opened Severity

  /** The preprocessing collaborator refuses a table with no data rows. */
  datatype DetectError = EmptyInput

  /** `np.argmax`: the first index at which the maximum score is attained. */
  function FirstMaxIndex(scores: seq<int>): (k: nat)
    requires |scores| > 0
    ensures k < |scores|
    ensures forall j :: 0 <= j < |scores| ==> scores[j] <= scores[k]
    ensures forall j :: 0 <= j < k ==> scores[j] < scores[k]
  {
    if |scores| == 1 then 0
    else
      var k := FirstMaxIndex(scores[..|scores| - 1]);
      if scores[|scores| - 1] > scores[k] then |scores| - 1 else k
  }

  /** The two defining properties of the first maximum pin down a unique index. */
  lemma FirstMaxIndexUnique(scores: seq<int>, k: nat)
    requires k < |scores|
    requires forall j :: 0 <= j < |scores| ==> scores[j] <= scores[k]
    requires forall j :: 0 <= j < k ==> scores[j] < scores[k]
    ensures k == FirstMaxIndex(scores)
  {
  }

  /** Every row has one score per class of the label encoder, and there is at least one class. */
  predicate WellShaped(preds: seq<seq<int>>, classes: seq<string>) {
    |classes| > 0 && forall i :: 0 <= i < |preds| ==> |preds[i]| == |classes|
  }

  /** `label_encoder.inverse_transform` of the arg-max. */
  function PredictedLabel(scores: seq<int>, classes: seq<string>): string
    requires |scores| == |classes| > 0
  {
    classes[FirstMaxIndex(scores)]
  }

  /** `np.max`: the confidence reported beside the label. */
  function Confidence(scores: seq<int>): int
    requires |scores| > 0
  {
    scores[FirstMaxIndex(scores)]
  }

  const PredictedColumn := "Predicted_Attack"
  const ConfidenceColumn := "Confidence"
  const SeverityColumn := "Severity"

  predicate IsAddedColumn(c: string) {
    c == PredictedColumn || c == ConfidenceColumn || c == SeverityColumn
  }

  /** The three result cells a row carries for its score vector. */
  predicate Tagged(row: Row, scores: seq<int>, classes: seq<string>)
    requires |scores| == |classes| > 0
  {
    && PredictedColumn in row && ConfidenceColumn in row && SeverityColumn in row
    && row[PredictedColumn] == Str(PredictedLabel(scores, classes))
    && row[ConfidenceColumn] == Int(Confidence(scores))
    && row[SeverityColumn] == Str(DetectSeverity(PredictedLabel(scores, classes)))
  }

  /** The result names a column list lacks, in the order the code assigns them. */
  function AbsentResultColumns(columns: seq<string>): seq<string> {
    (if PredictedColumn in columns then [] else [PredictedColumn])
    + (if ConfidenceColumn in columns then [] else [ConfidenceColumn])
    + (if SeverityColumn in columns then [] else [SeverityColumn])
  }

  /** The columns of the result: the input's, then each added name the input lacks, and nothing else. */
  predicate KeepsColumns(t: Table, d: Table) {
    d.columns == t.columns + AbsentResultColumns(t.columns)
  }

  /** `pred_labels`: the label of each row's arg-max. */
  function LabelCells(preds: seq<seq<int>>, classes: seq<string>): (r: seq<Cell>)
    requires WellShaped(preds, classes)
    ensures |r| == |preds| && forall i :: 0 <= i < |preds| ==> r[i] == Str(PredictedLabel(preds[i], classes))
  {
    seq(|preds|, i requires 0 <= i < |preds| => Str(PredictedLabel(preds[i], classes)))
  }

  /** `confidence`: each row's top score. */
  function ConfidenceCells(preds: seq<seq<int>>, classes: seq<string>): (r: seq<Cell>)
    requires WellShaped(preds, classes)
    ensures |r| == |preds| && forall i :: 0 <= i < |preds| ==> r[i] == Int(Confidence(preds[i]))
  {
    seq(|preds|, i requires 0 <= i < |preds| => Int(Confidence(preds[i])))
  }

  /** `df["Predicted_Attack"].apply(detect_severity)`. */
  function SeverityCells(t: Table): (r: seq<Cell>)
    requires WellFormed(t) && PredictedColumn in t.columns
    ensures |r| == |t.rows|
    ensures forall i :: 0 <= i < |t.rows| ==> PredictedColumn in t.rows[i] && r[i] == Str(DetectSeverity(CellText(t.rows[i][PredictedColumn])))
  {
    ColumnInRows(t, PredictedColumn);
    seq(|t.rows|, i requires 0 <= i < |t.rows| => Str(DetectSeverity(CellText(t.rows[i][PredictedColumn]))))
  }

  /** The three column assignments of `run_detection`, in the order the code makes them. */
  function Annotate(t: Table, preds: seq<seq<int>>, classes: seq<string>): (d: Table)
    requires WellFormed(t) && |preds| == |t.rows| && WellShaped(preds, classes)
    ensures WellFormed(d) && |d.rows| == |t.rows|
  {
    var t1 := SetColumn(t, PredictedColumn, LabelCells(preds, classes));
    var t2 := SetColumn(t1, ConfidenceColumn, ConfidenceCells(preds, classes));
    SetColumn(t2, SeverityColumn, SeverityCells(t2))
  }

  /**
   * What the assignments do: the columns are kept and the added ones follow,
   * every other cell is kept, and each row is tagged from its own scores.
   */
  lemma AnnotateFacts(t: Table, preds: seq<seq<int>>, classes: seq<string>)
    requires WellFormed(t) && |preds| == |t.rows| && WellShaped(preds, classes)
    ensures KeepsColumns(t, Annotate(t, preds, classes))
    ensures forall i, c :: 0 <= i < |t.rows| && c in t.columns && !IsAddedColumn(c) ==>
      Annotate(t, preds, classes).rows[i][c] == t.rows[i][c]
    ensures forall i :: 0 <= i < |t.rows| ==> Tagged(Annotate(t, preds, classes).rows[i], preds[i], classes)
  {
    AnnotateColumns(t, preds, classes);
    AnnotateKeepsCells(t, preds, classes);
    AnnotateTags(t, preds, classes);
  }

  lemma AnnotateColumns(t: Table, preds: seq<seq<int>>, classes: seq<string>)
    requires WellFormed(t) && |preds| == |t.rows| && WellShaped(preds, classes)
    ensures KeepsColumns(t, Annotate(t, preds, classes))
  {
    var cols := WithColumn(WithColumn(WithColumn(t.columns, PredictedColumn), ConfidenceColumn), SeverityColumn);
    assert Annotate(t, preds, classes).columns == cols;
    AddedColumnsFollow(t.columns);
  }

  /** Three WithColumn steps append, in order, exactly the names the list lacks. */
  lemma AddedColumnsFollow(columns: seq<string>)
    ensures WithColumn(WithColumn(WithColumn(columns, PredictedColumn), ConfidenceColumn), SeverityColumn)
      == columns + AbsentResultColumns(columns)
  {
    var a1: seq<string> := if PredictedColumn in columns then [] else [PredictedColumn];
    var a2: seq<string> := if ConfidenceColumn in columns then [] else [ConfidenceColumn];
    var a3: seq<string> := if SeverityColumn in columns then [] else [SeverityColumn];
    var c1 := WithColumn(columns, PredictedColumn);
    assert c1 == columns + a1;
    assert ConfidenceColumn in c1 <==> ConfidenceColumn in columns;
    var c2 := WithColumn(c1, ConfidenceColumn);
    assert c2 == columns + a1 + a2;
    assert SeverityColumn in c2 <==> SeverityColumn in columns;
    var c3 := WithColumn(c2, SeverityColumn);
    assert c3 == columns + a1 + a2 + a3;
    assert columns + a1 + a2 + a3 == columns + (a1 + a2 + a3);
  }

  lemma AnnotateKeepsCells(t: Table, preds: seq<seq<int>>, classes: seq<string>)
    requires WellFormed(t) && |preds| == |t.rows| && WellShaped(preds, classes)
    ensures forall i, c :: 0 <= i < |t.rows| && c in t.columns && !IsAddedColumn(c) ==>
      Annotate(t, preds, classes).rows[i][c] == t.rows[i][c]
  {
    var t1 := SetColumn(t, PredictedColumn, LabelCells(preds, classes));
    var t2 := SetColumn(t1, ConfidenceColumn, ConfidenceCells(preds, classes));
    var d := SetColumn(t2, SeverityColumn, SeverityCells(t2));
    assert d == Annotate(t, preds, classes);
    forall i, c | 0 <= i < |t.rows| && c in t.columns && !IsAddedColumn(c) ensures d.rows[i][c] == t.rows[i][c] {
      assert c in t1.columns && c in t2.columns;
    }
  }

  lemma AnnotateTags(t: Table, preds: seq<seq<int>>, classes: seq<string>)
    requires WellFormed(t) && |preds| == |t.rows| && WellShaped(preds, classes)
    ensures forall i :: 0 <= i < |t.rows| ==> Tagged(Annotate(t, preds, classes).rows[i], preds[i], classes)
  {
    var t1 := SetColumn(t, PredictedColumn, LabelCells(preds, classes));
    var t2 := SetColumn(t1, ConfidenceColumn, ConfidenceCells(preds, classes));
    var d := SetColumn(t2, SeverityColumn, SeverityCells(t2));
    assert d == Annotate(t, preds, classes);
    forall i | 0 <= i < |t.rows| ensures Tagged(d.rows[i], preds[i], classes) {
      assert t2.rows[i][PredictedColumn] == Str(PredictedLabel(preds[i], classes));
    }
  }

  /**
   * `run_detection`: the input table with the predicted label, its confidence
   * and its severity attached as three columns, row for row. Columns the table
   * already has under those names are overwritten in place; all other columns
   * and all rows keep their order and content.
   */
  function RunDetection(t: Table, preds: seq<seq<int>>, classes: seq<string>): (r: Result<Table, DetectError>)
    requires WellFormed(t) && |preds| == |t.rows| && WellShaped(preds, classes)
    ensures r.Err? <==> |t.rows| == 0
    ensures r.Ok? ==> WellFormed(r.value) && |r.value.rows| == |t.rows| && KeepsColumns(t, r.value)
    ensures r.Ok? ==> forall i, c :: 0 <= i < |t.rows| && c in t.columns && !IsAddedColumn(c) ==>
      r.value.rows[i][c] == t.rows[i][c]
    ensures r.Ok? ==> forall i :: 0 <= i < |t.rows| ==> Tagged(r.value.rows[i], preds[i], classes)
  {
    if |t.rows| == 0 then Err(EmptyInput)
    else
      AnnotateFacts(t, preds, classes);
      Ok(Annotate(t, preds, classes))
  }

  /** One item yielded by `stream_detection`. */
  datatype Event = Event(row: nat, prediction: string, confidence: int, severity: string)

  /** The event for 0-based input row i: its 1-based number, label, confidence and severity. */
  function StreamEvent(preds: seq<seq<int>>, classes: seq<string>, i: nat): Event
    requires WellShaped(preds, classes) && i < |preds|
  {
    var predicted := PredictedLabel(preds[i], classes);
    Event(i + 1, predicted, Confidence(preds[i]), DetectSeverity(predicted))
  }

  /**
   * `stream_detection(..., start_index)`: every event the generator yields, in
   * order, if the consumer pulls until the end. A consumer that stops early
   * has seen a prefix of this sequence.
   */
  method StreamDetection(preds: seq<seq<int>>, classes: seq<string>, start: nat)
    returns (r: Result<seq<Event>, DetectError>)
    requires WellShaped(preds, classes)
    ensures r.Err? <==> |preds| == 0
    ensures r.Ok? ==> |r.value| == if start < |preds| then |preds| - start else 0
    ensures r.Ok? ==> forall k :: 0 <= k < |r.value| ==> r.value[k] == StreamEvent(preds, classes, start + k)
    ensures r.Ok? ==> forall k :: 0 <= k < |r.value| ==>
      r.value[k].row == start + k + 1 && r.value[k].severity == DetectSeverity(r.value[k].prediction)
  {
    if |preds| == 0 {
      return Err(EmptyInput);
    }
    var events: seq<Event> := [];
    var i := start;
    while i < |preds|
      invariant start <= i
      invariant |events| == i - start
      invariant i > start ==> i <= |preds|
      invariant forall k :: 0 <= k < |events| ==> events[k] == StreamEvent(preds, classes, start + k)
    {
      var scores := preds[i];
      var k := FirstMaxIndex(scores);
      var predicted := classes[k];
      events := events + [Event(i + 1, predicted, scores[k], DetectSeverity(predicted))];
      i := i + 1;
    }
    return Ok(events);
  }

  /**
   * Batch and stream agree: streaming from row 0 yields, for each row, the
   * label, confidence and severity batch mode writes into that row.
   */
  lemma StreamAgreesWithBatch(t: Table, preds: seq<seq<int>>, classes: seq<string>, i: nat)
    requires WellFormed(t) && |preds| == |t.rows| && WellShaped(preds, classes) && i < |t.rows|
    ensures RunDetection(t, preds, classes).Ok?
    ensures var row := RunDetection(t, preds, classes).value.rows[i];
            var e := StreamEvent(preds, classes, i);
      row[PredictedColumn] == Str(e.prediction) && row[ConfidenceColumn] == Int(e.confidence)
      && row[SeverityColumn] == Str(e.severity)
  {
  }

  /**
   * A three-row table whose rows the classifier scores as normal, dos and probe
   * comes back tagged Low, High and Medium, with each row's top score as confidence.
   */
  lemma ThreeRowScenario(t: Table)
    requires WellFormed(t) && |t.rows| == 3
    ensures var preds := [[910, 50, 40], [100, 770, 130], [200, 250, 550]];
            var r := RunDetection(t, preds, ["normal", "dos", "probe"]);
      && r.Ok?
      && r.value.rows[0][SeverityColumn] == Str("Low") && r.value.rows[0][ConfidenceColumn] == Int(910)
      && r.value.rows[1][SeverityColumn] == Str("High") && r.value.rows[1][ConfidenceColumn] == Int(770)
      && r.value.rows[2][SeverityColumn] == Str("Medium") && r.value.rows[2][ConfidenceColumn] == Int(550)
  {
    var preds := [[910, 50, 40], [100, 770, 130], [200, 250, 550]];
    var classes := ["normal", "dos", "probe"];
    assert FirstMaxIndex(preds[0]) == 0;
    assert FirstMaxIndex(preds[1]) == 1;
    assert FirstMaxIndex(preds[2]) == 2;
    DetectSeverityTable();
  }
}
