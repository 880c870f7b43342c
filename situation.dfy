/** The feature row `predict_play` hands to the classifier: a fourteen-value
    situation is bound to fixed column names, one-hot encoded, and aligned on
    the training columns by a loop that adds each missing column with value 0
    and a final selection of the training columns in training order. */
module Situation {
  import opened Tables

  /** The fixed column names the situation values are bound to, in order. */
  const SituationColumns: seq<Column> := [
    "down", "ydstogo", "yardline_100", "goal_to_go", "quarter_seconds_remaining",
    "half_seconds_remaining", "game_seconds_remaining", "score_differential", "wp",
    "ep", "posteam_timeouts_remaining", "defteam_timeouts_remaining", "posteam", "defteam"]

  /** The team columns that are one-hot encoded. */
  const Categorical: seq<Column> := ["posteam", "defteam"]

  /** The name one-hot encoding gives the indicator of `level` in column `col`
      (prefix, separator `_`, level). */
  function Indicator(col: Column, level: string): Column {
    col + "_" + level
  }

  predicate Distinct(cols: seq<Column>) {
    forall j, k :: 0 <= j < k < |cols| ==> cols[j] != cols[k]
  }

  lemma SituationColumnsDistinct()
    ensures Distinct(SituationColumns)
  {
  }

  /** The record that binds the k-th value to the k-th column name. */
  function Zip(cols: seq<Column>, values: seq<Cell>): (r: Record)
    requires |cols| == |values| && Distinct(cols)
    ensures r.Keys == ColumnSet(cols)
    ensures forall k :: 0 <= k < |cols| ==> r[cols[k]] == values[k]
  {
    if cols == [] then map[]
    else
      assert forall k :: 0 < k < |cols| ==> cols[k] != cols[0];
      Zip(cols[1..], values[1..])[cols[0] := values[0]]
  }

  /** Building the one-row frame from the situation list: the frame rejects a
      list whose length is not the number of column names, and otherwise binds
      the k-th value to the k-th name (offense team at 12, defense team at 13). */
  function Bind(situation: seq<Cell>): (r: Result<Row>)
    ensures r.Ok? <==> |situation| == |SituationColumns|
    ensures r.Err? ==> r.error == ShapeMismatch(|SituationColumns|, |situation|)
    ensures r.Ok? ==> r.value.columns == SituationColumns && RowWF(r.value)
    ensures r.Ok? ==> forall k :: 0 <= k < |SituationColumns| ==> r.value.record[SituationColumns[k]] == situation[k]
    ensures r.Ok? ==> r.value.record["posteam"] == situation[12] && r.value.record["defteam"] == situation[13]
  {
    if |situation| != |SituationColumns| then
      Err(ShapeMismatch(|SituationColumns|, |situation|))
    else
      SituationColumnsDistinct();
      var record := Zip(SituationColumns, situation);
      assert SituationColumns[12] == "posteam" && SituationColumns[13] == "defteam";
      Ok(Row(SituationColumns, record))
  }

  /** `cols` with every column of `drop` removed. */
  function Without(cols: seq<Column>, drop: seq<Column>): (r: seq<Column>)
    ensures forall c :: c in r <==> c in cols && c !in drop
    ensures |r| <= |cols|
  {
    if cols == [] then []
    else if cols[0] in drop then Without(cols[1..], drop)
    else [cols[0]] + Without(cols[1..], drop)
  }

  /** One-hot encoding of a ONE-ROW frame with the first level of each
      categorical column dropped. A single row holds at most one level per
      categorical column, and dropping the first level removes it, so the
      categorical columns disappear and no indicator column is produced; the
      other columns keep their cells. */
  function DummiesDropFirstOneRow(row: Row, categorical: seq<Column>): (r: Row)
    requires RowWF(row)
    ensures RowWF(r)
    ensures forall c :: c in r.record <==> c in row.record && c !in categorical
    ensures forall c :: c in r.record ==> r.record[c] == row.record[c]
  {
    Row(Without(row.columns, categorical), map c | c in row.record && c !in categorical :: row.record[c])
  }

  /** The first twelve situation columns are not team columns. */
  lemma NonTeamSituationColumns()
    ensures forall k :: 0 <= k < 12 ==> SituationColumns[k] !in Categorical
  {
  }

  /** The feature row `predict_play` computes, as a function of its inputs:
      a situation of the wrong length is rejected when the frame is built;
      otherwise the row has exactly the training columns, in order, a
      non-team situation column among them keeps the situation's value, and
      every other training column holds 0. */
  function AsWrittenFeatures(situation: seq<Cell>, featureColumns: seq<Column>): (r: Result<Row>)
    ensures r.Ok? <==> |situation| == |SituationColumns|
    ensures r.Err? ==> r.error == ShapeMismatch(|SituationColumns|, |situation|)
    ensures r.Ok? ==> r.value.columns == featureColumns && RowWF(r.value)
    ensures r.Ok? ==> forall k :: 0 <= k < 12 && SituationColumns[k] in featureColumns ==>
      r.value.record[SituationColumns[k]] == situation[k]
    ensures r.Ok? ==> forall c :: c in featureColumns && c !in SituationColumns ==> r.value.record[c] == Fill
  {
    var bound := Bind(situation);
    if bound.Err? then Err(bound.error)
    else
      var encoded := DummiesDropFirstOneRow(bound.value, Categorical);
      NonTeamSituationColumns();
      assert forall k :: 0 <= k < 12 ==> encoded.record[SituationColumns[k]] == situation[k];
      assert forall c :: c in encoded.record ==> c in SituationColumns;
      Ok(AlignRow(encoded, featureColumns))
  }

  /** The one-row frame `situation_encoded`, which `predict_play` updates in
      place and then replaces by its selection of the training columns. */
  class EncodedSituation {
    var columns: seq<Column>
    var record: Record

    predicate Valid()
      reads this
    {
      record.Keys == ColumnSet(columns)
    }

    constructor (row: Row)
      requires RowWF(row)
      ensures Valid() && columns == row.columns && record == row.record
    {
      columns := row.columns;
      record := row.record;
    }

    /** `col in frame.columns` */
    method Contains(col: Column) returns (b: bool)
      requires Valid()
      ensures b <==> col in columns
    {
      b := col in columns;
    }

    /** `frame[col] = v`: an existing column is overwritten in place, a new one
        is appended after the others. */
    method SetColumn(col: Column, v: Cell)
      requires Valid()
      modifies this
      ensures Valid()
      ensures columns == if col in old(columns) then old(columns) else old(columns) + [col]
      ensures record == old(record)[col := v]
    {
      if col !in columns {
        columns := columns + [col];
      }
      record := record[col := v];
    }

    /** `frame = frame[cols]`: selecting a column the frame lacks raises a
        key error and leaves the frame as it was; otherwise the frame becomes
        exactly the columns `cols`, in that order, with their cells. */
    method Select(cols: seq<Column>) returns (ok: bool)
      requires Valid()
      modifies this
      ensures Valid()
      ensures ok <==> ColumnSet(cols) <= ColumnSet(old(columns))
      ensures ok ==> columns == cols && record == Reindex(old(record), cols)
      ensures !ok ==> columns == old(columns) && record == old(record)
    {
      ok := ColumnSet(cols) <= ColumnSet(columns);
      if ok {
        columns := cols;
        record := Reindex(record, cols);
      }
    }
  }

  /** The alignment loop of `predict_play` on the encoded one-row frame: for
      every training column the frame lacks, add it with value 0, then select
      the training columns in training order. The result has exactly the
      training columns, in order; a column the encoded row had keeps its cell,
      a column it lacked holds 0, and every other column is dropped. */
  method AlignSituation(encoded: Row, featureColumns: seq<Column>) returns (aligned: Row)
    requires RowWF(encoded)
    ensures aligned.columns == featureColumns && RowWF(aligned)
    ensures forall c :: c in featureColumns && c in encoded.record ==> aligned.record[c] == encoded.record[c]
    ensures forall c :: c in featureColumns && c !in encoded.record ==> aligned.record[c] == Fill
    ensures aligned == AlignRow(encoded, featureColumns)
  {
    var frame := new EncodedSituation(encoded);
    for k := 0 to |featureColumns|
      invariant frame.Valid()
      invariant encoded.record.Keys <= frame.record.Keys
      invariant forall j :: 0 <= j < k ==> featureColumns[j] in frame.record
      invariant forall c :: c in frame.record ==>
        frame.record[c] == if c in encoded.record then encoded.record[c] else Fill
    {
      var present := frame.Contains(featureColumns[k]);
      if !present {
        frame.SetColumn(featureColumns[k], Fill);
      }
    }
    ghost var filled := frame.record;
    assert ColumnSet(featureColumns) <= ColumnSet(frame.columns) by {
      forall c | c in featureColumns
        ensures c in frame.record
      {
        var j :| 0 <= j < |featureColumns| && featureColumns[j] == c;
      }
    }
    var ok := frame.Select(featureColumns);
    assert ok;
    assert frame.record == Reindex(encoded.record, featureColumns) by {
      forall c | c in frame.record
        ensures frame.record[c] == Reindex(encoded.record, featureColumns)[c]
      {
        assert filled[c] == if c in encoded.record then encoded.record[c] else Fill;
      }
    }
    aligned := Row(frame.columns, frame.record);
  }

  /** The feature row of `predict_play`: bind the situation, one-hot encode
      it, and align it on the training columns. A situation of the wrong
      length is rejected when the frame is built. */
  method PredictFeatures(situation: seq<Cell>, featureColumns: seq<Column>) returns (r: Result<Row>)
    ensures r.Ok? <==> |situation| == |SituationColumns|
    ensures r.Err? ==> r.error == ShapeMismatch(|SituationColumns|, |situation|)
    ensures r.Ok? ==> r.value.columns == featureColumns && RowWF(r.value)
    ensures r == AsWrittenFeatures(situation, featureColumns)
  {
    var bound := Bind(situation);
    if bound.Err? {
      return Err(bound.error);
    }
    var encoded := DummiesDropFirstOneRow(bound.value, Categorical);
    var aligned := AlignSituation(encoded, featureColumns);
    r := Ok(aligned);
  }

  /** An indicator name determines its column and level: both team columns
      have seven letters, so the separator sits at the same place. */
  lemma IndicatorInjective(c1: Column, v1: string, c2: Column, v2: string)
    requires c1 in Categorical && c2 in Categorical
    requires Indicator(c1, v1) == Indicator(c2, v2)
    ensures c1 == c2 && v1 == v2
  {
    var n := Indicator(c1, v1);
    assert |c1| == |c2| == 7;
    assert n[..7] == c1 && n[..7] == c2;
    assert n[8..] == v1 && n[8..] == v2;
  }

  /** `name` starts like a team indicator: a team column's initial, then `_`
      at position 7. */
  predicate TeamPrefixed(name: string) {
    |name| >= 8 && name[7] == '_' && (name[0] == 'p' || name[0] == 'd')
  }

  /** Among the situation's column names, only the two timeout columns start
      like a team indicator. */
  lemma TeamPrefixedSituationColumns()
    ensures forall k :: 0 <= k < |SituationColumns| && TeamPrefixed(SituationColumns[k]) ==>
      SituationColumns[k][8..] == "timeouts_remaining"
  {
    forall k | 0 <= k < |SituationColumns|
      ensures !TeamPrefixed(SituationColumns[k]) || SituationColumns[k][8..] == "timeouts_remaining"
    {
      if k < 10 || k >= 12 {
        assert !TeamPrefixed(SituationColumns[k]);
      } else {
        assert SituationColumns[k][8..] == "timeouts_remaining";
      }
    }
  }

  /** A team indicator is never one of the situation's own column names,
      unless its level turns the name into a timeout column. */
  lemma IndicatorOutsideSituation(col: Column, level: string)
    requires col in Categorical
    requires level != "timeouts_remaining"
    ensures Indicator(col, level) !in SituationColumns
  {
    var n := Indicator(col, level);
    assert TeamPrefixed(n) && n[8..] == level;
    TeamPrefixedSituationColumns();
    forall k | 0 <= k < |SituationColumns|
      ensures SituationColumns[k] != n
    {
    }
  }

  /** As written, the feature row never sets a team indicator: whichever team
      the situation names, every team indicator among the training columns
      holds the fill value 0, because the one-row encoding produced none. */
  lemma AsWrittenTeamIndicatorsZero(situation: seq<Cell>, featureColumns: seq<Column>, col: Column, level: string)
    requires |situation| == |SituationColumns|
    requires col in Categorical && level != "timeouts_remaining"
    requires Indicator(col, level) in featureColumns
    ensures AsWrittenFeatures(situation, featureColumns).Ok?
    ensures AsWrittenFeatures(situation, featureColumns).value.record[Indicator(col, level)] == Fill
  {
    IndicatorOutsideSituation(col, level);
  }

  /** The indicator column that one-hot encoding without dropping a level
      gives the cell of `col`: one column for a text level, none for a
      missing cell. */
  function LevelColumn(record: Record, col: Column): (r: seq<Column>)
    ensures |r| <= 1
  {
    var cell := CellOf(record, col);
    if cell.Text? then [Indicator(col, cell.s)] else []
  }

  /** The indicator columns of every categorical column, in order. */
  function LevelColumns(record: Record, categorical: seq<Column>): (r: seq<Column>)
    ensures |r| <= |categorical|
  {
    if categorical == [] then []
    else LevelColumn(record, categorical[0]) + LevelColumns(record, categorical[1..])
  }

  /** The one-row encoding the training encoding evidently calls for: the
      other columns as they are, followed by an indicator holding 1 for the
      level each categorical cell names. Reindexing on the training columns
      then drops the indicator of a reference level and of a level training
      never saw, so both leave every indicator of their column at 0. */
  function DummiesAllLevelsOneRow(row: Row, categorical: seq<Column>): (r: Row)
    requires RowWF(row)
    ensures RowWF(r)
    ensures forall c :: c in r.record <==>
      (c in row.record && c !in categorical) || c in LevelColumns(row.record, categorical)
    ensures forall c :: c in LevelColumns(row.record, categorical) ==> r.record[c] == Int(1)
    ensures forall c :: c in r.record && c !in LevelColumns(row.record, categorical) ==> r.record[c] == row.record[c]
  {
    var rest := DummiesDropFirstOneRow(row, categorical);
    var levels := LevelColumns(row.record, categorical);
    Row(rest.columns + levels, rest.record + map n | n in levels :: Int(1))
  }

  /** In the intended one-row encoding a team indicator is present, holding
      1, exactly when the row names that team in that column. */
  lemma AllLevelsIndicator(row: Row, col: Column, level: string)
    requires RowWF(row) && col in Categorical
    requires Indicator(col, level) !in row.record
    ensures var r := DummiesAllLevelsOneRow(row, Categorical).record;
            && (Indicator(col, level) in r <==> CellOf(row.record, col) == Text(level))
            && (Indicator(col, level) in r ==> r[Indicator(col, level)] == Int(1))
  {
    var n := Indicator(col, level);
    var levels := LevelColumns(row.record, Categorical);
    assert Categorical[1..] == ["defteam"] && ["defteam"][1..] == [];
    assert LevelColumns(row.record, ["defteam"]) == LevelColumn(row.record, "defteam") + [];
    assert levels == LevelColumn(row.record, "posteam") + LevelColumn(row.record, "defteam");
    if n in levels {
      var other := if n in LevelColumn(row.record, "posteam") then "posteam" else "defteam";
      assert n in LevelColumn(row.record, other);
      IndicatorInjective(col, level, other, CellOf(row.record, other).s);
    }
  }

  /** The feature row with the team indicators the classifier was trained on. */
  function IntendedFeatures(situation: seq<Cell>, featureColumns: seq<Column>): (r: Result<Row>)
    ensures r.Ok? <==> |situation| == |SituationColumns|
    ensures r.Ok? ==> r.value.columns == featureColumns && RowWF(r.value)
  {
    var bound := Bind(situation);
    if bound.Err? then Err(bound.error)
    else Ok(AlignRow(DummiesAllLevelsOneRow(bound.value, Categorical), featureColumns))
  }

  /** With the intended encoding, a team indicator among the training columns
      is 1 exactly when the situation names that team in that column: a team
      training saw (and did not take as reference) gets its indicator set,
      every other indicator of the column stays 0, and a team training never
      saw leaves them all at 0. */
  lemma IntendedTeamIndicator(situation: seq<Cell>, featureColumns: seq<Column>, k: nat, level: string)
    requires |situation| == |SituationColumns|
    requires 12 <= k < |SituationColumns| && level != "timeouts_remaining"
    requires Indicator(SituationColumns[k], level) in featureColumns
    ensures IntendedFeatures(situation, featureColumns).Ok?
    ensures IntendedFeatures(situation, featureColumns).value.record[Indicator(SituationColumns[k], level)]
         == if situation[k] == Text(level) then Int(1) else Fill
  {
    var bound := Bind(situation).value;
    IndicatorOutsideSituation(SituationColumns[k], level);
    AllLevelsIndicator(bound, SituationColumns[k], level);
  }

  /** The first example situation of the script: second and five from the
      opponent's 30, Kansas City on offense against Buffalo. */
  const KansasCityOnOffense: seq<Cell> := [
    Int(2), Int(5), Int(30), Int(0), Int(720), Int(1620), Int(2520), Int(0),
    Dec(0.52), Dec(1.8), Int(3), Int(3), Text("KC"), Text("BUF")]

  /** The counterexample, as written: with training columns that include the
      Kansas City offense indicator, the feature row of the Kansas City
      situation holds 0 there. */
  lemma AsWrittenMissesOffenseTeam(featureColumns: seq<Column>)
    requires "posteam_KC" in featureColumns
    ensures var r := AsWrittenFeatures(KansasCityOnOffense, featureColumns);
            r.Ok? && r.value.record["posteam_KC"] == Int(0)
  {
    assert Indicator("posteam", "KC") == "posteam_KC";
    AsWrittenTeamIndicatorsZero(KansasCityOnOffense, featureColumns, "posteam", "KC");
  }

  /** The same situation under the intended encoding holds 1 there. */
  lemma IntendedSetsOffenseTeam(featureColumns: seq<Column>)
    requires "posteam_KC" in featureColumns
    ensures var r := IntendedFeatures(KansasCityOnOffense, featureColumns);
            r.Ok? && r.value.record["posteam_KC"] == Int(1)
  {
    assert Indicator("posteam", "KC") == "posteam_KC";
    IntendedTeamIndicator(KansasCityOnOffense, featureColumns, 12, "KC");
  }
}
