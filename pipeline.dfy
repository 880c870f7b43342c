/** The script's top level: keep only run and pass plays, take the play type
    as the label, prepare training, and build prediction rows on the columns
    training returned. */
module Pipeline {
  import opened Tables
  import opened Training
  import Situation

  /** The column holding the play type. */
  const PlayType: Column := "play_type"

  /** `isin(['run', 'pass'])`: a missing play type is not in the list. */
  predicate IsRunOrPass(c: Cell) {
    c == Text("run") || c == Text("pass")
  }

  /** `df[col]` on a frame that has the column: its cells, by row label. */
  function ColumnCells(df: Frame, col: Column): (y: Labels)
    requires col in df.columns
    ensures y.Keys == df.rows.Keys
    ensures forall i :: i in y ==> y[i] == CellOf(df.rows[i], col)
  {
    map i | i in df.rows :: CellOf(df.rows[i], col)
  }

  /** `df[df['play_type'].isin(['run', 'pass'])]`: a frame without a play-type
      column raises a key error; otherwise a row is kept exactly when its play
      type is run or pass, kept rows are unchanged, and the columns stay. */
  function FilterRunPass(df: Frame): (r: Result<Frame>)
    ensures r.Err? <==> PlayType !in df.columns
    ensures r.Err? ==> r.error == KeyError(PlayType)
    ensures r.Ok? ==> r.value.columns == df.columns
    ensures r.Ok? ==> forall i :: i in r.value.rows <==> i in df.rows && IsRunOrPass(CellOf(df.rows[i], PlayType))
    ensures r.Ok? ==> forall i :: i in r.value.rows ==> r.value.rows[i] == df.rows[i]
  {
    if PlayType !in df.columns then Err(KeyError(PlayType))
    else Ok(Frame(df.columns, map i | i in df.rows && IsRunOrPass(CellOf(df.rows[i], PlayType)) :: df.rows[i]))
  }

  /** The filter never adds rows. */
  lemma FilterNeverGrows(df: Frame)
    requires PlayType in df.columns
    ensures |FilterRunPass(df).value.rows| <= |df.rows|
  {
    var kept := FilterRunPass(df).value.rows;
    SubsetNoLarger(kept.Keys, df.rows.Keys);
    assert |kept| == |kept.Keys| && |df.rows| == |df.rows.Keys|;
  }

  /** Filtering a filtered frame changes nothing. */
  lemma FilterIdempotent(df: Frame)
    requires PlayType in df.columns
    ensures FilterRunPass(FilterRunPass(df).value) == FilterRunPass(df)
  {
    var once := FilterRunPass(df).value;
    var twice := FilterRunPass(once).value;
    assert twice.rows.Keys == once.rows.Keys;
    assert twice.rows == once.rows;
  }

  /** Every label taken from the filtered frame is run or pass, so none is
      missing. */
  lemma FilteredLabelsRunOrPass(df: Frame, i: Index)
    requires PlayType in df.columns
    requires i in ColumnCells(FilterRunPass(df).value, PlayType)
    ensures IsRunOrPass(ColumnCells(FilterRunPass(df).value, PlayType)[i])
    ensures ColumnCells(FilterRunPass(df).value, PlayType)[i] != Missing
  {
  }

  /** `part` holds some of the labels of `all`, each unchanged, as a split
      of the rows does. */
  predicate PartOf(part: Labels, all: Labels) {
    forall i :: i in part ==> i in all && part[i] == all[i]
  }

  /** For any split of the filtered labels (a part of them, with features on
      the same rows), the label side of cleaning drops nothing: a row is kept
      exactly when its features have no missing cell, and every kept label is
      run or pass. */
  lemma CleanAfterFilter(df: Frame, x: Frame, y: Labels)
    requires PlayType in df.columns
    requires PartOf(y, ColumnCells(FilterRunPass(df).value, PlayType))
    requires x.rows.Keys == y.Keys
    ensures CompleteIndex(x, y) == RowsWithoutMissing(x)
    ensures forall i :: i in Clean(x, y).1 ==> IsRunOrPass(Clean(x, y).1[i])
  {
    forall i | i in y
      ensures y[i] != Missing
    {
      FilteredLabelsRunOrPass(df, i);
    }
  }

  /** The feature row of every prediction, as written and with the intended
      team indicators, has exactly the columns the classifier was fitted on,
      in the same order, as do the rows it was scored on. */
  lemma PredictionMatchesTraining(trainEncoded: Frame, testEncoded: Frame, yTrain: Labels, yTest: Labels,
                                  situation: seq<Cell>)
    requires FrameWF(trainEncoded)
    requires |situation| == |Situation.SituationColumns|
    ensures var p := PrepareTraining(trainEncoded, testEncoded, yTrain, yTest);
            var row := Situation.AsWrittenFeatures(situation, p.featureColumns);
            var intended := Situation.IntendedFeatures(situation, p.featureColumns);
            && row.Ok? && intended.Ok?
            && row.value.columns == intended.value.columns == p.xTrain.columns == p.xTest.columns
            && row.value.record.Keys == intended.value.record.Keys == ColumnSet(p.xTrain.columns)
  {
  }
}
