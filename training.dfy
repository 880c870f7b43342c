/** The bookkeeping of `train_model` around the classifier: the test encoding
    is aligned on the training encoding's columns (a left join filling 0),
    rows with a missing feature or a missing label are dropped from features
    and labels alike, and the training columns are returned for later
    predictions. The one-hot encoding of the two splits is taken as given:
    the functions here start from the encoded frames. */
module Training {
  import opened Tables

  /** A label column by row label; a missing label is `Missing`. */
  type Labels = map<Index, Cell>

  /** Left join on the columns, filling 0: the training frame is reindexed on
      its own columns and the test frame on the training columns. No row of
      either frame is added or removed, and both end up with exactly the
      training columns in training order. */
  function AlignLeft(train: Frame, test: Frame): (r: (Frame, Frame))
    ensures r.0.columns == train.columns && r.1.columns == train.columns
    ensures r.0.rows.Keys == train.rows.Keys && r.1.rows.Keys == test.rows.Keys
    ensures FrameWF(r.1)
  {
    (AlignFrame(train, train.columns), AlignFrame(test, train.columns))
  }

  /** The join leaves a well-formed training frame exactly as it was. */
  lemma AlignLeftKeepsTraining(train: Frame, test: Frame)
    requires FrameWF(train)
    ensures AlignLeft(train, test).0 == train
  {
    AlignFrameOnOwnColumns(train);
  }

  /** Each test cell after the join: a training column the test row had keeps
      its cell, one it lacked holds 0, and a column training never produced
      is gone. */
  lemma AlignLeftTestCells(train: Frame, test: Frame, i: Index, c: Column)
    requires i in test.rows
    ensures var aligned := AlignLeft(train, test).1.rows[i];
            && (c in aligned <==> c in train.columns)
            && (c in aligned && c in test.rows[i] ==> aligned[c] == test.rows[i][c])
            && (c in aligned && c !in test.rows[i] ==> aligned[c] == Fill)
  {
  }

  /** A row without a missing cell. */
  predicate Complete(record: Record) {
    forall c :: c in record ==> record[c] != Missing
  }

  /** `frame.dropna().index`: the rows that have no missing cell. */
  function RowsWithoutMissing(x: Frame): (ix: set<Index>)
    ensures ix <= x.rows.Keys
    ensures forall i :: i in x.rows ==> (i in ix <==> forall c :: c in x.rows[i] ==> x.rows[i][c] != Missing)
  {
    set i | i in x.rows && Complete(x.rows[i])
  }

  /** `labels.dropna().index`: the rows whose label is present. */
  function LabelsPresent(y: Labels): (ix: set<Index>)
    ensures ix <= y.Keys
    ensures forall i :: i in y ==> (i in ix <==> y[i] != Missing)
  {
    set i | i in y && y[i] != Missing
  }

  /** The rows kept for fitting or scoring: those complete on the feature side
      intersected with those labelled on the label side. A row is kept
      exactly when it has features without a missing cell and a label. */
  function CompleteIndex(x: Frame, y: Labels): (ix: set<Index>)
    ensures forall i :: i in ix <==> i in x.rows && Complete(x.rows[i]) && i in y && y[i] != Missing
  {
    RowsWithoutMissing(x) * LabelsPresent(y)
  }

  /** Features and labels both restricted to the complete index: the two
      results have the same row labels, and the rows and labels they keep
      are the original ones. */
  function Clean(x: Frame, y: Labels): (r: (Frame, Labels))
    ensures r.0.columns == x.columns
    ensures r.0.rows.Keys == CompleteIndex(x, y) && r.1.Keys == CompleteIndex(x, y)
    ensures forall i :: i in r.0.rows ==> r.0.rows[i] == x.rows[i] && r.1[i] == y[i]
  {
    var ix := CompleteIndex(x, y);
    (Frame(x.columns, map i | i in ix :: x.rows[i]), map i | i in ix :: y[i])
  }

  /** A subset has no more elements than the set containing it. */
  lemma {:induction false} SubsetNoLarger<T>(a: set<T>, b: set<T>)
    requires a <= b
    ensures |a| <= |b|
    decreases a
  {
    if a != {} {
      var i :| i in a;
      SubsetNoLarger(a - {i}, b - {i});
    }
  }

  /** Cleaning never adds a row: the features and the labels it returns have
      no more rows than those it was given. */
  lemma CleanNeverGrows(x: Frame, y: Labels)
    ensures |Clean(x, y).0.rows| <= |x.rows|
    ensures |Clean(x, y).1| <= |y|
  {
    var r := Clean(x, y);
    SubsetNoLarger(r.0.rows.Keys, x.rows.Keys);
    SubsetNoLarger(r.1.Keys, y.Keys);
    assert |r.0.rows| == |r.0.rows.Keys| && |x.rows| == |x.rows.Keys|;
    assert |r.1| == |r.1.Keys| && |y| == |y.Keys|;
  }

  /** No row that reaches the classifier has a missing feature or label. */
  lemma CleanedHasNoMissing(x: Frame, y: Labels, i: Index)
    requires i in Clean(x, y).0.rows
    ensures Complete(Clean(x, y).0.rows[i]) && Clean(x, y).1[i] != Missing
  {
  }

  /** Cleaning what was already cleaned changes nothing. */
  lemma CleanIdempotent(x: Frame, y: Labels)
    ensures Clean(Clean(x, y).0, Clean(x, y).1) == Clean(x, y)
  {
    var r := Clean(x, y);
    var rr := Clean(r.0, r.1);
    assert rr.0.rows.Keys == r.0.rows.Keys;
    assert rr.0.rows == r.0.rows;
    assert rr.1 == r.1;
  }

  /** What `train_model` feeds the classifier and returns for predictions. */
  datatype Prepared = Prepared(
    xTrain: Frame, yTrain: Labels,
    xTest: Frame, yTest: Labels,
    featureColumns: seq<Column>)

  /** From the encoded training and test frames and their labels: left-join
      the columns, clean both splits, and take the cleaned training frame's
      columns as the feature columns. The training split keeps exactly its
      complete rows, unchanged; the test split keeps exactly the rows that
      are complete once aligned, each laid out on the feature columns; and
      each split's features and labels share one row index. */
  function PrepareTraining(trainEncoded: Frame, testEncoded: Frame, yTrain: Labels, yTest: Labels): (p: Prepared)
    requires FrameWF(trainEncoded)
    ensures p.featureColumns == trainEncoded.columns
    ensures p.xTrain.columns == p.featureColumns && p.xTest.columns == p.featureColumns
    ensures FrameWF(p.xTrain) && FrameWF(p.xTest)
    ensures p.xTrain.rows.Keys == p.yTrain.Keys && p.xTest.rows.Keys == p.yTest.Keys
    ensures p.xTrain.rows.Keys == CompleteIndex(trainEncoded, yTrain)
    ensures p.xTest.rows.Keys == CompleteIndex(AlignLeft(trainEncoded, testEncoded).1, yTest)
    ensures p.xTest.rows.Keys <= testEncoded.rows.Keys
    ensures forall i :: i in p.xTrain.rows ==> p.xTrain.rows[i] == trainEncoded.rows[i]
    ensures forall i :: i in p.xTest.rows ==> p.xTest.rows[i] == Reindex(testEncoded.rows[i], p.featureColumns)
  {
    var aligned := AlignLeft(trainEncoded, testEncoded);
    AlignLeftKeepsTraining(trainEncoded, testEncoded);
    var train := Clean(aligned.0, yTrain);
    var test := Clean(aligned.1, yTest);
    Prepared(train.0, train.1, test.0, test.1, train.0.columns)
  }
}
