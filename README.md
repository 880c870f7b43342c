# Play-type feature bookkeeping, modelled in Dafny

The script `pbp_situation.py` trains a classifier to predict whether a
football play is a run or a pass. It then asks that classifier about
hand-written game situations. The classifier, the train/test split and the
one-hot encoder of whole tables are library calls. What the script itself
decides is how the feature tables are put together. This project models
that bookkeeping and proves what it guarantees:

- `tables.dfy` (module `Tables`): a frame is an ordered column list plus rows
  keyed by a row label. A cell may be missing (the frame's NaN). `Reindex`
  lays a row out on a given column list: present columns keep their cell,
  absent ones hold 0, and all other columns are dropped. The prediction row
  and the train/test join both use it.
- `situation.dfy` (module `Situation`): `predict_play`. The 14 situation
  values are bound to fixed column names, and the one-row frame is one-hot
  encoded with the first level dropped. The class `EncodedSituation` is the
  frame `situation_encoded`, which the loop updates in place. `AlignSituation`
  is that loop plus the final selection, proved equal to `Reindex` on the
  training columns.
- `training.dfy` (module `Training`): `train_model` around the classifier.
  The test encoding is joined on the training columns (left join, fill 0).
  Rows with a missing feature or label are then dropped from features and
  labels alike. The training columns are returned.
- `pipeline.dfy` (module `Pipeline`): the top level. Only run and pass plays
  are kept. The play type is the label. Every prediction row has the
  training columns.

## Model

| member | source | states |
|---|---|---|
| `Tables.Reindex` | pbp_situation.py:174-179 | the result has exactly the target columns; a column the row had keeps its cell, a column it lacked holds 0 |
| `Tables.AlignRow` | pbp_situation.py:174-179 | the aligned one-row frame has exactly the target columns, in the target order, and a cell for each |
| `Tables.AlignFrame` | pbp_situation.py:105 | every row is laid out on the target columns; no row is added or removed |
| `Tables.ReindexOnOwnColumns` | pbp_situation.py:174-179 | a row that already has exactly the target columns is left unchanged |
| `Tables.AlignRowIdempotent` | pbp_situation.py:174-179 | aligning twice onto the same columns equals aligning once |
| `Tables.AlignRowOnOwnColumns` | pbp_situation.py:174-179 | a well-formed row already on the target columns, in order, is unchanged |
| `Tables.AlignFrameOnOwnColumns` | pbp_situation.py:105 | a well-formed frame aligned on its own columns is unchanged |
| `Tables.AlignFrameIdempotent` | pbp_situation.py:105 | aligning a frame twice onto the same columns equals aligning it once |
| `Situation.Zip` | pbp_situation.py:165-167 | for distinct names, the k-th value is bound to the k-th name and nothing else is bound |
| `Situation.Bind` | pbp_situation.py:165-167 | a list of the wrong length is rejected with a shape error; otherwise value k is bound to column k, with the offense team at 12 and the defense team at 13 |
| `Situation.Without` | pbp_situation.py:171 | the result holds exactly the columns not dropped and is no longer than the input |
| `Situation.DummiesDropFirstOneRow` | pbp_situation.py:170-171 | one-hot encoding a one-row frame with the first level dropped removes the team columns, adds no indicator column, and keeps every other cell |
| `Situation.AsWrittenFeatures` | pbp_situation.py:164-179 | the prediction row fails with a shape error exactly on a situation of the wrong length; otherwise it has exactly the training columns in order, a non-team situation column keeps the situation's value, and every other training column holds 0 |
| `Situation.EncodedSituation.constructor` | pbp_situation.py:171 | the mutable frame starts as the encoded row |
| `Situation.EncodedSituation.Contains` | pbp_situation.py:175 | true exactly when the column is in the frame |
| `Situation.EncodedSituation.SetColumn` | pbp_situation.py:176 | an existing column is overwritten in place; a new one is appended last; the frame stays well formed |
| `Situation.EncodedSituation.Select` | pbp_situation.py:179 | selecting a column the frame lacks fails and leaves the frame unchanged; otherwise the frame becomes exactly the selected columns, in order |
| `Situation.AlignSituation` | pbp_situation.py:173-179 | the loop plus the selection gives exactly the training columns in training order; encoded cells are kept, missing training columns hold 0, and the result equals `AlignRow` |
| `Situation.PredictFeatures` | pbp_situation.py:164-179 | the prediction row fails exactly on a situation of the wrong length; otherwise it has exactly the training columns and equals `AsWrittenFeatures` |
| `Situation.AsWrittenTeamIndicatorsZero` | pbp_situation.py:170-176 | as written, every team indicator among the training columns holds 0, whatever team the situation names |
| `Situation.AsWrittenMissesOffenseTeam` | pbp_situation.py:223 | the first example situation (Kansas City on offense) gets 0 in `posteam_KC` |
| `Situation.IndicatorInjective` | pbp_situation.py:170-171 | an indicator name determines its team column and its level |
| `Situation.AllLevelsIndicator` | pbp_situation.py:100-103 | in the intended one-row encoding, a team indicator exists, with value 1, exactly when the row names that team |
| `Situation.DummiesAllLevelsOneRow` | pbp_situation.py:100-103 | the intended one-row encoding keeps every non-team cell and adds, with value 1, exactly the indicator of each team the row names |
| `Situation.IntendedFeatures` | pbp_situation.py:169-179 | the intended prediction row fails exactly on a wrong-length situation; otherwise it has exactly the training columns |
| `Situation.IntendedTeamIndicator` | pbp_situation.py:100-101 | with the intended encoding, a team indicator among the training columns is 1 exactly when the situation names that team; an unseen or reference team leaves every indicator at 0 |
| `Situation.IntendedSetsOffenseTeam` | pbp_situation.py:101 | the first example situation gets 1 in `posteam_KC` under the intended encoding |
| `Training.AlignLeft` | pbp_situation.py:105 | after the left join both frames have exactly the training columns, in order; no rows are added or removed |
| `Training.AlignLeftKeepsTraining` | pbp_situation.py:105 | the left join leaves the training encoding unchanged |
| `Training.AlignLeftTestCells` | pbp_situation.py:105 | a test row keeps its cells in training columns, holds 0 in training columns it lacked, and loses every other column |
| `Training.RowsWithoutMissing` | pbp_situation.py:112 | a feature row is in the index exactly when none of its cells is missing |
| `Training.LabelsPresent` | pbp_situation.py:112 | a row is in the index exactly when its label is present |
| `Training.CompleteIndex` | pbp_situation.py:112 | a row is kept exactly when its features have no missing cell and its label is present |
| `Training.Clean` | pbp_situation.py:112-117 | cleaned features and cleaned labels have the same row index, the complete one, and keep their original rows and labels |
| `Training.CleanNeverGrows` | pbp_situation.py:112-117 | cleaning never increases the number of feature rows or labels |
| `Training.CleanedHasNoMissing` | pbp_situation.py:111-117 | no kept row has a missing feature or a missing label |
| `Training.CleanIdempotent` | pbp_situation.py:112-117 | cleaning an already cleaned pair changes nothing |
| `Training.PrepareTraining` | pbp_situation.py:102-136 | the returned feature columns are the training columns; the training split keeps exactly its complete rows, unchanged; the test split keeps exactly the rows complete after the join, laid out on those columns; each split's features and labels share one index |
| `Pipeline.ColumnCells` | pbp_situation.py:213 | on a frame that has the column, the label column has one cell per row, that row's cell in the column |
| `Pipeline.FilterRunPass` | pbp_situation.py:202 | a frame without a play-type column raises a key error; otherwise a row is kept exactly when its play type is run or pass, and kept rows are unchanged |
| `Pipeline.FilterNeverGrows` | pbp_situation.py:202 | the filter never increases the number of rows |
| `Pipeline.FilterIdempotent` | pbp_situation.py:202 | filtering a filtered frame changes nothing |
| `Pipeline.FilteredLabelsRunOrPass` | pbp_situation.py:202-213 | every label taken from the filtered frame is run or pass, so none is missing |
| `Pipeline.CleanAfterFilter` | pbp_situation.py:202-216 | on any split of the filtered plays, cleaning drops a row only for a missing feature, and every kept label is run or pass |
| `Pipeline.PredictionMatchesTraining` | pbp_situation.py:174-179 | every prediction row has exactly the columns the classifier was fitted and scored on, in the same order |

## Left out

- Reading the CSV file, `head`, and every printed report: these are I/O.
- `train_test_split`, the random-forest classifier (fit, predict, predict_proba), the accuracy and the classification report: these are library calls with randomised and floating-point internals. The split is represented only by `Pipeline.CleanAfterFilter` taking any part of the labels.
- One-hot encoding of whole tables (lines 103-104): this is a library call. The training functions start from the encoded frames. For one row, the encoding is modelled by its effect (`DummiesDropFirstOneRow`).
- Training.PrepareTraining: requires every row of the encoded training frame to have every column. This is what the encoder produces, but the model assumes it rather than deriving it.
- The column slice at lines 207-209 (`df_filtered[[...]]`): this is a pandas selection with no logic of its own.
- Row order: rows are kept in a map by row label, so the order in which `.loc` and the filter return rows is not modelled.
- Cell types: floating-point values (`wp`, `ep`) are opaque `Dec` cells that are never computed with. Indicator cells are modelled as the integers 0 and 1, not as booleans.
- `successful_play`: a stub that always returns 0.
- `test.py`: it only loads and prints a file.
- Situation.AsWrittenTeamIndicatorsZero, Situation.IntendedTeamIndicator: exclude the level `timeouts_remaining`, whose indicator name would coincide with a timeout column.

## Findings

| source | as written | input that shows it | evidently intended | confidence | as-written member | corrected member |
|---|---|---|---|---|---|---|
| pbp_situation.py:171 | `get_dummies(..., drop_first=True)` on a one-row frame drops the only level of each team column. The situation row therefore carries no team indicator, and the fill loop sets every team indicator column to 0. | the first example situation `[2, 5, 30, 0, 720, 1620, 2520, 0, 0.52, 1.8, 3, 3, 'KC', 'BUF']` with `posteam_KC` among the training columns | the same indicators as training (comment at line 101: `posteam_KC=1`). The situation's team indicator is 1 when training saw that team and did not take it as reference; all indicators are 0 otherwise | high; not executed | `Situation.AsWrittenMissesOffenseTeam` | `Situation.IntendedTeamIndicator` |
