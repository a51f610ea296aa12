# Resumable CAPICE pre-computation, modelled in Dafny

This project models the core of `calculate_capice_precompute_scores`, which
scores every variant of a CADD-annotated table and writes one output file per
chromosome. The Dafny model covers four parts:

- **The progress record** (`ProgressTracker`, module `ProgressTracking`). This is
  the JSON document `<output>/log_output/progression.json`. It holds `start`,
  `batch_size` and a line counter for every partition file. When no record
  exists, a recovery pass counts the lines of the partition files already in
  the output tree and derives a resume offset from their total.
- **The resumable scoring engine** (`CalculateCapiceScores` of
  `src/pre_compute_capice.py`, module `PreComputeCapice`).
  - It finds the `#Chr` header line.
  - It reads the table in windows of `batch_size` rows, the way `pandas.read_csv`
    does with `skiprows`, `nrows` and `comment='#'` (module `VariantTable`).
  - It appends the projected rows of each window to the gzip partition file of
    their chromosome (module `Partitions`).
  - It stops after the first short window. The offsets are the saved `start`,
    then `2 + b`, `2 + 2b`, and so on (module `Runs`).
- **The earlier engine** of `step9_pre_computed_scores_snv.py` (module `Step9`).
  It runs the same loop from the top of the file and writes `.txt` partitions.
- **The table pre-processing** of `impute_preprocess.py` (modules `Frames`,
  `Categories` and `ImputePreprocess`):
  - filling missing cells from the default map;
  - dropping featureless rows;
  - re-tokenising `dbscSNV-rf_score`;
  - collapsing categorical values onto their kept levels or `"other"`;
  - the level limits of training;
  - deriving level names from the model's feature names;
  - zero-filling model features the encoding did not produce.

## How the model represents the system

- The file system is a set of values passed in. The input table is its
  decompressed lines, and the output tree is a map from path to lines.
- A stored record is an optional ordered dictionary (module `OrderedDicts`,
  which keeps Python's key insertion order). The output tree's recursive glob is
  the list of paths it yields.
- The model's prediction is an uninterpreted function `score` from a row to the
  text `to_csv` writes.
- A pandas `DataFrame` is a `Frame`: named columns of equal height whose cells
  are `Missing` or `Present(text)`. The object-dtype columns and
  `pd.get_dummies` are parameters of the pre-processing.
- `replace_nas` and `impute` take the module tables `cadd_vars` and
  `impute_values` as parameters; `impute(df)` is
  `Impute(df, CaddVars, ImputeValues)`, and `ImputeTablesFit` shows that
  the two constants meet what the lemmas about `impute` ask of them.
- The classes keep their Python fields. `progress_json` is a field that the
  methods reassign, and the engine's `titles`, `not_done` and output tree are
  fields too.
- The loops of the source are loops here, each proved against a specification
  function:
  - the recursive glob registration and line counting;
  - the recovery sum;
  - the window loop;
  - the per-chromosome append loop;
  - `replace_nas`;
  - the levelling loop;
  - the limit and level-name loops;
  - the zero-fill loop.

`src.output_reinitializer` is not part of this model. The resumable engine
takes a `ProgressTracker` as its resume record, because that class provides the
same `get_start_and_batchsize`.

Three facts about the code shape the model:

- The recovered offset is the counter total minus 10, and nothing bounds it
  below (src/progress_tracker.py:60-64).
- No boundary deduplication is done: src/pre_compute_capice.py:70-76 holds
  only a TODO for it.
- Nothing in src/pre_compute_capice.py calls `update_progression`, so the
  engine writes no progress during a run. After the first window the offsets
  are `2 + i * b`, whatever the saved `start` was (src/pre_compute_capice.py:130-134).

## Model

| member | source | states |
|---|---|---|
| OrderedDicts.Put | src/progress_tracker.py:91-102 | `d[k] = v` stores `v` at `k`. A present key keeps its place in the key order; a new key is appended last. The result is again a valid dictionary. |
| OrderedDicts.PutSameValue | src/progress_tracker.py:92-95 | Storing the value a key already holds leaves the dictionary unchanged. |
| ProgressTracking.FreshRecord | src/progress_tracker.py:40 | The record written when none exists has exactly `start` and `batch_size`, both `null`. |
| ProgressTracking.NewPaths | src/progress_tracker.py:47-52 | A path is registered exactly when the glob yields it and it is not yet a key. Each path is registered once. |
| ProgressTracking.Tracked | src/progress_tracker.py:49-59 | The record with counters keeps its earlier keys first, then the new paths in glob order. Each new path holds its file's line count. |
| ProgressTracking.RegisterStep | src/progress_tracker.py:47-52 | One glob step registers the path exactly when it is not a key yet. Registering it appends it to both the list of new paths and the record. |
| ProgressTracking.RecoveredStart | src/progress_tracker.py:56-64 | The recovered `start` is the stored counters plus the lines of the new files, minus 10. Nothing bounds it from below. |
| ProgressTracking.EmptyOutputsRecoverMinusTen | src/progress_tracker.py:60-64 | With no record and only empty partition files, the recovered `start` is -10. |
| ProgressTracking.SumCountersOfNews | src/progress_tracker.py:56-62 | The counter total over a record extended by new files is the old total plus the new files' line counts. |
| ProgressTracking.TotalLines | src/progress_tracker.py:60-62 | The loop's total is -10 plus every per-file counter, in record order. |
| ProgressTracking.ProgressTracker.constructor | src/progress_tracker.py:13-22 | After construction the record is the stored one, or a fresh one. If the glob found new partition files, it is the recovered record. `start` and `batch_size` come from that record, and memory and disk agree. |
| ProgressTracking.ProgressTracker.CheckForProgressJson | src/progress_tracker.py:24-42 | A stored record is loaded along with its `start` and `batch_size`. Otherwise a fresh record is written. |
| ProgressTracking.ProgressTracker.CheckForProcessedFiles | src/progress_tracker.py:44-74 | If no new partition file is found, the record is unchanged. Otherwise it becomes the recovered record with counters, and `start` is its recovered offset. The record is then reloaded from disk. |
| ProgressTracking.ProgressTracker.SaveRecoveredStart | src/progress_tracker.py:60-69 | Sets `start` to the total minus 10 and writes the record with it. |
| ProgressTracking.ProgressTracker.RegisterNewPaths | src/progress_tracker.py:47-52 | Returns the new paths in glob order and gives each a zero counter. |
| ProgressTracking.ProgressTracker.CountLines | src/progress_tracker.py:56-59 | Every new file's counter ends at its line count; a path that is not a regular file stays at 0. |
| ProgressTracking.ProgressTracker.CountFileLines | src/progress_tracker.py:58-59 | Incrementing a zero counter once per line leaves it at the file's line count. |
| ProgressTracking.ProgressTracker.IsInProgressionJson | src/progress_tracker.py:76-80 | True exactly when the key is in the record. |
| ProgressTracking.ProgressTracker.GetStartAndBatchsize | src/progress_tracker.py:82-83 | Returns the tracker's `start` and `batch_size`. |
| ProgressTracking.ProgressTracker.GetProgressionLoc | src/progress_tracker.py:85-86 | Returns the record's path. |
| ProgressTracking.ProgressTracker.GetProgressionJsonValue | src/progress_tracker.py:88-89 | Returns the value stored at a key exactly when the key is present, and a `KeyError` when it is absent. |
| ProgressTracking.ProgressTracker.UpdateProgression | src/progress_tracker.py:91-104 | Afterwards the record holds `value` at `key`, whether or not the key was present; a new key goes last. The same value leaves the record unchanged. The record is rewritten on disk in every case. |
| VariantTable.DataLines | src/pre_compute_capice.py:47-50 | Comment and blank lines are dropped; only data lines remain. |
| VariantTable.ReadWindow | src/pre_compute_capice.py:47-50 | A window holds at most `nrows` data lines. A full window means the file has `skip + nrows` lines. |
| VariantTable.WindowsFrom | src/pre_compute_capice.py:103-134 | The windows from an offset start with the window there. Every window but the last is full, and the last is short. |
| VariantTable.RunWindows | src/pre_compute_capice.py:130-134 | A run reads its first window at `start`, then at `2 + b`, `2 + 2b`, and so on, and ends with the first short window. |
| VariantTable.RunCoversEveryRowOnce | src/pre_compute_capice.py:103-134 | From no skip, on a file with the two leading comment lines, the windows together are every data line, once, in file order. |
| VariantTable.FirstHeaderLine | src/pre_compute_capice.py:34-44 | Returns the first line starting with `#Chr`, or none when no line does. |
| VariantTable.Header | src/pre_compute_capice.py:39-40 | The titles exist exactly when some line starts with `#Chr`. They are that line stripped and split on tabs. |
| VariantTable.IndexOf | src/pre_compute_capice.py:86-87 | Gives the first position of a column among the titles, or the title count when the column is absent. |
| VariantTable.Render | src/pre_compute_capice.py:89-91 | A missing cell is written as the empty string; any other cell is written as it is. |
| VariantTable.KeyOf | src/pre_compute_capice.py:69-77 | A row's chromosome is its `#Chr` text, or NaN when that text is a missing-value token. |
| VariantTable.KeyTextInjective | src/pre_compute_capice.py:78-81 | Distinct chromosomes format to distinct texts. |
| VariantTable.UniqueKeys | src/pre_compute_capice.py:69 | The keys are exactly the chromosomes occurring in the window, each once. |
| Partitions.ChrPathInjective | src/pre_compute_capice.py:78-83 | Distinct chromosome texts give distinct partition paths. |
| Partitions.PartitionPathInjective | src/pre_compute_capice.py:78-83 | Distinct chromosomes give distinct partition files. |
| Partitions.Projection | src/pre_compute_capice.py:86-87 | An output row has eight cells: the seven named columns and then the prediction. |
| Partitions.OutputLineReadsBack | src/pre_compute_capice.py:86-91 | An output line splits back into its eight projected cells. |
| Partitions.OutputLineStartsWithChr | src/pre_compute_capice.py:86-91 | The first field of an output line is the row's chromosome. |
| Partitions.AppendPartitions | src/pre_compute_capice.py:69-91 | The per-chromosome loop leaves the tree with each window row appended to its chromosome's partition. Every opened file exists. No other file changes. |
| Partitions.RowLandsInItsPartition | src/pre_compute_capice.py:77-91 | Row `i`'s output line sits in its own partition, between the lines of the earlier and the later rows routed there. |
| Partitions.RoutedToFrom | src/pre_compute_capice.py:77 | Every line appended to a partition comes from a window row routed there. |
| Partitions.PartitionHoldsOnlyItsChromosome | src/pre_compute_capice.py:77-91 | Every line appended to the partition of chromosome `c` has `c` as its first field. |
| Partitions.AppendedKeepsPrefix | src/pre_compute_capice.py:88-91 | Appending keeps each existing file's content as a prefix. A file the window does not touch is unchanged. |
| Partitions.AppendedKeys | src/pre_compute_capice.py:84-88 | The files after a window are the earlier ones plus one per chromosome of the window. |
| Partitions.AppendedCompose | src/pre_compute_capice.py:88-91 | Writing two windows one after the other is the same as writing their concatenation. |
| Partitions.AppendedAllFlatten | src/pre_compute_capice.py:107-134 | Writing a sequence of windows is the same as writing all their rows at once. |
| Partitions.WholeRun | src/pre_compute_capice.py:103-134 | A run from the top of a conventional file has the effect of appending all its data rows as one window: every row with a chromosome lands in its partition once, in file order, and a row whose `#Chr` is missing only creates the empty `chrnan` partition file. |
| Runs.SkipCount | src/pre_compute_capice.py:47 | A positive `skiprows` skips that many lines; `None`, zero and a negative value skip nothing. |
| Runs.EffectiveBatchSize | src/pre_compute_capice.py:97-101 | The run uses the persisted batch size when it is set and non-zero, else the configured one. |
| Runs.EffectiveBatchSizeChoice | src/pre_compute_capice.py:98-100 | The configured size is used exactly when the persisted one is unset, zero or equal to it. |
| Runs.PendingShape | src/pre_compute_capice.py:130-134 | The windows left are the current one, then, if it is full, those from `2 + b` (first window) or from `start + b`. |
| Runs.LoopStep | src/pre_compute_capice.py:107-134 | A short window finishes the run; a full one leaves the rest. Each later window's offset has fewer lines after it. |
| PreComputeCapice.CalculateCapiceScores.constructor | src/pre_compute_capice.py:17-32 | The engine starts not done, with the titles read from the header. |
| PreComputeCapice.CalculateCapiceScores.GetHeader | src/pre_compute_capice.py:34-44 | Unset or empty titles become the stripped tab-split fields of the first `#Chr` line. Without such a line they stay unset. Set titles are kept. |
| PreComputeCapice.CalculateCapiceScores.CalculateSaveCapiceScore | src/pre_compute_capice.py:46-91 | Reads the window at `skip_rows`. A short window clears `not_done`. Every row with a chromosome is appended to its partition; a row whose `#Chr` is missing only creates the `chrnan` partition file. |
| PreComputeCapice.CalculateCapiceScores.CalcCapice | src/pre_compute_capice.py:97-101 | Resumes at the tracker's `start` with the effective batch size. Finishes with every window of that run written. |
| PreComputeCapice.CalculateCapiceScores.CalcCapiceFrom | src/pre_compute_capice.py:103-134 | The loop ends, and the tree then holds every window of the run from `start` written in order. |
| Step9.CalculateCapiceScores.constructor | step9_pre_computed_scores_snv.py:19-32 | The engine starts not done, with the titles read from the header. |
| Step9.CalculateCapiceScores.GetHeader | step9_pre_computed_scores_snv.py:34-44 | Gives the same header scan as the resumable engine. |
| Step9.CalculateCapiceScores.CalculateSaveCapiceScore | step9_pre_computed_scores_snv.py:46-83 | Reads the configured-size window at `skip_rows`. A short window clears `not_done`. Rows with a chromosome are appended to their `.txt` partitions; a row whose `#Chr` is missing only creates the `chrnan` file. |
| Step9.CalculateCapiceScores.CalcCapice | step9_pre_computed_scores_snv.py:89-121 | The loop from the top of the file ends. On a conventional file, every data row with a chromosome is written to its partition once, in file order, and a row whose `#Chr` is missing only creates the empty `chrnan` file. |
| Categories.Distinct | impute_preprocess.py:103 | The distinct values of a column are exactly its values, each once. |
| Categories.SortByCountSorted | impute_preprocess.py:103 | `value_counts` order is by non-increasing count, with no value twice. |
| Categories.TopCategoriesShape | impute_preprocess.py:102-109 | Gives `min(return_num, #distinct)` distinct values of the column, by descending count. |
| Categories.TopCategoriesAreMostFrequent | impute_preprocess.py:102-109 | No value left out is more frequent than a value kept. |
| Categories.TopCategoriesAll | impute_preprocess.py:107-109 | A column with at most `return_num` distinct values keeps all of them. |
| Frames.Texts | impute_preprocess.py:103 | `value_counts` sees exactly the present values of the column. |
| Frames.FillNa | impute_preprocess.py:73 | `fillna(v)` turns every missing cell into `v` and keeps every present cell. |
| Frames.FillNaComplete | impute_preprocess.py:73 | A filled column has no missing cell; filling again changes nothing. |
| Frames.KeptRows | impute_preprocess.py:83-88 | `dropna(how="all")` keeps exactly the rows with a value in the subset, in increasing order. |
| Frames.DropNaRows | impute_preprocess.py:83-88 | A row is kept exactly when it has a value in the subset, and a kept row's cells are copied unchanged. |
| Frames.DropNaKeepsOnlyFilledRows | impute_preprocess.py:83-88 | Every row of a `dropna` result has a value in the subset. |
| Frames.AddColumn | impute_preprocess.py:163 | `df[col] = v` appends the column last, with every cell `v`. |
| Frames.AddColumnWellFormed | impute_preprocess.py:163 | Adding a new column keeps the frame well formed. |
| ImputePreprocess.ReplaceNas | impute_preprocess.py:64-76 | The column loop gives the frame `NasReplaced` describes. |
| ImputePreprocess.ReplaceNasCells | impute_preprocess.py:71-76 | Present cells are kept. A missing cell of a column in `Dict` gets that column's default; any other missing cell stays missing. The columns do not change. |
| ImputePreprocess.ReplaceNasComplete | impute_preprocess.py:71-76 | Afterwards no column of `Dict` has a missing cell, the frame is well formed, and a second pass changes nothing. |
| ImputePreprocess.RfToken | impute_preprocess.py:85 | Missing, `"."` and `"NA"` become missing; other values are kept. |
| ImputePreprocess.MapRf | impute_preprocess.py:85-87 | Only `dbscSNV-rf_score` changes; the shape is kept. |
| ImputePreprocess.Impute | impute_preprocess.py:79-99 | The imputed frame is well formed and keeps the input's columns. |
| ImputePreprocess.ImputeTablesFit | impute_preprocess.py:7-50 | `dbscSNV-rf_score` is one of `cadd_vars`, and its entry in `impute_values` is `0`. |
| ImputePreprocess.ImputedCell | impute_preprocess.py:83-93 | A present non-rf cell is kept. A cell ends missing exactly when it was missing and its column has no entry in the default table. |
| ImputePreprocess.ImputeFillsEveryDefault | impute_preprocess.py:79-99 | After `impute`, no column with a default has a missing cell, and the columns are unchanged. |
| ImputePreprocess.ImputeCleansRfScore | impute_preprocess.py:85-93 | After `impute`, `dbscSNV-rf_score` has a value in every row, and the value is never `"."` or `"NA"` (its default, `0`, is neither). |
| ImputePreprocess.Origin | impute_preprocess.py:83-88 | Every row of the result comes from an input row that has a CADD feature. |
| ImputePreprocess.ImputeRowOrigin | impute_preprocess.py:83-93 | Every row of the result is its origin row, each cell imputed as `ImputedCell` says. |
| ImputePreprocess.ImputeKeepsFeatureRows | impute_preprocess.py:83-88 | An input row with a value in a CADD feature other than the rf score survives `impute`. |
| ImputePreprocess.Level | impute_preprocess.py:119 | A kept level stays; anything else, a missing cell included, becomes `"other"`. |
| ImputePreprocess.LevelColumn | impute_preprocess.py:119-125 | `np.where(isin(...))` is applied cell by cell. |
| ImputePreprocess.TrainingLevels | impute_preprocess.py:115-119 | Training levels exist for exactly the limited features that are columns. |
| ImputePreprocess.LevelCategoricals | impute_preprocess.py:112-125 | The loop over the dictionary keys levels each listed column against its kept levels. In training those are the top categories; in inference they are the given names. |
| ImputePreprocess.LevelColumns | impute_preprocess.py:113-125 | After the loop, each visited key's column is collapsed onto the names picked for it, and every other column is unchanged. |
| ImputePreprocess.LevelledCells | impute_preprocess.py:119-125 | A levelled column holds only its kept levels and `"other"`, and a kept level stays in place. Unlisted columns and the shape are unchanged. |
| ImputePreprocess.LevelledIdempotent | impute_preprocess.py:119-125 | Levelling twice against the same levels is the same as levelling once. |
| ImputePreprocess.TrainingLevelsAreTopCategories | impute_preprocess.py:115-119 | A training column keeps at most its limit of levels, and none it drops is more frequent than one it keeps. |
| ImputePreprocess.ProcessCategoricalvars | impute_preprocess.py:112-127 | Levels the categorical columns, then one-hot encodes the levelled frame. |
| ImputePreprocess.LevelLimits | impute_preprocess.py:138-140 | The loop gives the limit dictionary `LimitsFor` describes. |
| ImputePreprocess.LimitsForSpec | impute_preprocess.py:136-140 | Every preset key and every categorical feature gets a limit. Preset limits are kept, others are 5, and the preset keys stay first. |
| ImputePreprocess.LimitsAreFive | impute_preprocess.py:136-182 | With either preset, every categorical feature has limit 5. |
| ImputePreprocess.LevelNameOfDummy | impute_preprocess.py:154 | For a feature without `_`, the dummy column `f_level` gives back `level`. |
| ImputePreprocess.MatchesMembers | impute_preprocess.py:152-154 | A level name is collected exactly when some model feature containing the feature yields it. |
| ImputePreprocess.MatchesOfDummies | impute_preprocess.py:152-158 | A feature's dummy columns give back its levels, in order. |
| ImputePreprocess.CategoricalLevelNames | impute_preprocess.py:150-158 | The nested loops give the dictionary `NamesFor` describes. |
| ImputePreprocess.NamesForSpec | impute_preprocess.py:150-158 | A feature is a key exactly when some model feature contains it. Its levels are those features' level names, in model order. |
| ImputePreprocess.NamesForKeys | impute_preprocess.py:150-158 | Every key is a categorical feature. |
| ImputePreprocess.SubstringCollectsForeignLevels | impute_preprocess.py:153 | Because the match is by substring, a feature inside another feature's name collects that feature's levels. |
| ImputePreprocess.ZeroFill | impute_preprocess.py:161-164 | The loop gives the frame `ZeroFilled` describes. |
| ImputePreprocess.ZeroFilledSpec | impute_preprocess.py:161-164 | Every model feature becomes a column. Existing columns keep their cells and their place in front. Added columns are all `0`. The height and well-formedness are kept. |
| ImputePreprocess.FeatCaddObject | impute_preprocess.py:131-132 | The categorical features are exactly the object columns among the CADD features, in column order. |
| ImputePreprocess.FeatCaddObjectUnique | impute_preprocess.py:131-132 | Distinct columns give distinct categorical features. |
| ImputePreprocess.PresetPresent | impute_preprocess.py:136-182 | The preset keys are `Ref`, `Alt` and `Domain`, plus `Consequence` in the second preset. |
| ImputePreprocess.InferenceHasModelFeatures | impute_preprocess.py:159-164 | After inference, every model feature is a column. |
| ImputePreprocess.PreprocessWith | impute_preprocess.py:130-169 | Training levels against the limits, and a missing preset column raises. Inference with no model features raises; otherwise it levels against the derived names, encodes, then zero-fills. |
| ImputePreprocess.Preprocess | impute_preprocess.py:130-169 | Training succeeds exactly when `Ref`, `Alt` and `Domain` are columns. Inference succeeds exactly when model features are given, and then has each of them as a column. A training result is the frame levelled against the top categories under the preset limits, then encoded. An inference result is the frame levelled against the model's level names, encoded, then zero-filled. |
| ImputePreprocess.PreprocessWithConsequence | impute_preprocess.py:172-206 | Training also needs `Consequence`. Inference always succeeds and has every model feature as a column. The result is the same levelled, encoded (and in inference zero-filled) frame over the CADD features with `Consequence`. |
| Findings.TotalAsWritten | src/progress_tracker.py:60-62 | The sum as written fails only with a `TypeError`. |
| Findings.TotalAsWrittenFailsOnNull | src/progress_tracker.py:60-62 | A `null` anywhere in the record makes the sum as written raise. |
| Findings.FreshRecoveryRaises | src/progress_tracker.py:40-62 | Recovery from a fresh record always raises, because its `start` is `null`. |
| Findings.TotalAsWrittenCountsHeader | src/progress_tracker.py:60-62 | Without `null`s, the sum as written is the intended total plus `start` and `batch_size`. |
| Findings.UpdateWith | src/progress_tracker.py:66 | `dict.update` leaves every key of the source holding the source's value. |
| Findings.SavedAsWrittenDropsTotal | src/progress_tracker.py:64-66 | The saved `start` is the counted record's own `start`, not the recovered total. |
| Findings.InitAsWrittenAlwaysRaises | src/progress_tracker.py:30-73 | The constructor as written raises on every input. |
| Findings.ScanAsWrittenHangs | src/pre_compute_capice.py:36-44 | Without a `#Chr` line, the scan as written never stops. |
| Findings.ScanAsWrittenFindsHeader | src/pre_compute_capice.py:36-44 | With a `#Chr` line, the scan as written stops on the first one. |
| Findings.ShortFirstWindowRaises | src/pre_compute_capice.py:51-55 | A run resumed from the record's `start`, with the loop of :103-134 as written, raises exactly when that `start` is unset and the run `RunWindows` reads is one short window. |
| Findings.LaterWindowsLog | src/pre_compute_capice.py:130-134 | Once the loop has set its offset, no later window's log raises. |
| Findings.Step9FirstIterationRaises | step9_pre_computed_scores_snv.py:89-121 | Every run of the loop as written raises `TypeError` in its first turn, and the same loop from the offset that turn sets runs to its end. |
| Findings.Step9LaterTurnsLog | step9_pre_computed_scores_snv.py:112-121 | With `start` set, no later turn of the loop raises. |

## Left out

- I/O details: gzip compression, directory creation, and the logger with its messages, timers and memory reports. The output tree is a map from path to lines.
- The pickled model is left out: `load_model`, `predict_proba`, `feature_names`, and the `preprocess(impute(...))` call that feeds it. The prediction is the parameter `score`, and the model's feature names are a parameter of `Preprocess`.
- PreComputeCapice.CalculateCapiceScores.CalculateSaveCapiceScore: because `score` gives every row a prediction, the model appends every window. Two failures of the scoring call are not modelled. A row with every CADD feature missing is dropped by `impute` (impute_preprocess.py:83), so `variants_df['prediction'] = ...` (src/pre_compute_capice.py:59-60) gets fewer values than rows and pandas raises `ValueError` before anything of that window is written. Titles without a CADD column or without `dbscSNV-rf_score` make `impute` raise `KeyError` (impute_preprocess.py:83, :85). The same holds for `CalcCapice` and `CalcCapiceFrom`.
- Step9.CalculateCapiceScores.CalculateSaveCapiceScore: the same two scoring failures (step9_pre_computed_scores_snv.py:57-60) are not modelled, for the same reason; the same holds for its `CalcCapice`.
- The NaN-prediction and duplicate-row warnings (src/pre_compute_capice.py:61-68) only log, so they are not modelled.
- The command-line entry points (`ArgumentSupporter`, `__main__`) and `examine_nas` are not modelled. Neither is the saving of intermediate frames with `to_csv(..., index=False)`.
- pandas type inference is not modelled. Which columns are object-typed is the parameter `objectColumns`. Cells keep their text: the `float(x)` parse and the numeric re-formatting of `to_csv` are not modelled.
- Only data lines are modelled: a `#` starts a comment only at the start of a line, and rows are not quoted.
- `pd.get_dummies` is the parameter `oneHot`, so nothing is proved about the encoded columns except the zero fill applied after it.
- ImputePreprocess.ProcessCategoricalvars: requires the level dictionary's keys to be columns. The source raises `KeyError` otherwise; `PreprocessWith` models that case as an error.
- Categories.TopCategories: pandas does not fix the order of equal counts. The model puts them in order of first appearance. The proved properties hold for that choice and do not depend on it.
- PreComputeCapice.CalculateCapiceScores.CalcCapiceFrom: requires a positive batch size. With 0 the source never reads a short window and loops forever. A negative one makes `read_csv(nrows=...)` raise `ValueError` on the first window, and that error path is not modelled.
- Step9.CalculateCapiceScores.CalcCapice: requires a positive batch size, for the same reasons (a loop without end at 0, `ValueError` from `read_csv` below 0).
- PreComputeCapice.CalculateCapiceScores.CalcCapice: requires a positive effective batch size, for the same reasons.
- PreComputeCapice.CalculateCapiceScores.CalculateSaveCapiceScore: requires `b >= 0`. A negative `nrows` makes `read_csv` raise `ValueError` (src/pre_compute_capice.py:47), and that error is not modelled.
- Step9.CalculateCapiceScores.CalculateSaveCapiceScore: requires `batchSize >= 0`, for the same reason.
- PreComputeCapice.CalculateCapiceScores.CalculateSaveCapiceScore: requires `Projectable` titles: distinct, and holding every output column. With duplicate titles `read_csv(names=...)` raises `ValueError`. With an output column missing, the `#Chr` lookup (src/pre_compute_capice.py:69) or the projection (src/pre_compute_capice.py:86-87) raises `KeyError`. Neither error is modelled. The same holds for both `CalcCapice` methods and `CalcCapiceFrom`.
- Step9.CalculateCapiceScores.CalculateSaveCapiceScore: requires `Projectable` titles, for the same reasons.
- ProgressTracking.ProgressTracker.constructor: requires a stored `progression.json`, when present, to be well formed: `start` and `batch_size` present, and every per-file counter an integer. Without `start` or `batch_size`, src/progress_tracker.py:34-36 raises `KeyError`. A counter that is `null` or text makes the sum at src/progress_tracker.py:61-62 raise `TypeError`. Neither error is modelled.
- ProgressTracking.ProgressTracker.CheckForProgressJson: requires the same well-formed stored record, for the same reasons.
- ImputePreprocess.Impute: requires every CADD variable and `dbscSNV-rf_score` to be columns. Otherwise `dropna(subset=cadd_vars)` (impute_preprocess.py:83) or the `dbscSNV-rf_score` lookup (impute_preprocess.py:85) raises `KeyError`, and that error is not modelled.
- The engines' in-place frame mutation and the output files are modelled on values (`Frame`, maps). The fields holding them are reassigned.

## Findings

| source | as written | input that shows it | evidently intended | confidence | as-written member | corrected member |
|---|---|---|---|---|---|---|
| src/progress_tracker.py:72-73 | `open(self.progress_json)` opens the record itself, which is `None` when a stored record exists (:30-36 never keeps it) and a dict otherwise. With a stored record and partition files, `None.keys()` fails first (:49). | Any output directory, with or without `progression.json`. | Open the path `progress_json_loc` and keep the loaded record. | high, not executed | Findings.InitAsWrittenAlwaysRaises | ProgressTracking.ProgressTracker.constructor |
| src/progress_tracker.py:60-62 | The recovery total adds every value of the record, `start` and `batch_size` included. | No stored record and one partition file: `-10 + None` raises `TypeError`. | Sum only the per-file counters. | high, not executed | Findings.FreshRecoveryRaises | ProgressTracking.TotalLines |
| src/progress_tracker.py:64-66 | `{'start': total, ...}.update(record)` puts the record's own `start` back over the total. | Latent as written: the sum at :60-62 raises first on every input that reaches it. Once that sum adds only the counters, a fresh record with partition files saves `start` as `null` instead of the total. | Save the recovered total as `start`. | high (latent), not executed | Findings.SavedAsWrittenDropsTotal | ProgressTracking.ProgressTracker.SaveRecoveredStart |
| src/pre_compute_capice.py:36-44 | `while True: f.readline()` keeps reading empty lines after the end of the file. | A table without a `#Chr` line: the scan never ends. | Stop at the end of the file and leave the titles unset. | high, not executed | Findings.ScanAsWrittenHangs | PreComputeCapice.CalculateCapiceScores.GetHeader |
| src/pre_compute_capice.py:51-55 | The last-window log computes `skip_rows + rows - 1` with `skip_rows` possibly `None`. | No saved offset, and a table with fewer rows than one batch: `ShortFirstWindowRaises` shows this is exactly when the run raises. | Log without adding to an unset offset. | medium, not executed | Findings.ShortFirstWindowRaises | PreComputeCapice.CalculateCapiceScores.CalculateSaveCapiceScore |
| step9_pre_computed_scores_snv.py:112-114 | `if not start:` logs `start + batch_size`, and `start` is `None` on every first iteration. | Any run of the script. | `if start:` as in src/pre_compute_capice.py:125-127. | high, not executed | Findings.Step9FirstIterationRaises | Step9.CalculateCapiceScores.CalcCapice |
