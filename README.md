# ScholarVision prediction engine and ingestion parsers, in Dafny

A Dafny model of the logic of ScholarVision's back end that is decided by
its own code rather than by a library:

- **The prediction engine** (`ml_engine.py`). It has three analysis modes.
  - *strict*: the decision-tree path written out as comparisons, then improvement tips.
  - *peer*: a table comparing the user with the mean of the five nearest cohort rows, then the biggest gaps.
  - *deep*: a breakdown of the forest's SHAP attributions.

  The engine also has a load-or-train lifecycle and the cohort refresh from the database.
  The fitted models are inputs:
  - the depth-3 regression tree is given as its sklearn node arrays;
  - the scaler, the neighbour index and the forest (its prediction and its SHAP values) are functions.

  Advice lines are structured values (`MlEngine.Line`), not formatted text.
- **The prediction endpoint** (`routers/predictions.py`): request bounds, the
  `analysis_mode` enum and its default, the 503 readiness gate, the mode
  dispatch, the 500 on inference errors and the response assembly.
- **The ingestion parsers**:
  - the app-usage, study-session and Apple Health JSON parsers and their summaries;
  - the text-level helpers of the academic file parser: grade extraction from a line, grade-cell interpretation, header lookup, de-duplication, the plain-text parser and the type dispatch.

  JSON is the `Json.JsonValue` datatype that `json.loads` would produce.
  Regular-expression matches, `_parse_iso` and the PDF/DOCX/CSV/XLSX back ends are oracles.
- **The cohort table helpers** (`database/cohort.py`): the camelCase/snake_case
  column mapping, the rows of the bulk insert and the None-or-frame rule of
  the startup fetch.
- **The seeding script** (`scripts/seed_db.py`): the `.env` loader with
  first-writer-wins semantics and the skip/truncate/seed decision.
  `scripts/seed_test_user.py:46-54` holds an identical loader, which the same model covers.

Modules follow the source files:
- `MlEngine` (with `Grades`, `DecisionTree`, `Features`);
- `PredictionsRouter`;
- `FileParser`, `AppUsageParser`, `StudyParser` and `HealthParser`;
- `Cohort`;
- `SeedDb`.

Helper modules model the Python built-ins that the code relies on:
- `PyText`: `strip`, `isupper`, `lower`, `splitlines`, `partition`;
- `PyNum`: `round` with ties to even, `round(x, n)`, `numpy.clip`;
- `StableSort`: `sorted` with a key, which is stable;
- `Seqs`: the filter-and-convert loop shared by the parsers.

Numbers are `real`. Python's `round` rounds half to even, and the model does the same.

On these points the model follows the code's actual behaviour:
- The peer-mode score is the random forest's clamped prediction. It is not the neighbours' mean grade (`ml_engine.py:226`).
- The grade is computed after rounding the score half to even (`ml_engine.py:152`).
- A missing `analysis_mode` is `strict`. An unknown mode is a validation error (`routers/predictions.py:25-37`).
- A `.env` line that would set an empty variable name makes `putenv` raise. The loader then stops with the earlier settings in place (`SeedDb.Environment.LoadEnv`).
- `_load` checks only the three joblib files. When `train_data.csv` is missing, the models are loaded and then the read raises, so the frame keeps its previous value (`MlEngine.Loaded`).
- One exception: `AppUsageParser.EntryOf` and `AppUsageParser.ParseAppUsageJson` use the corrected category rule recorded under Findings. For a list or dict `category` they keep a Neutral entry, where the code raises TypeError out of `parse_app_usage_json` (`parsers/app_usage_parser.py:81`). `AppUsageParser.CategoryAsWritten` models the code as written.
- The neighbour index is fitted on the CSV cohort. The database refresh can then replace the frame with fewer rows. An index past the end of the frame raises, and the endpoint answers 500 (`MlEngine.PeerOutcome`).

## Model

| member | source | states |
|---|---|---|
| `Grades.ScoreToGrade` | ml_engine.py:151-158 | the grade is A+ iff the half-even rounded score is >= 90, A iff it is in [80,90), B iff in [70,80), C iff in [60,70), D iff in [50,60), F iff < 50 |
| `Grades.ScoreToGradeMonotone` | ml_engine.py:151-158 | a higher score never gets a lower grade |
| `Grades.GradeBoundaries` | ml_engine.py:152-158 | 90 and 89.99 give A+; 89.5 rounds to 90 and gives A+; 89.49 gives A; 49.5 rounds to 50 (D) and 48.5 rounds to 48 (F) |
| `PyNum.RoundHalfEven` | ml_engine.py:152 | the result is within 1/2 of x, and a tie goes to the even integer |
| `PyNum.RoundHalfEvenMonotone` | ml_engine.py:152 | rounding is monotone |
| `PyNum.RoundTo` | parsers/file_parser.py:77 | `round(x, n)`: the result times 10^n is x times 10^n rounded half to even, so it lies within half a unit of the n-th decimal |
| `PyNum.Clip` | ml_engine.py:169 | `np.clip` returns a value in [lo, hi]; it returns x when x is inside, lo below and hi above |
| `DecisionTree.Path` | ml_engine.py:172-176 | the decision path starts at the node, ends at a leaf, and each next node is the left child iff the value is <= the threshold |
| `DecisionTree.Leaf` | ml_engine.py:173 | `apply` returns a leaf of the tree |
| `DecisionTree.LeafOnlyAtEnd` | ml_engine.py:179-181 | the leaf occurs on the path only as its last node |
| `DecisionTree.PathLength` | ml_engine.py:122 | a tree of depth at most d has paths of at most d internal nodes |
| `DecisionTree.FittedPathLength` | ml_engine.py:122 | a fitted max_depth=3 tree explains a prediction in at most three comparisons |
| `MlEngine.StrictOutcome` | ml_engine.py:166-215 | strict mode raises iff the tree is missing; otherwise its score is the tree prediction clipped to [0,100], returned as a pair |
| `MlEngine.StrictPathLines` | ml_engine.py:178-191 | one line per internal node of the root-to-leaf path, numbered from 1, at most 3; each line records the node's feature, value and threshold and is "lower" iff value <= threshold |
| `MlEngine.TrendOf` | ml_engine.py:194-198 | on track iff score >= 80; stable iff 65 <= score < 80; at risk iff score < 65 |
| `MlEngine.TipsFacts` | ml_engine.py:202-207 | every tip names a feature below its threshold (study < 4, attention < 40, focus < 60, sleep < 7, breaks < 2) with its value, and every such feature gets a tip |
| `MlEngine.TipsSectionFacts` | ml_engine.py:209-213 | a tip appears for a feature iff it is below its threshold; the "optimal parameters" line appears iff no feature is |
| `MlEngine.Engine.PredictStrict` | ml_engine.py:166-215 | the loop over the decision path and the tip tests produce exactly `StrictOutcome` |
| `MlEngine.DecisionPathLines` | ml_engine.py:178-191 | the loop over `node_ids` breaks at the leaf and emits one step line per internal node |
| `MlEngine.TipLines` | ml_engine.py:202-207 | the five threshold tests produce the tips in feature order |
| `MlEngine.AppendTips` | ml_engine.py:209-213 | appends the tips header and the tips, or the single "optimal" line |
| `MlEngine.MeanColBounds` | ml_engine.py:224 | each peer average lies between the smallest and the largest neighbour value |
| `MlEngine.NeighbourRows` | ml_engine.py:222-223 | the neighbour rows are the frame rows at the five returned indices |
| `MlEngine.ArrowOf` | ml_engine.py:235 | the arrow is up iff delta > 0.1, down iff delta < -0.1, level otherwise |
| `MlEngine.PeerOutcome` | ml_engine.py:217-256 | peer mode raises iff a model or the frame is missing or a neighbour index is past the frame's end; otherwise the score is the forest's prediction clipped to [0,100], not the neighbours' mean |
| `MlEngine.PeerRowsFacts` | ml_engine.py:229-238 | exactly one row per feature, in feature order; each row has delta = mine - peer average and the dead-band arrow |
| `MlEngine.GapsEntries` | ml_engine.py:243-246 | every gap entry is a feature whose peer average exceeds the user's value by more than 0.5, with that difference |
| `MlEngine.GapsOrdered` | ml_engine.py:243-246 | gaps are sorted by decreasing difference |
| `MlEngine.GapListed` | ml_engine.py:244 | every feature more than 0.5 behind the peers is in the gap list |
| `MlEngine.GapsMembers` | ml_engine.py:243-246 | a feature is in the gap list iff it is more than 0.5 behind the peers |
| `MlEngine.GapsSectionFacts` | ml_engine.py:247-254 | at most three gap lines follow the header, the first three of the sorted list; the "already at or above" line appears iff no feature is more than 0.5 behind |
| `MlEngine.Engine.PredictPeer` | ml_engine.py:217-256 | the peer-mode code produces exactly `PeerOutcome` |
| `MlEngine.PeerTableLines` | ml_engine.py:228-238 | the loop over FEATURES emits the header and one comparison row per feature |
| `MlEngine.AppendGaps` | ml_engine.py:243-254 | the loop over `gaps[:3]` emits the gaps section |
| `StableSort.SortByFacts` | ml_engine.py:243-246 | `sorted` with a key returns the same elements (as a multiset) ordered by the key |
| `MlEngine.SortedShap` | ml_engine.py:265-267 | sorting the attributions by any key keeps each feature exactly once with its own attribution, ordered by the key |
| `MlEngine.WorstAndBest` | ml_engine.py:267-269 | worst is the minimum attribution and best the maximum, each carried by its own feature |
| `MlEngine.MaxAbs` | ml_engine.py:270 | max_abs is positive and bounds every absolute attribution; it is 1.0 when all attributions are 0 and is attained otherwise |
| `MlEngine.Bar` | ml_engine.py:160-162 | no blocks when max_v is 0; otherwise round(abs(v) / max_v * width) blocks, and none when that count is negative |
| `MlEngine.BarWithinWidth` | ml_engine.py:160-162 | with 0 < abs(v) <= max_v the bar has at most `width` blocks, and the largest attribution fills it |
| `MlEngine.BreakdownRows` | ml_engine.py:283-292 | the breakdown has one row per feature, with its value and attribution, and no feature twice |
| `MlEngine.BreakdownOrdered` | ml_engine.py:284 | breakdown rows are ordered by decreasing attribution |
| `MlEngine.BreakdownBars` | ml_engine.py:289 | no breakdown bar exceeds 12 blocks |
| `MlEngine.DeepOutcome` | ml_engine.py:258-318 | deep mode raises iff the forest is missing; otherwise it returns a triple whose score is the forest's prediction clipped to [0,100] |
| `MlEngine.StructuredEntries` | ml_engine.py:307-316 | the structured list holds all five features exactly once, each with its value and its attribution rounded to 2 decimals |
| `MlEngine.StructuredOrdered` | ml_engine.py:315 | the structured list is ordered by decreasing absolute attribution |
| `MlEngine.HighestImpactIff` | ml_engine.py:296-304 | the advice ends with the "highest impact action" for the worst feature iff abs(worst) > 2 |
| `MlEngine.Engine.PredictDeep` | ml_engine.py:258-318 | the deep-mode code produces exactly `DeepOutcome` |
| `MlEngine.AppendBreakdown` | ml_engine.py:283-292 | the loop over the sorted attributions emits the breakdown rows |
| `MlEngine.CohortData` | ml_engine.py:103-110 | the cohort CSV when it exists, otherwise the generated cohort |
| `MlEngine.Trained` | ml_engine.py:114-131 | training sets all five fields from the same frame: the tree and the forest fitted on it, the scaler fitted on it, the neighbour index fitted on the scaled rows, and the frame itself |
| `MlEngine.Saved` | ml_engine.py:133-136 | after saving, all three joblib files exist and train_data.csv holds the training frame |
| `MlEngine.Loaded` | ml_engine.py:140-144 | loading sets the models from the files; it raises iff train_data.csv is missing, and then the frame keeps its old value |
| `MlEngine.SaveThenLoad` | ml_engine.py:86-144 | what training saves is exactly what the next start loads, and that start does not retrain |
| `MlEngine.Engine.EnsureReady` | ml_engine.py:86-101 | loads iff all three joblib files exist, otherwise trains and saves; the engine is ready unless loading raised |
| `MlEngine.Engine.LoadCohortFromDb` | ml_engine.py:321-333 | the frame is replaced only by a fetched non-empty frame; otherwise nothing changes |
| `PredictionsRouter.ParseMode` | routers/predictions.py:25-37 | a missing mode is strict; a given mode is accepted iff it is "strict", "peer" or "deep", and it maps to the member with that value |
| `PredictionsRouter.ParseModeText` | routers/predictions.py:25-28 | each mode's value is read back as that mode |
| `PredictionsRouter.Validate` | routers/predictions.py:31-37 | a request is accepted iff every field is present within its inclusive bounds and the mode is valid; the accepted values are the request's |
| `PredictionsRouter.ValidatedInRange` | routers/predictions.py:32-36 | studyHours is in [0,16], attentionSpan in [5,120], focusRatio in [0,100], sleepHours in [3,12] and breakFreq in [0,10] |
| `PredictionsRouter.Predict` | routers/predictions.py:62-68 | strict calls `predict_strict` (`StrictOutcome`), peer calls `predict_peer` (`PeerOutcome`), deep calls `predict_deep` (`DeepOutcome`); strict and peer return pairs, deep a triple; any score returned is in [0,100] |
| `PredictionsRouter.Respond` | routers/predictions.py:72-77 | the shown score is `round(score, 1)`: ten times it is ten times the score rounded half to even, so it is within 0.05 of the score; the grade is that of the unrounded score; the mode is echoed and the advice passed through; a score in [0,100] is shown in [0,100] |
| `PredictionsRouter.AnalyzeAsWritten` | routers/predictions.py:49-78 | the endpoint as written: 422 iff the request is invalid; a response only for a valid request on a loaded engine and never for a deep one, with its score in [0,100] |
| `PredictionsRouter.DeepAlwaysFailsAsWritten` | routers/predictions.py:68 | with the tree loaded, every valid deep request gets a 500 from the code as written |
| `PredictionsRouter.Analyze` | routers/predictions.py:49-78 | 422 iff the request is invalid; 503 when the tree is missing; a response only for a valid request on a loaded engine, echoing the mode, with its score (rounded to 1 decimal) in [0,100] |
| `PredictionsRouter.AnalyzeOutcome` | routers/predictions.py:62-77 | on a loaded engine, a predictor exception gives 500 and no partial response; otherwise the response is assembled from that predictor's score and advice |
| `PredictionsRouter.AgreesExceptDeep` | routers/predictions.py:63-66 | the corrected and the written endpoint agree on every request except deep ones |
| `PredictionsRouter.DeepAnswered` | routers/predictions.py:68 | with the deep result unpacked into three names, a loaded engine answers valid deep requests |
| `PredictionsRouter.GradeOfUnroundedScore` | routers/predictions.py:72-74 | 89.46 is shown as 89.5 but graded A, while a score of 89.5 is graded A+ |
| `FileParser.NormalisePercentage` | parsers/file_parser.py:75-78 | with max > 0 the result is score/max*100 rounded half to even to 2 decimals, hence within 0.005 of it; otherwise it is the score itself |
| `FileParser.NormalisedInRange` | parsers/file_parser.py:75-78 | a score in [0, max] normalises into [0, 100] |
| `FileParser.Measure` | parsers/file_parser.py:93-109 | a truthy percentage wins; otherwise a fraction with denominator <= 200 sets score, max and normalised percentage; a larger denominator is ignored |
| `FileParser.BeforeSeparator` | parsers/file_parser.py:121 | the text before the first ':', '-' or '|', as a prefix without separators |
| `FileParser.CollapseSpace` | parsers/file_parser.py:123 | every whitespace character left is a single ' ' with no whitespace next to it; the non-whitespace characters are those of the input, in order; the string does not grow and starts with whitespace iff the input does |
| `FileParser.GradeFromLine` | parsers/file_parser.py:81-131 | None iff the stripped line is shorter than 3 or has no percentage, score, letter or code; a grade found carries useful data, its row, and a name of 3 to 120 characters when it has one |
| `FileParser.ShortLineNoGrade` | parsers/file_parser.py:83-85 | a stripped line shorter than 3 characters gives no grade |
| `FileParser.LargeDenominatorIgnored` | parsers/file_parser.py:102-109 | a fraction with a denominator above 200 sets no score, maximum or percentage |
| `FileParser.FillGradeValue` | parsers/file_parser.py:348-386 | a blank cell leaves g unchanged; a short letter cell sets the letter; a percentage sets percentage, score and max 100; a fraction with m <= 200 sets score, max and percentage; a bare number <= 4 becomes a GPA percentage, <= 100 a percentage with max 100, larger a score only; an unparseable cell changes nothing |
| `FileParser.GpaPercentageInRange` | parsers/file_parser.py:378-379 | a GPA in [0,4] becomes a percentage in [0,100] |
| `FileParser.FindCol` | parsers/file_parser.py:341-345 | the first index whose header contains a keyword as a substring; None iff no header does |
| `FileParser.DedupGrades` | parsers/file_parser.py:428-437 | the `seen`-set loop computes `Dedup` |
| `FileParser.DedupKeys` | parsers/file_parser.py:428-437 | no two kept grades share a key, and every input key is kept |
| `FileParser.DedupSubsequence` | parsers/file_parser.py:433-436 | the output is a subsequence of the input (order preserved) |
| `FileParser.DedupKeepsFirst` | parsers/file_parser.py:433-436 | the first grade of each key is kept |
| `FileParser.DedupOfDistinct` | parsers/file_parser.py:428-437 | grades with distinct keys pass through unchanged |
| `FileParser.DedupIdempotent` | parsers/file_parser.py:428-437 | de-duplicating twice is the same as once |
| `FileParser.ParseTxt` | parsers/file_parser.py:137-164 | the line loop computes the grades and the first 200 snippets of `TxtResult` |
| `FileParser.LineClassification` | parsers/file_parser.py:147-161 | blank lines give nothing; a snippet is a heading iff the line is shorter than 80 and upper-case or ends with ':'; a comment is a non-heading, non-grade line longer than 20; no line gives both a grade and a snippet |
| `FileParser.TxtSnippetsShape` | parsers/file_parser.py:162-164 | at most 200 snippets, each a heading or a comment longer than 20 characters |
| `FileParser.ParseFile` | parsers/file_parser.py:442-459 | on the lower-cased type: pdf goes to the PDF extractor, doc/docx to the DOCX one, csv to the CSV one, xlsx/xls to the spreadsheet one, txt to the text parser of the UTF-8 decoded content; any other type gives empty raw text and no error |
| `FileParser.ParseFileIgnoresCase` | parsers/file_parser.py:447 | two type names with the same lower-case form dispatch alike |
| `FileParser.ParseFileUpperCase` | parsers/file_parser.py:447-459 | "TXT", "Pdf" and "PNG" dispatch as their lower-case forms |
| `AppUsageParser.CategoryAsWritten` | parsers/app_usage_parser.py:80-81 | the category test as written raises iff the category is unhashable (a list or dict) |
| `AppUsageParser.NormaliseCategory` | parsers/app_usage_parser.py:80-81 | the category is one of Productive/Neutral/Distracting; a valid one is kept and anything else becomes Neutral |
| `AppUsageParser.ListCategoryRaises` | parsers/app_usage_parser.py:81 | a list category raises as written where Neutral was meant |
| `AppUsageParser.CorrectedAgreesOnHashable` | parsers/app_usage_parser.py:81 | on every hashable category the corrected rule agrees with the code |
| `AppUsageParser.EntryOf` | parsers/app_usage_parser.py:64-88 | an item is kept iff it is a dict with a non-blank string app_name, an int duration_mins >= 1 and a non-blank string logged_date; names and dates are stripped; the category follows the corrected rule of Findings (a list or dict category gives Neutral where the code raises) |
| `AppUsageParser.KeptValid` | parsers/app_usage_parser.py:63-88 | every kept entry is valid and the output is no longer than the input |
| `AppUsageParser.ParseAppUsageJson` | parsers/app_usage_parser.py:40-94 | a decode error, a non-object top level or a non-list `logs` gives that error and no logs; otherwise the kept entries, in input order, under the corrected category rule of Findings (the code raises TypeError for a list or dict category) |
| `AppUsageParser.SummariseAppUsage` | parsers/app_usage_parser.py:97-102 | keys are exactly the categories present; each total is the sum of the durations in that category |
| `AppUsageParser.TotalsPartitionDuration` | parsers/app_usage_parser.py:97-102 | with valid categories, keys are valid categories and the three totals sum to the total duration |
| `StudyParser.WholeMinutes` | parsers/study_parser.py:107 | the truncated minute count m satisfies m minutes <= duration < m+1 minutes |
| `StudyParser.BreaksTaken` | parsers/study_parser.py:111-113 | a non-negative int is kept; a missing, non-int or negative value becomes 0 |
| `StudyParser.OptString` | parsers/study_parser.py:115-121 | a string is kept and anything else becomes None |
| `StudyParser.SessionOfValid` | parsers/study_parser.py:84-130 | an item is kept iff it is an object whose started_at and ended_at are strings that parse, with ended after started and at least one whole minute apart; a kept session keeps the timestamp strings, has that duration and breaks >= 0 |
| `StudyParser.SessionsValid` | parsers/study_parser.py:83-130 | every kept session is valid and there are no more sessions than items |
| `StudyParser.SessionsCount` | parsers/study_parser.py:83-130 | the number of sessions kept is the number of items that pass the filter |
| `StudyParser.ParseStudyJson` | parsers/study_parser.py:60-136 | a decode error, a non-object top level or a non-list `sessions` gives that error; otherwise the kept sessions, in input order |
| `HealthParser.ValueFields` | parsers/health_parser.py:100-109 | a number sets value_num only; another non-null value sets value_cat = str(value) only; null sets neither; never both |
| `HealthParser.WasUserEntered` | parsers/health_parser.py:111-112 | true iff metadata is a dict whose flag is truthy |
| `HealthParser.MetricOfFacts` | parsers/health_parser.py:96-128 | an item is kept iff it is a dict with a truthy start_time; type defaults to "unknown" and data_class to "quantity" |
| `HealthParser.MetricsValid` | parsers/health_parser.py:95-128 | every kept metric has a start time and not both value fields; there are no more metrics than items |
| `HealthParser.ParseHealthJson` | parsers/health_parser.py:72-135 | a decode error, a non-object top level or a non-list `metrics` gives that error; otherwise the kept metrics, in input order |
| `HealthParser.Summarise` | parsers/health_parser.py:138-143 | keys are exactly the types present; each count is the number of metrics of that type |
| `HealthParser.CountsSumToLength` | parsers/health_parser.py:138-143 | summed over distinct types covering all present, the counts give len(metrics) |
| `Cohort.MapOf` | database/cohort.py:21-29 | a dict built from items has exactly the items' keys |
| `Cohort.InvertRoundTrip` | database/cohort.py:29 | swapping the items of a dict with distinct keys and values inverts it, both ways |
| `Cohort.PyDbRoundTrip` | database/cohort.py:21-29 | `DB_TO_PY` undoes `PY_TO_DB` and vice versa |
| `Cohort.PyToDbInjective` | database/cohort.py:21-28 | no two Python names map to the same column |
| `Cohort.AllCols` | database/cohort.py:31-33 | `ALL_COLS` is the five features followed by the target |
| `Cohort.AllColsDistinct` | database/cohort.py:31-33 | the six names are distinct |
| `Cohort.AllColsDomain` | database/cohort.py:21-33 | a name is a key of `PY_TO_DB` iff it is in `ALL_COLS` |
| `Cohort.DbCols` | database/cohort.py:35 | `DB_COLS` is `PY_TO_DB` applied to `ALL_COLS`, in the same order |
| `Cohort.DbColsMatchSql` | database/cohort.py:35-62 | `DB_COLS` is the column order of the insert and select statements |
| `Cohort.RenamedColsAreAllCols` | database/cohort.py:133 | renaming the fetched columns with `DB_TO_PY` gives `ALL_COLS` |
| `Cohort.BulkInsert` | database/cohort.py:90-106 | one 6-tuple per frame row, in frame order and `ALL_COLS` order; returns the row count |
| `Cohort.FetchCohortDf` | database/cohort.py:117-139 | None iff the query failed or returned no rows; otherwise a frame with one row per table row |
| `Cohort.FrameRowInsertTuple` | database/cohort.py:90-133 | reading a written tuple back by column name gives the frame row |
| `Cohort.ReadBackInserted` | database/cohort.py:90-133 | reading back a frame's tuples gives the frame |
| `Cohort.InsertThenFetch` | database/cohort.py:90-139 | seeding a non-empty frame into an empty table and fetching returns that frame |
| `SeedDb.ClassifyLine` | scripts/seed_db.py:28-33 | a line is a setting iff its stripped form is non-blank, does not start with '#' and has an '='; the key has no '=' |
| `SeedDb.ClassifyLineSplit` | scripts/seed_db.py:32-33 | a setting splits at the first '=', and key and value are stripped |
| `SeedDb.SetDefault` | scripts/seed_db.py:33 | `setdefault` never changes a set variable, and a raised error sticks |
| `SeedDb.NeverOverwrites` | scripts/seed_db.py:33 | variables set before loading are never overwritten |
| `SeedDb.OnlyNamedKeys` | scripts/seed_db.py:28-33 | only variables set beforehand or named by some line are defined |
| `SeedDb.FirstSettingWins` | scripts/seed_db.py:33 | the first line setting a new variable decides its value, whatever later lines say |
| `SeedDb.FailureEndsLoading` | scripts/seed_db.py:33 | after the line that raises, later lines change nothing |
| `SeedDb.Environment.LoadEnv` | scripts/seed_db.py:25-33 | a missing file changes nothing; otherwise the environment is the result of applying the classified lines in order |
| `SeedDb.SeedPlan` | scripts/seed_db.py:79-86 | skip iff count > 0 without --force; truncate iff --force and count > 0 |
| `SeedDb.SeedStartsEmpty` | scripts/seed_db.py:79-86 | when seeding goes ahead, the table is empty or is truncated first |
| `SeedDb.SeedMain` | scripts/seed_db.py:63-102 | unreachable: nothing changes; skip: the table is kept; seed: the table holds exactly the CSV cohort (or the generated one, which is then saved) and the count is returned |

## Findings

| source | as written | input that shows it | evidently intended | confidence | as-written member | corrected member |
|---|---|---|---|---|---|---|
| routers/predictions.py:68 | `score, advice = engine.predict_deep(values)` unpacks a 3-tuple into two names, so a ValueError is raised and turned into a 500 | any valid request with `analysis_mode: "deep"` on a loaded engine | deep mode answers with the forest's score and the attribution advice | high; not executed | `PredictionsRouter.DeepAlwaysFailsAsWritten` | `PredictionsRouter.DeepAnswered` |
| parsers/app_usage_parser.py:81 | `raw_cat in VALID_CATEGORIES` hashes the category, so a list or dict category raises TypeError out of the parser | a log entry with `"category": ["Productive"]` | an invalid category of any type becomes "Neutral" | medium; not executed | `AppUsageParser.ListCategoryRaises` | `AppUsageParser.NormaliseCategory` |

## Left out

- The library computations are inputs (`DecisionTree.FittedTree`, `MlEngine.Scaler`, `MlEngine.Knn`, `MlEngine.Forest`):
  - sklearn fitting;
  - `kneighbors`;
  - the random forest's prediction;
  - `shap.TreeExplainer`;
  - joblib (de)serialisation.

  So neighbour selection, tie-breaking and the Shapley summation property are not modelled.
- `_generate_data` and `scripts/generate_mock_cohort.py` are left out, because they draw random samples; the generated cohort is a parameter.
- The wording and float formatting (`:.1f`, `:.0f`) of advice lines are left out; lines are structured values. The final `"\n".join` is not modelled.
- Floating-point representation is left out; numbers are `real`.
- The async database I/O and the `wait_for_postgres` socket loop are left out; their outcomes are parameters (`Cohort.Query`, `reachable`).
- The other routers, `database/execute.py`, `database/connection.py`, `security.py`, `main.py` and `front-end/register.py` are left out. They are HTTP, database, bcrypt and JWT plumbing.
- `_parse_pdf`, `_parse_docx`, `_parse_csv`, `_parse_xlsx` and `_extract_grades_from_df` are oracles in `FileParser.Extractors`, because pdfplumber, python-docx and pandas do their work.
- Regular-expression matching is left out; each pattern's match is a function in `FileParser.Regexes`.
- UTF-8 decoding and `json.loads` are left out; their outcomes are inputs.
- `_parse_iso` is a partial function from a string to an instant.
- Letter case in `isupper` and `lower` is modelled for ASCII letters only.
- The 422 response of request validation is modelled without pydantic's coercion of strings and integers to floats.
- `MlEngine.Engine.EnsureReady`: a joblib file that exists but cannot be read, and an I/O error while saving, are not modelled.
- `Cohort.InsertThenFetch` and `Cohort.ReadBackInserted`: the table's columns are `REAL` (`database/cohort.py:42-47`), which PostgreSQL stores in single precision. A value written by `sync_bulk_insert` therefore comes back from the fetch rounded to the nearest float32 (7.3 reads back as 7.300000190734863). The model stores reals unchanged, so it does not capture this narrowing, and "fetching returns that frame" holds only up to it.
- `SeedDb.SeedMain`: the table it states after seeding holds the cohort's values before the float32 narrowing described above.
- `SeedDb.SeedMain`: `reachable` stands for the whole database conversation succeeding. In the script, a psycopg error after the port answers, or a `pd.read_csv` failure, raises and ends the script part-way. Those failures are not modelled.
- `AppUsageParser.EntryOf` and `StudyParser.BreaksTaken`: a JSON `true`/`false` passes Python's `isinstance(v, int)` and the code stores the bool itself in `duration_mins` or `breaks_taken`. The model stores it as the integer 1 or 0. The value is the same, but the serialised type (`true` against `1`) is not modelled.
