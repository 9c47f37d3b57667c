# Head-tilt trial cleaning and pairing

This project models the analysis core of a head-tilt experiment. Each subject
(`user_number`) sees faces (`face_id`) through tubes (`tubeTypeIndex`) on the
left or right face side and is told to tilt towards or away from the face.
The pipeline:

1. remaps two legacy face ids;
2. writes `end_angle`, which is the raw angle negated when the instructed tip direction is left;
3. marks a trial `angle_valid` when its end angle lies strictly between two bounds;
4. excludes every subject with more than a threshold of angle-invalid trials;
5. pairs, for every (user, face, tube), the single towards trial with the single away trial of the same face side;
6. computes the pair's D value (the difference of the absolute end angles, taken absolutely in `schema_analysis/processing.py` and signed in the analysis scripts);
7. aggregates D per subject and per face: mean, sample variance, one-sample t-test.

Around this core sit `Experiment` and `TubeTrials`, two objects whose working tables the steps replace in place. There are also the analysis scripts (v3, its `analysis_v3` copy, the ID017 investigation, the random-sample verification generator) and three diagnostic scripts (unpaired trials, wrong-direction trials, the per-user ranking of wrong-direction trials).

A pandas DataFrame is modelled as the `Table` datatype (`records.dfy`). `Table` holds a sequence of `Trial` values and one flag per optional column (`end_angle`, `angle_valid`, `subject_valid`, `sight_type`). A missing column then gives the `KeyError`/`ValueError` path the code has. A column write becomes a function from the old table to the new. Row labels are row positions.

There is one pairing engine, in `balancing.dfy`:
- `PairFor` is one (key, face side) slot;
- `PairsOver` runs over keys in group order;
- `Balance` pairs every key.

It is parameterised by the D formula and by whether pair validity is checked, and each script uses the combination its own code has. The looping versions (`Balancing.BalanceTrials`, `SelectVerify.FindCandidates`) are methods with loop invariants. They are proved equal to the functions, and the properties are proved about the functions as lemmas: each trial is in at most one pair, every formable pair is formed, used trials are angle-valid, and there are two used labels per pair.

The scripts differ in the D formula and in the default bounds; each call site keeps its own code:
- `schema_analysis/processing.py:81` takes the absolute value of `|towards| - |away|`, so `Experiment` and `TubeTrials` use `AbsoluteD`.
- `analyze_data_v3.py:87`, `analysis_v3/analyze_v3.py:116`, `investigate_id017_change.py` and the verification generator keep the sign (`SignedD`).
- `Balancing.DFormulasRelated` and `Balancing.BalanceFormulas` relate the two formulas.
- The default bounds are (3, 43) in `processing.py` and (3, 40) in `TubeTrials`, `Experiment` and the scripts. Each call site keeps its own bounds.

## Model

| member | source | states |
|---|---|---|
| Records.Distinct | schema_analysis/processing.py:67 | `unique()`: the same members as the column, none twice, never longer |
| Records.SortedUnique | schema_analysis/processing.py:46 | groupby keys: strictly increasing, with exactly the members of the input |
| Records.Users | schema_analysis/processing.py:67 | the `user_number` column: one entry per row, in row order |
| Records.CountValid | schema_analysis/tube_trials.py:37 | `angle_valid.sum()` is at most the number of rows |
| Records.AllPositions | schema_analysis/tube_trials.py:110 | the positions of a table of n rows are 0..n-1, n of them; they stand for its n unique labels |
| Records.CountValidIsSetSize | investigate_id017_change.py:123-124 | the valid labels number `CountValid` and the invalid labels number the rest |
| Records.ValidInvalidPartition | investigate_id017_change.py:123-124 | valid and invalid labels are disjoint and together make up the whole index |
| Records.CountUser | users_wrong_direction.py:31 | a user's row count never exceeds the table length |
| Records.CountUserPositive | users_wrong_direction.py:27-31 | a user's count is positive exactly when the user has a row |
| Records.KeepUsersNotIn | schema_analysis/processing.py:56 | the `~isin` filter never grows the table |
| Records.KeepUsersNotInSpec | schema_analysis/processing.py:56 | kept rows avoid the excluded users; every row of another user is kept; kept plus removed equals the total; the result is a sub-multiset |
| Records.KeepUsersNotInNone | schema_analysis/processing.py:56 | excluding no users keeps the table |
| Records.KeepUsersNotInConcat | schema_analysis/processing.py:56 | the filter goes row by row: over any split of the rows it keeps row order and repeats, and a single row stays exactly when its user is not excluded |
| Records.Occurrences | users_wrong_direction.py:27 | a group's size is positive exactly when the key occurs |
| Records.GroupSizesAddUp | users_wrong_direction.py:27 | `value_counts` over distinct keys covering the column adds up to the column length |
| Processing.RemapFace | schema_analysis/processing.py:11-14 | the two legacy ids are never returned, and exactly they change |
| Processing.RemapFaceIdempotent | schema_analysis/processing.py:11-14 | remapping twice equals once; ID001 maps to ID017 and ID022 to ID015 |
| Processing.RenameFaceIds | schema_analysis/processing.py:4-16 | every row's face is remapped and nothing else in the row or table changes |
| Processing.RenameFaceIdsIdempotent | schema_analysis/processing.py:4-16 | no legacy id survives, and renaming twice equals once |
| Processing.EndAngle | schema_analysis/processing.py:24-29 | negated raw angle for tip left, raw angle otherwise |
| Processing.TransformAngles | schema_analysis/processing.py:18-32 | same rows with `end_angle` written from tip and raw angle; only that column changes |
| Processing.TransformAnglesIdempotent | schema_analysis/processing.py:18-32 | writing `end_angle` twice equals once, since it is computed from the raw angle |
| Processing.ValidateAngles | schema_analysis/processing.py:34-39 | fails with a missing `end_angle` exactly when the column is absent; otherwise marks each row valid iff min < end < max, and changes nothing else |
| Processing.InvalidCount | schema_analysis/processing.py:46 | a user's angle-invalid count never exceeds the user's trial count |
| Processing.InvalidUsers | schema_analysis/processing.py:46 | the users of invalid rows are exactly those with a positive invalid count |
| Processing.NoInvalidUsers | schema_analysis/processing.py:46 | a table of valid trials has no invalid users |
| Processing.KeepOverThreshold | schema_analysis/processing.py:47 | keeps exactly the users whose invalid count exceeds the threshold, in order |
| Processing.IdentifyBadSubjects | schema_analysis/processing.py:41-48 | fails without `angle_valid`; otherwise ascending, with exactly the users whose invalid count exceeds the threshold |
| Processing.DropUsers | schema_analysis/processing.py:56 | removes exactly the listed users' rows; kept plus removed equals the total; columns unchanged |
| Processing.DropUsersInOrder | schema_analysis/processing.py:56 | dropping users distributes over any split of the rows, so order and repeats are kept; a single row survives exactly when its user is not listed |
| Processing.ExcludeSubjects | schema_analysis/processing.py:50-57 | fails without `angle_valid`; otherwise the bad subjects and the table without their rows |
| Processing.ExcludeSubjectsSpec | schema_analysis/processing.py:50-57 | kept rows belong to users within the threshold; every user over it is excluded; length does not increase |
| Processing.KeepSighted | investigate_id017_change.py:9-10 | the sighted filter never grows the table |
| Processing.KeepSightedSpec | investigate_id017_change.py:9-10 | keeps exactly the `sighted` rows, as a sub-multiset |
| Processing.KeepSightedConcat | investigate_id017_change.py:9-10 | the sighted filter goes row by row: order and repeats kept over any split, a single row kept exactly when it is `sighted` |
| Processing.SightedOnly | diagnose_balancing.py:8-9 | filters only when the `sight_type` column exists; columns unchanged |
| Processing.SightedOnlySpec | find_wrong_direction.py:7-8 | with the column, exactly the sighted rows, as a sub-multiset |
| Processing.SightedOnlyInOrder | find_wrong_direction.py:7-8 | with the column, the sighted filter distributes over any split of the rows; a single row stays exactly when it is `sighted` |
| Balancing.Abs | schema_analysis/processing.py:81 | `abs`: non-negative and equal to x or -x |
| Balancing.DValue | schema_analysis/processing.py:81 | signed D plus the away magnitude is the towards magnitude; absolute D is that difference taken non-negative |
| Balancing.DFormulasRelated | analyze_data_v3.py:87 | absolute D is the magnitude of signed D; the two agree when the towards magnitude is larger and differ in sign otherwise |
| Balancing.RolePositions | schema_analysis/processing.py:75-76 | the candidate rows of a role are labels of the table |
| Balancing.RolePositionsSpec | schema_analysis/processing.py:75-76 | a label is a candidate exactly when its row plays the role; the candidates ascend |
| Balancing.SingleRole | schema_analysis/processing.py:78 | with one candidate, that position is the only one playing the role |
| Balancing.RoleCount | schema_analysis/processing.py:78 | a role has none, exactly one, or two or more candidates |
| Balancing.PairFor | schema_analysis/processing.py:74-106 | a formed pair carries its slot's key and pair type |
| Balancing.PairForSound | schema_analysis/processing.py:74-89 | a formed pair's trials are the single towards and away trials of the slot, on the right face side and tips, and both are valid when checked |
| Balancing.PairForD | schema_analysis/processing.py:81 | a pair's D is the chosen formula on its two end angles |
| Balancing.PairsOverD | schema_analysis/processing.py:81-89 | every pair over a key list has in-range positions and its formula's D |
| Balancing.PairForMissing | schema_analysis/processing.py:78-80 | no pair exactly when a role has zero or several candidates, or a checked trial is invalid |
| Balancing.PairsOverMembers | schema_analysis/processing.py:67-106 | the pairs over keys are exactly the formable slot pairs of those keys |
| Balancing.PairsOverUseTrialsOnce | schema_analysis/processing.py:89 | over distinct keys, no trial appears in two pairs |
| Balancing.GroupTrialsUsedOnce | schema_analysis/processing.py:74-106 | the two slots of one key use four distinct trials |
| Balancing.PairsOfDifferentSlotsDisjoint | schema_analysis/processing.py:89 | pairs of different slots share no trial, and no pair uses one trial twice |
| Balancing.ConcatTrialsUsedOnce | schema_analysis/processing.py:89 | joining disjoint pair lists keeps every trial in at most one pair |
| Balancing.PairsOverAppend | schema_analysis/processing.py:67-72 | one more key appends exactly its group's pairs |
| Balancing.FaceColumnMembers | schema_analysis/processing.py:69 | a user's faces are exactly the faces of the user's rows |
| Balancing.TubeColumnMembers | schema_analysis/processing.py:71 | a user's tubes on a face are exactly those of the matching rows |
| Balancing.TubeKeys | schema_analysis/processing.py:71-72 | the keys of a tube loop have exactly this user, face and those tubes, distinct when the tubes are |
| Balancing.FaceKeysMembers | schema_analysis/processing.py:69-72 | the keys of a face loop are exactly the (face, tube) keys found, distinct |
| Balancing.UserKeys | schema_analysis/processing.py:67-72 | the keys of the user loop are exactly the keys found for those users, distinct |
| Balancing.GroupKeys | schema_analysis/processing.py:67-72 | the nested loops visit every (user, face, tube) of the table exactly once |
| Balancing.KeyHasRow | schema_analysis/processing.py:67-72 | any key that appears in a row is reached by the three loops |
| Balancing.UsedOfMembers | schema_analysis/processing.py:89 | `used_indices` holds exactly the positions of the pairs' trials |
| Balancing.UsedOfSize | schema_analysis/processing.py:89 | with trials used once, there are two used labels per pair |
| Balancing.BalanceSpec | schema_analysis/processing.py:59-112 | every pair is a formable slot pair, and every formable one is formed; trials used once; 2 labels per pair; used labels are angle-valid and at most `CountValid` |
| Balancing.AllSlotPairs | schema_analysis/processing.py:59-112 | unchecked or checked, the pairs are exactly the formable slot pairs and are non-empty exactly when one exists |
| Balancing.BalanceTable | schema_analysis/processing.py:75-80 | a missing `angle_valid` or `end_angle` is the only failure; otherwise the pairs |
| Balancing.BalanceTableErrors | schema_analysis/processing.py:75-81 | which column is reported missing first, and success when both exist |
| Balancing.WithAbsoluteD | schema_analysis/processing.py:81 | the same pairs with D replaced by its magnitude |
| Balancing.SlotFormulas | schema_analysis/processing.py:81 | a slot's absolute-D pair is its signed-D pair with D taken absolutely |
| Balancing.GroupFormulas | analyze_data_v3.py:84-108 | the same, for both slots of a key |
| Balancing.FormulasPairAlike | analyze_data_v3.py:73-110 | over any keys the two formulas form the same pairs and differ only in the sign of D |
| Balancing.BalanceFormulas | analyze_data_v3.py:73-110 | the absolute-D balance is the signed balance with D taken absolutely |
| Balancing.SignedBalanceD | analyze_data_v3.py:87 | each signed pair's D is the towards magnitude minus the away magnitude |
| Balancing.TryPair | schema_analysis/processing.py:74-89 | the slot's length checks and validity test give `PairFor` |
| Balancing.AddGroupPairs | schema_analysis/processing.py:74-106 | appends the key's two slot pairs and adds their trials to `used` |
| Balancing.PairTubes | schema_analysis/processing.py:71-106 | the tube loop appends the pairs of every tube of the face and keeps `used` in step |
| Balancing.PairTube | schema_analysis/processing.py:72-106 | one tube appends exactly its group's slot pairs and keeps `used` equal to the labels of all pairs |
| Balancing.PairFaces | schema_analysis/processing.py:69-106 | the face loop appends the pairs of every face of the user and keeps `used` in step |
| Balancing.BalanceTrials | schema_analysis/processing.py:59-112 | the nested loops return exactly `Balance` and its used labels |
| Aggregation.SumBounds | analyze_data_v3.py:133 | a sum of values in [lo, hi] lies between n*lo and n*hi |
| Aggregation.MeanBounds | analyze_data_v3.py:133 | the mean of values in [lo, hi] lies in [lo, hi] |
| Aggregation.SquaredDeviationsNonNegative | analyze_data_v3.py:134 | the squared deviations sum is non-negative, and zero for a constant sample |
| Aggregation.SampleVarianceNonNegative | analyze_data_v3.py:134 | the n-1 variance is non-negative, and zero when all values are equal |
| Aggregation.Summarize | schema_analysis/tube_trials.py:186-206 | n is the count; the mean exists iff n >= 1 and is Sum/n; variance and t-test exist iff n > 1; the variance is non-negative, the test is the given one |
| Aggregation.PercentBounds | schema_analysis/tube_trials.py:39 | 0 for no denominator; in [0, 100] for 0 <= num <= den; positive when num > 0; 100 when num = den |
| Aggregation.KeysOf | schema_analysis/tube_trials.py:184 | the key column of the observations, in order |
| Aggregation.ValuesOf | schema_analysis/tube_trials.py:185 | a group has as many values as its key occurs |
| Aggregation.ValuesOfMembers | schema_analysis/tube_trials.py:185 | a group's values are exactly the values observed with its key |
| Aggregation.GroupMeans | schema_analysis/tube_trials.py:140 | one row per group key, each the mean of a non-empty group |
| Aggregation.GroupMeansSpec | schema_analysis/tube_trials.py:140 | the groups are exactly the observed keys, distinct, never more than the rows; means of bounded values stay within the bounds |
| Aggregation.GroupsSpec | schema_analysis/tube_trials.py:184 | distinct keys covering every observation, whose group sizes add up to the rows |
| Aggregation.GroupSummariesSpec | analyze_data_v3.py:140-150 | one summary per group, each the summary of that group's values |
| Aggregation.CalcGroupSummaries | schema_analysis/tube_trials.py:183-208 | the loop over the distinct faces returns exactly `GroupSummaries` |
| Aggregation.ByUserFace | schema_analysis/tube_trials.py:140 | each pair's D tagged with its (user, face) |
| Aggregation.SubjectScores | schema_analysis/tube_trials.py:130-142 | one row per (user, face) group: the group's mean D |
| Aggregation.ScoreKeys | schema_analysis/tube_trials.py:140 | the (user, face) of every score row |
| Aggregation.SubjectScoresKeys | schema_analysis/tube_trials.py:140 | the score rows are exactly the (user, face) of some pair, none twice, never more than the pairs |
| Aggregation.SubjectScoresMeans | schema_analysis/tube_trials.py:140 | each score is the mean of exactly its group's D values |
| Aggregation.SubjectScoresNonNegative | schema_analysis/tube_trials.py:136-137 | no pairs give no rows; non-negative D values give non-negative scores within the largest D |
| Aggregation.MaxDBound | schema_analysis/tube_trials.py:140 | every pair's D is at most the largest D |
| Aggregation.ScoresByFace | schema_analysis/tube_trials.py:184-185 | the subject scores tagged by face, in order |
| Trials.CountSubjectValid | schema_analysis/tube_trials.py:160 | `subject_valid.sum()` is at most the rows |
| Trials.CountFullyValid | schema_analysis/tube_trials.py:163 | the rows valid in both columns are at most the rows |
| Trials.ValidityCounts | schema_analysis/tube_trials.py:159-163 | fully valid is within each count, and the two counts overlap by at least their excess over the total |
| Trials.MarkSubjectRows | schema_analysis/tube_trials.py:51 | each row's `subject_valid` is whether its user is not excluded; nothing else changes |
| Trials.MarkSubjectRowsCount | schema_analysis/tube_trials.py:51-57 | subject-valid rows plus the excluded users' rows equal the total |
| Trials.MarkSubjects | schema_analysis/tube_trials.py:47-51 | fails without `angle_valid`; otherwise the bad subjects and the table with only `subject_valid` written |
| Trials.MarkSubjectsSpec | schema_analysis/tube_trials.py:47-51 | a trial is subject-invalid exactly when its user has more than the threshold of invalid trials; trials of one user agree |
| Trials.MarkedUsers | schema_analysis/tube_trials.py:51-55 | marking keeps the user column, so the excluded subjects never outnumber the users |
| Trials.BadSubjectsAreUsers | schema_analysis/tube_trials.py:53-55 | the excluded subjects are never more than the distinct users, so the valid-subject count is not negative |
| Trials.KeepSelected | schema_analysis/tube_trials.py:74-78 | the two filters never grow the table |
| Trials.KeepSelectedSpec | schema_analysis/tube_trials.py:74-78 | keeps exactly the rows valid in each column that exists, as a sub-multiset |
| Trials.KeepSelectedConcat | schema_analysis/tube_trials.py:74-78 | both filters go row by row: order and repeats kept over any split, a single row kept exactly when it is selected |
| Trials.SelectTable | schema_analysis/tube_trials.py:72-78 | only rows change, and without `valid_only` nothing does |
| Trials.SelectTableSpec | schema_analysis/tube_trials.py:72-78 | exactly the selected rows; selecting twice equals once; all of them angle-valid |
| Trials.SelectTableInOrder | schema_analysis/tube_trials.py:72-78 | the selection distributes over any split of the table's rows; a single row is kept exactly when it is selected |
| Trials.CheckedPairsOnValidRows | schema_analysis/processing.py:80 | on all-valid rows the validity test changes no slot |
| Trials.UnmatchedRows | schema_analysis/tube_trials.py:110-111 | the rows not in `used_indices` never outnumber the table |
| Trials.UnmatchedRowsCount | schema_analysis/tube_trials.py:110-111 | unmatched rows plus the used labels in range equal the total |
| Trials.UnmatchedRowsMembers | schema_analysis/tube_trials.py:110-111 | exactly the rows whose label is not used |
| Trials.FreePositionsSpec | schema_analysis/tube_trials.py:110-111 | the free labels are exactly the labels below the table size that are not in `used_indices`, in ascending order |
| Trials.UnmatchedRowsInOrder | schema_analysis/tube_trials.py:110-111 | the unmatched rows are the rows at the free labels, one for one, in label order |
| Trials.BalanceUnmatched | schema_analysis/tube_trials.py:99-111 | all rows but two per pair are unmatched, every angle-invalid row among them |
| Trials.ColumnsError | schema_analysis/tube_trials.py:91-94 | no error iff both columns exist; `end_angle` reported first |
| Trials.TubeTrials.constructor | schema_analysis/tube_trials.py:16-17 | the object holds the given table |
| Trials.TubeTrials.Create | schema_analysis/tube_trials.py:14-19 | a table is accepted; any other argument raises `ValueError` |
| Trials.TubeTrials.ProcessAngles | schema_analysis/tube_trials.py:21-28 | the table becomes its face-renamed, end-angle version |
| Trials.TubeTrials.MarkValidAngles | schema_analysis/tube_trials.py:30-40 | writes `angle_valid` with (3, 40) by default, or raises without `end_angle`; reports valid, total, invalid and the two guarded percentages |
| Trials.TubeTrials.MarkValidSubjects | schema_analysis/tube_trials.py:42-62 | raises without `angle_valid`; otherwise writes `subject_valid`; reports the subject and trial counts and percentages |
| Trials.TubeTrials.Select | schema_analysis/tube_trials.py:64-83 | a new object holding the selected copy |
| Trials.TubeTrials.CalcDValues | schema_analysis/tube_trials.py:85-97 | the missing-column error, or the absolute-D balance of the table |
| Trials.TubeTrials.GetUnmatchedTrials | schema_analysis/tube_trials.py:99-111 | the missing-column error, or the rows the balance left unused |
| Trials.TubeTrials.CalcSubjectD | schema_analysis/tube_trials.py:130-142 | the missing-column error, or the per-(user, face) mean D |
| Trials.TubeTrials.GetValidityStats | schema_analysis/tube_trials.py:144-169 | nothing without both columns or with no rows; otherwise the four counts |
| Trials.TubeTrials.CalcStats | schema_analysis/tube_trials.py:171-208 | the missing-column error, or one summary per face of the subject scores |
| Trials.ProcessAnglesIdempotent | schema_analysis/tube_trials.py:21-28 | processing twice equals processing once |
| Trials.CalcStatsSpec | schema_analysis/tube_trials.py:178-208 | one row per face with a score; each the summary of that face's subject means |
| Experiments.Experiment.constructor | schema_analysis/experiment.py:6-19 | raw and working table are the loaded table, or none; the statistics are empty |
| Experiments.Experiment.Preprocess | schema_analysis/experiment.py:32-45 | no data leaves nothing to do; otherwise the working table is renamed and has `end_angle` |
| Experiments.Experiment.FilterTrials | schema_analysis/experiment.py:47-60 | raises without `end_angle`; otherwise writes `angle_valid` and records the invalidated count |
| Experiments.Experiment.ExcludeSubjects | schema_analysis/experiment.py:62-77 | not ready without `angle_valid`; otherwise drops the bad subjects' trials and records them |
| Experiments.Experiment.BalanceTrials | schema_analysis/experiment.py:79-92 | records twice the number of pairs, which is at most the valid trials; raises on a missing column |
| Experiments.Experiment.Subjects | schema_analysis/experiment.py:99-103 | ascending, and exactly the users of the working table |
| AnalysisV3.Validated | analyze_data_v3.py:44-56 | every trial's end angle and its (3, 40) verdict |
| AnalysisV3.Cleaned | analyze_data_v3.py:61-68 | `ExcludeSubjects` at threshold 2 composed with `Validated`; its effect is stated by `CleanedSpec` |
| AnalysisV3.DValues | analyze_data_v3.py:133 | the `D` column of the pairs |
| AnalysisV3.FaceDs | analyze_data_v3.py:140-141 | each pair's D tagged by face |
| AnalysisV3.PairUsers | analyze_data_v3.py:119 | the `user_number` column of the pairs |
| AnalysisV3.Analyze | analyze_data_v3.py:39-150 | every stage count; removed plus remaining equals the initial trials; two trials per pair; the balancing loss is not negative; no pairs gives empty statistics, otherwise the overall and per-face summaries |
| AnalysisV3.AnalyzeAsWritten | analyze_data_v3.py:111-132 | fails with a missing `user_number` exactly when no pair forms |
| AnalysisV3.NoPairsExample | analyze_data_v3.py:119 | a single valid towards trial survives cleaning and forms no pair |
| AnalysisV3.TowardsOnlyTable | analyze_data_v3.py:58-119 | towards-only trials within the rule lose no subject and form no pair |
| AnalysisV3.NoPairWithoutAway | analyze_data_v3.py:84-86 | a table of towards trials forms no pair |
| AnalysisV3.CleanedSpec | analysis_v3/analyze_v3.py:68-81 | exactly the excluded subjects' trials leave; kept subjects have at most two invalid trials; excluded iff more |
| Investigate.Prepared | investigate_id017_change.py:9-20 | the sighted trials with end angle and (3, 40) verdict |
| Investigate.AngleOnlyExcluded | investigate_id017_change.py:99-103 | ascending, exactly the subjects with more than two angle-invalid trials |
| Investigate.TotalInvalidSpec | investigate_id017_change.py:121-126 | invalid and unused-valid labels are disjoint and together are every label not in a pair |
| Investigate.UsedAreValid | investigate_id017_change.py:121 | the labels balancing uses are valid, two per pair |
| Investigate.UnusedLabels | investigate_id017_change.py:123-126 | with used labels valid, the total-invalid set is every other label |
| Investigate.TotalInvalidCount | investigate_id017_change.py:128-130 | a user's total-invalid count never exceeds the user's trials |
| Investigate.TotalInvalidUsers | investigate_id017_change.py:128-130 | users with a positive total-invalid count |
| Investigate.KeepOverTotal | investigate_id017_change.py:130-132 | exactly the users over the threshold, in order |
| Investigate.TotalExcluded | investigate_id017_change.py:128-135 | ascending, exactly the subjects over the total-invalid threshold |
| Investigate.TotalCountCoversInvalid | investigate_id017_change.py:123-130 | the total-invalid count is at least the angle-invalid count |
| Investigate.AngleOnlyWithinTotal | investigate_id017_change.py:163-167 | method 2's excluded subjects are among method 3's, so the additional ones number the difference |
| Investigate.StudiedUsersIn | investigate_id017_change.py:170-176 | the additional subjects who saw ID017 |
| Investigate.StudiedUsersRemoved | investigate_id017_change.py:170-176 | the same, each once |
| Investigate.StudiedDs | investigate_id017_change.py:87 | the ID017 D values, never more than the pairs |
| Investigate.StudiedDsSpec | investigate_id017_change.py:87 | one value per ID017 pair, exactly those pairs' D values |
| Investigate.StudiedDsCount | investigate_id017_change.py:87 | as many values as ID017 pairs |
| Investigate.StudiedDsMembers | investigate_id017_change.py:87 | a value is listed exactly when some ID017 pair has that D |
| Investigate.StudiedDsConcat | investigate_id017_change.py:87 | the D values go pair by pair: pair order and repeated values kept over any split, a single pair contributing its D exactly when it is on ID017 |
| Investigate.StudiedSummary | investigate_id017_change.py:83-93 | raises a missing `face_id` on no pairs; otherwise the ID017 summary |
| Investigate.Compare | investigate_id017_change.py:83-176 | the script's outcome is `Compared` on the prepared table |
| Investigate.Compared | investigate_id017_change.py:83-176 | the first method without pairs raises the missing `face_id`; otherwise the three methods' exclusions, pairs and ID017 summaries, the additional subjects, and ID017 users reported exactly when there are additional ones |
| Investigate.CompareOn | investigate_id017_change.py:83-176 | the three method blocks in order compute `Compared` |
| Investigate.AngleOnlyMethod | investigate_id017_change.py:98-113 | method 2's exclusions and the balance of what remains |
| Investigate.TotalMethod | investigate_id017_change.py:118-145 | method 3's exclusions and the balance of what remains |
| Investigate.TotalKeepsFewer | investigate_id017_change.py:128-138 | every trial method 3 keeps is within both thresholds and kept by method 2 |
| Investigate.DropMoreKeepsFewer | investigate_id017_change.py:101-132 | dropping a superset of users keeps only trials that dropping the subset keeps |
| Investigate.CoveringSetKeepsFewer | investigate_id017_change.py:123-132 | any invalid-label set covering the angle-invalid labels excludes at least method 2's subjects |
| SelectVerify.CleanTable | verification/select_and_verify_random.py:29-37 | the processed, marked and selected table has all three columns |
| SelectVerify.PreparedTable | verification/select_and_verify_random.py:29-38 | raises a missing attribute exactly when the subject step is named other than `mark_valid_subjects` |
| SelectVerify.AngleChecked | verification/select_and_verify_random.py:29-35 | the renamed, end-angle, (3, 40)-checked table has both columns and every row |
| SelectVerify.CleanTableSpec | verification/select_and_verify_random.py:37 | a trial is kept exactly when it is an angle-valid row of the checked table whose subject has at most two invalid trials; all kept end angles lie within (3, 40) |
| SelectVerify.SubjectsSelected | verification/select_and_verify_random.py:36-37 | marking subjects and `select` keep exactly those trials |
| SelectVerify.Prepare | verification/select_and_verify_random.py:29-38 | the steps in order give `PreparedTable` |
| SelectVerify.FindCandidates | verification/select_and_verify_random.py:48-73 | the groupby loop returns exactly the unchecked signed pairs |
| SelectVerify.AddCandidates | verification/select_and_verify_random.py:55-73 | one group appends its two slot pairs |
| SelectVerify.CandidatesOnCleanTable | verification/select_and_verify_random.py:48-73 | on the selected table the candidates are the checked balance |
| SelectVerify.UncheckedOnValidRows | verification/select_and_verify_random.py:48-73 | on valid rows skipping the validity test changes nothing |
| SelectVerify.SampleSize | verification/select_and_verify_random.py:82 | min(10, n) |
| SelectVerify.Sampled | verification/select_and_verify_random.py:82 | as many pairs as picks, each a candidate |
| SelectVerify.CandidatesInRange | verification/select_and_verify_random.py:48-73 | every candidate names two rows of the table |
| SelectVerify.SampledDs | verification/select_and_verify_random.py:96 | one D per sampled pair |
| SelectVerify.ExportRows | verification/select_and_verify_random.py:101-102 | two exported trials per pair |
| SelectVerify.ExportRowsSpec | verification/select_and_verify_random.py:101-102 | each pair exports its towards then its away trial |
| SelectVerify.SampledDsSpec | verification/select_and_verify_random.py:96 | each D is the towards magnitude minus the away magnitude |
| SelectVerify.SampledDsAreCandidateDs | verification/select_and_verify_random.py:96 | the recomputed D equals the candidate's own D |
| SelectVerify.Export | verification/select_and_verify_random.py:91-102 | the loop returns the D values and the exported trials |
| SelectVerify.SampleAndExport | verification/select_and_verify_random.py:81-153 | sampling, export and subject statistics give `Verified` |
| SelectVerify.VerifiedSpec | verification/select_and_verify_random.py:81-102 | min(10, n) candidates sampled, two exported trials each, each recomputed D the candidate's D |
| SelectVerify.UserDs | verification/select_and_verify_random.py:147 | each sampled D tagged with its user |
| SelectVerify.MeanValues | verification/select_and_verify_random.py:149 | the means column |
| SelectVerify.LevelOf | verification/select_and_verify_random.py:145-153 | mean is Sum/n; variance non-negative, zero for one subject; a zero standard error sets t to 0; otherwise t squared times variance is n times mean squared |
| SelectVerify.TSquared | verification/select_and_verify_random.py:150-152 | t squared is non-negative; 0 when the variance, and so the standard error, is not positive; otherwise t squared times variance is n times mean squared |
| SelectVerify.SubjectLevelStats | verification/select_and_verify_random.py:145-153 | one mean per sampled user, each that user's mean D |
| SelectVerify.Run | verification/select_and_verify_random.py:29-165 | a failing step raises; no candidates stops; otherwise the sampled verification |
| SelectVerify.RunAsWritten | verification/select_and_verify_random.py:36 | always raises the missing `mark_bad_subjects` |
| SelectVerify.RunCorrected | verification/select_and_verify_random.py:29-165 | never raises; stops exactly when no pair forms; otherwise at most ten balanced pairs with their D |
| Diagnose.PartnerRole | diagnose_balancing.py:44-63 | a partner role exactly for the four combinations: same side, flipped tip |
| Diagnose.PartnerInvolution | diagnose_balancing.py:44-63 | the partner of the partner is the trial's own role |
| Diagnose.PartnerIsOtherRole | diagnose_balancing.py:44-63 | a towards trial's partner is the away role and vice versa |
| Diagnose.Classify | diagnose_balancing.py:76-88 | several candidates say how many; one names its position and validity |
| Diagnose.ClassifySpec | diagnose_balancing.py:76-88 | not found iff no trial plays the role; multiple iff two do; found names the only one |
| Diagnose.DiagnoseAt | diagnose_balancing.py:29-88 | index past the end fails; an unassigned role on the first pass fails; otherwise the partner role and search verdict |
| Diagnose.DiagnoseAll | diagnose_balancing.py:28-88 | one diagnosis per position; any position past the end fails the run; each diagnosis searches the partner role of its trial (same side, flipped tip), or the role of the previous iteration when the trial matches no branch, and its verdict is the classified search for that role in the trial's group |
| Diagnose.UnpairedValidTrialExplained | diagnose_balancing.py:87-91 | an unpaired valid trial that is the only one of its role has no single valid partner |
| Diagnose.PairedTrialsUsed | schema_analysis/processing.py:89 | both trials of a formed pair are among the used labels |
| WrongDirection.WithEndAngles | find_wrong_direction.py:7-18 | the sighted trials, each with `end_angle` |
| WrongDirection.WrongRows | find_wrong_direction.py:22 | the selection never grows the table |
| WrongDirection.WrongRowsSpec | find_wrong_direction.py:22 | exactly the trials with a negative end angle, as a sub-multiset |
| WrongDirection.WrongRowsConcat | find_wrong_direction.py:22 | the selection goes row by row: order and repeats kept over any split, a single trial kept exactly when its end angle is negative |
| WrongDirection.WrongDirectionMeaning | find_wrong_direction.py:35 | a negative end angle means the subject tilted against the instruction |
| WrongDirection.WrongDirectionIsInvalid | find_wrong_direction.py:40-41 | a wrong-direction trial fails any non-negative lower bound |
| WrongDirection.ListWrong | find_wrong_direction.py:25-38 | none found iff there are none; otherwise the count and the first five |
| WrongDirection.ListedAreWrong | find_wrong_direction.py:27-36 | each listed trial is sighted, has its end angle, negative, tilted the other way |
| UsersWrongDirection.WrongShare | users_wrong_direction.py:24 | divides by zero exactly on no trials; otherwise a percentage in [0, 100] |
| UsersWrongDirection.WrongCountBelowTotal | users_wrong_direction.py:34-35 | a user's wrong count never exceeds the user's total |
| UsersWrongDirection.CountUserIsOccurrences | users_wrong_direction.py:31 | the user's row count is the size of the user's group |
| UsersWrongDirection.StatUsers | users_wrong_direction.py:34 | the user column of the merged table |
| UsersWrongDirection.UserStats | users_wrong_direction.py:27-35 | one row per distinct wrong-direction user, ascending |
| UsersWrongDirection.UserStatsSpec | users_wrong_direction.py:27-35 | exactly the users with a wrong trial; counts are the user's wrong and total trials, 1 <= wrong <= total, percentage in (0, 100] |
| UsersWrongDirection.WrongCountsAddUp | users_wrong_direction.py:27 | the per-user wrong counts add up to the wrong-direction trials |
| UsersWrongDirection.InsertDesc | users_wrong_direction.py:28 | adds one row: the rows are the old ones plus it |
| UsersWrongDirection.InsertDescSorted | users_wrong_direction.py:28 | inserting into descending rows keeps them descending |
| UsersWrongDirection.SortDesc | users_wrong_direction.py:28 | descending by the key and a permutation of the rows |
| UsersWrongDirection.SortDescMembers | users_wrong_direction.py:28 | the sorted rows are rows of the input |
| UsersWrongDirection.SortSortedIsIdentity | users_wrong_direction.py:36 | sorting sorted rows changes nothing |
| UsersWrongDirection.Top | users_wrong_direction.py:39 | the first min(20, n) rows |
| UsersWrongDirection.Rank | users_wrong_direction.py:21-43 | divides by zero on no trials; otherwise the totals and the top twenty by count and by percentage |
| UsersWrongDirection.TopOfSorted | users_wrong_direction.py:39 | `head(20)` of descending rows is descending and takes only their rows |
| UsersWrongDirection.RankingsOrdered | users_wrong_direction.py:36-43 | both rankings are descending and list only counted users |
| Scenarios.Verdicts | verification/test_angle_validation.py:45-54 | one verdict per angle |
| Scenarios.EdgeCases | verification/test_angle_validation.py:60-78 | 3 and 40 fail, 3.0001 and 39.9999 pass, -10 fails |
| Scenarios.HalfValid | verification/test_angle_validation.py:26-54 | the ten test angles: the first five valid, the rest not |
| Scenarios.ProcessingDefaultsAdmit40 | schema_analysis/processing.py:34 | under (3, 43) an end angle of 40 is valid |
| Scenarios.SubjectCounts | verification/test_angle_validation.py:86-116 | user 1 has three invalid trials and user 2 none |
| Scenarios.SubjectExclusion | verification/test_angle_validation.py:86-116 | only user 1 is excluded |
| Scenarios.SubjectMarks | verification/test_angle_validation.py:86-116 | user 1's trials are marked invalid and user 2's valid |
| Scenarios.DummyStatistics | verification/create_dummy_verification.py:62-71 | means 4, 4.5 and 4.25 and sample variance 0.125 |
| Scenarios.DummyDValues | verification/create_dummy_verification.py:40-60 | the four hand-calculated D values 5, 3, 5, 4 |
| Scenarios.DummyRows | verification/create_dummy_verification.py:6-19 | every dummy trial gets end angle |raw| and is valid |
| Scenarios.DummyPairUser1Tube0 | verification/create_dummy_verification.py:41-44 | user 1, tube 0: rows 0 and 1 pair on the left face side with D 5 |
| Scenarios.DummyPairUser1Tube1 | verification/create_dummy_verification.py:45-48 | user 1, tube 1: rows 2 and 3 pair on the right face side with D 3 |
| Scenarios.DummyPairUser2Tube0 | verification/create_dummy_verification.py:52-55 | user 2, tube 0: rows 4 and 5 pair with D 5 |
| Scenarios.DummyPairUser2Tube1 | verification/create_dummy_verification.py:56-59 | user 2, tube 1: rows 6 and 7 pair with D 4 |
| Scenarios.LayoutGroupKeys | schema_analysis/processing.py:67-72 | in any table laid out like the data set, the nested loops visit (1, ID015, 0), (1, ID015, 1), (2, ID015, 0), (2, ID015, 1), in that order |
| Scenarios.DummyGroupKeys | verification/create_dummy_verification.py:7-13 | the data set has exactly four groups, visited as user 1 tube 0, user 1 tube 1, user 2 tube 0, user 2 tube 1 |
| Scenarios.DummyGroupUser1Tube0 | verification/create_dummy_verification.py:41-44 | user 1, tube 0 forms its left pair (rows 0 and 1, D 5) and no right pair |
| Scenarios.DummyGroupUser1Tube1 | verification/create_dummy_verification.py:45-48 | user 1, tube 1 forms its right pair (rows 2 and 3, D 3) and no left pair |
| Scenarios.DummyGroupUser2Tube0 | verification/create_dummy_verification.py:52-55 | user 2, tube 0 forms its left pair (rows 4 and 5, D 5) and no right pair |
| Scenarios.DummyGroupUser2Tube1 | verification/create_dummy_verification.py:56-59 | user 2, tube 1 forms its right pair (rows 6 and 7, D 4) and no left pair |
| Scenarios.DummyBalance | verification/create_dummy_verification.py:40-60 | balancing the data set forms exactly the four hand-calculated pairs, with D 5, 3, 5 and 4, in group order |
| Scenarios.DummySubjectScores | verification/create_dummy_verification.py:49-60 | the four pairs average to subject scores 4 for user 1 and 4.5 for user 2, one row per subject |
| Scenarios.DummyPipeline | verification/create_dummy_verification.py:40-63 | from the raw trials, balancing and then averaging gives exactly the subject-level D values [4, 4.5] |

## Left out

- CSV reading and writing, prints, plots and the text report files are left out. The model takes tables as values and returns what the scripts print.
- The str-path branch of the `TubeTrials` init is left out, because it reads a file.
- `Experiment._load` is left out; a missing file is modelled as a `None` input to the constructor.
- `scipy.stats.ttest_1samp` is passed in as a parameter, because it is a foreign call. The generator's p-value from `stats.t.sf` (`verification/select_and_verify_random.py:153`, written to the report at line 165) is not modelled, for the same reason. The t statistic of the generator is modelled as t squared, `TSquared`, because the square root is not modelled.
- `std` and `sem` are left out, because they need a square root; the sample variance stands for them.
- `random.sample` is passed in as the `choose` parameter. `ValidSample` requires distinct picks in range, of size min(10, n).
- groupby order is modelled by `GroupKeys` and `Groups`, which take keys in first-appearance order. pandas sorts the keys, so candidate order, pair order and the order of the per-group rows can differ. Group contents and counts are the same.
- `SortDesc` is stable on ties; pandas' default sort is not, so rows with equal keys can come out in a different order.
- Row labels are modelled as positions. The filters `df[~df['user_number'].isin(...)]` (`schema_analysis/processing.py:56`, `investigate_id017_change.py:101,132`), `select` (`schema_analysis/tube_trials.py:72-78`) and the sighted filter (`investigate_id017_change.py:10`) keep the original labels, so after them a label need not equal the row's position. The model is still exact. Labels are unique: `schema_analysis/data_loader.py:29` concatenates with `ignore_index=True`, and `read_csv` gives a default index. Every `used_indices` is either only counted (`schema_analysis/experiment.py:90`, `analyze_data_v3.py:112-118`) or compared with the labels of the frame that produced it (`schema_analysis/tube_trials.py:109-111`, `investigate_id017_change.py:121-128`). So labels correspond one-to-one to positions within each frame.
- `iloc` in `diagnose_balancing.py` is positional as well.
- `query` strings in `select`, `get_vector`, `get_scatter_data` and `__repr__` are left out, because they are plotting and repr helpers.
- `Trials.TubeTrials.Length` has no contract, because it only returns the table size.
- `Diagnose.DiagnoseScript` has no contract of its own; it is `Diagnose.DiagnoseAll` at the script's fixed positions, whose contract states each diagnosis's role and verdict.
- Floating point is modelled as real arithmetic.
- The drivers `standardized_analysis.py`, `verification/run_verification.py`, `preprocess_data.py`, `schema_analysis/data_loader.py`, `schema_analysis/visualization.py` and `setup.py` are not part of this model.
- The temporary `temp_invalid` column in `investigate_id017_change.py` is left out, because the model computes the set directly.

## Findings

| source | as written | input that shows it | evidently intended | confidence | as-written member | corrected member |
|---|---|---|---|---|---|---|
| analyze_data_v3.py:119 | `results_df['user_number']` is read before the emptiness check at line 130 (the same in analysis_v3/analyze_v3.py:165) | a table of one valid towards trial, where no pair forms and the empty DataFrame has no `user_number` column (`KeyError`) | the "No valid D values" early return with empty statistics | not executed | AnalysisV3.AnalyzeAsWritten | AnalysisV3.Analyze |
| verification/select_and_verify_random.py:36 | calls `trials.mark_bad_subjects()`, which `TubeTrials` does not define | any input: `AttributeError` before pairing | `mark_valid_subjects` (schema_analysis/tube_trials.py:42) | not executed | SelectVerify.RunAsWritten | SelectVerify.RunCorrected |
