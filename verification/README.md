# File validation reconciler, modelled in Dafny

`File_Validation.py` loads a *source of truth* table and a *target* table that
should mirror it, then reconciles them and writes a discrepancy report. This
project models the reconciliation itself. That is the script body at lines
38-97. It has six steps:

1. **Rename columns.** Each column name is lower-cased, then every space becomes
   `_`. Both tables get this rule, each on its own (`ColumnNames.NormalizeName`,
   `ColumnNames.NormalizeColumns`, `Reconciler.Normalize`).
2. **Diff the schemas.** This is the intersection and the two differences of the
   renamed name sets (`ColumnNames.DiffSchema`).
3. **Compare counts.** Row counts and full column counts are compared
   (`Reconciler.Summarize`).
4. **Find missing rows.** Source rows are projected onto the common columns. A
   left merge with `indicator=True`, filtered on `left_only`, keeps every
   projected source row that equals no projected target row
   (`Rows.MissingRows`).
5. **Count target duplicates.** `duplicated(subset=common_columns, keep=False)`
   marks every target row whose projection occurs more than once
   (`Rows.DuplicatedRows`, `Rows.DuplicateCount`).
6. **Choose the report.** Either the five-row discrepancy table is produced, or
   the single "No Discrepancy" record (`Report.Assemble`).

`Reconciler.Reconcile` runs the whole pipeline.

Modelling choices:

- **Tables.** A table is a `Dataset<V>`: column names plus rows of cell values.
  `V` is any type with equality.
- **Projected rows.** A projected row is a `Record<V>`, a map from column name to
  value. The script builds its common-column list from a Python set, so the
  column order is arbitrary. Keying by name makes the comparison independent of
  that order, as the merge and `duplicated` are.
- **Report.** Report cells are datatypes (`Report.Finding`), not formatted
  strings. They carry the counts and name sets that the messages are formatted
  from.
- **Aborted merges.** The merge at line 65 raises in two cases the model
  captures. The catch-all at line 101 then logs the error and writes no report.
  - The shared-column set is empty, so `pd.merge` has no key to join on.
    `Reconcile` returns `Err(NoCommonColumns)` in exactly this case. Treating a
    zero-key join as a full match would be another option; the model follows
    the code.
  - A shared column is named `_merge`, `_left_indicator` or `_right_indicator`
    after renaming (from a header such as `_merge`, ` merge` or ` Merge`).
    `indicator=True` reserves these names. `Reconcile` returns
    `Err(IndicatorNameTaken)` in exactly this case.
- **Preconditions.** `Reconciler.Admissible` states the two assumptions made of
  each table:
  - every row has one value per column, as in any data frame;
  - no two columns share a normalised name. The script does not handle that
    case: `set(...)` at line 43 would merge the two names, while `len(...)` at
    line 62 counts both.
- **Copied target.** One may expect a target copied from its source to raise no
  discrepancy. The code does not promise that. Such a target reports duplicates
  whenever the table repeats a row (`Scenarios.ReconcileWithCopy`).

## Model

| member | source | states |
|---|---|---|
| `ColumnNames.NormalizeName` | File_Validation.py:39-40 | the renamed name has the same length, contains no upper-case letter and no space, and differs from the original exactly at the upper-case letters and the spaces; each upper-case letter becomes its lower-case form and each space becomes `_` |
| `ColumnNames.NormalizeNameFixpoint` | File_Validation.py:39-40 | renaming leaves a name unchanged if and only if it has no upper-case letter and no space |
| `ColumnNames.NormalizeNameIdempotent` | File_Validation.py:39-40 | renaming twice equals renaming once |
| `ColumnNames.NormalizeColumns` | File_Validation.py:39-40 | the renamed column list has one name per column, in order, each the renaming of the original name |
| `ColumnNames.NormalizeColumnsIdempotent` | File_Validation.py:39-40 | renaming an already renamed column list changes nothing, and every resulting name is normalised |
| `ColumnNames.DiffSchema` | File_Validation.py:43-48 | common, missing-in-target and missing-in-source are pairwise disjoint; their union is every name of both tables; common holds exactly the names in both; each missing set avoids the other table's names |
| `ColumnNames.SchemaMismatchIff` | File_Validation.py:50-54 | `schema_mismatch` is non-empty if and only if the two renamed name sets differ |
| `ColumnNames.ColumnCountMismatchImpliesSchemaMismatch` | File_Validation.py:43-62 | if no table repeats a name, different column counts imply a non-empty schema difference |
| `Rows.Project` | File_Validation.py:65 | a projected row is keyed by exactly the common columns, and each key maps to that column's cell |
| `Rows.Projections` | File_Validation.py:65 | `df[common_columns]` keeps one projected row per table row, in row order, each the projection of that row |
| `Rows.MissingRows` | File_Validation.py:65-67 | the result is no longer than the source; every reported row occurs in the projected source and nowhere in the projected target |
| `Rows.MissingRowsCount` | File_Validation.py:65-67 | a projected row occurs in the result as often as in the source when the target lacks it, and never otherwise; the target's multiplicity plays no role, so this is an anti-join |
| `Rows.MissingRowsAppend` | File_Validation.py:65-67 | the result keeps source order: the missing rows of `a + b` are those of `a` followed by those of `b` |
| `Rows.MissingRowsEmptyIff` | File_Validation.py:65-67 | `missing_count` is 0 if and only if every projected source row occurs in the projected target |
| `Rows.MissingRowsRepeated` | File_Validation.py:65-67 | a source of `[r1, r1]` against an empty target yields `[r1, r1]` |
| `Rows.DuplicatedRows` | File_Validation.py:70 | the marked rows are no more than the target rows, and each occurs at least twice in the projected target |
| `Rows.DuplicateCount` | File_Validation.py:70 | `duplicate_count` never exceeds the target row count |
| `Rows.DuplicatedRowsCount` | File_Validation.py:70 | a row with at least two occurrences is marked once per occurrence; a row occurring once is not marked |
| `Rows.DuplicateCountNeverOne` | File_Validation.py:70-71 | `duplicate_count` is never 1 |
| `Rows.DuplicateCountZeroIff` | File_Validation.py:70-71 | `duplicate_count` is 0, i.e. `has_duplicates` is false, if and only if all projected target rows differ |
| `Rows.DuplicateCountExample` | File_Validation.py:70 | for `[r1, r1, r2]` with `r1 != r2` the count is 2 |
| `Report.Label` | File_Validation.py:83-87 | the five labels are the literal strings of lines 83-87, given by its body and stated in `Report.LabelsInTableOrder`; its contract states that none equals "No Discrepancy", the label of the other report |
| `Report.LabelsInTableOrder` | File_Validation.py:83-87 | the "Validation" column reads Schema Mismatch, Row Count Mismatch, Column Count Mismatch, Source Minus Target, Duplicate Rows in Target, all different |
| `Report.Assemble` | File_Validation.py:79-97 | a discrepancy table is produced if and only if some check fails, and the no-discrepancy record if and only if none does; that record reads "No Discrepancy" / "No discrepancies found. Data is consistent."; the table has five entries in the order Schema Mismatch, Row Count Mismatch, Column Count Mismatch, Source Minus Target, Duplicate Rows in Target; an entry is "No Issue" exactly when its own check passes |
| `Report.AssembleDiscrepancyIff` | File_Validation.py:79 | the table is produced exactly when the schema mismatch is non-empty, the row counts differ, the column counts differ, the missing count is positive or the duplicate count is positive |
| `Report.AssembleCountEntries` | File_Validation.py:86-87 | the table's last two entries carry the missing count and the duplicate count when positive, and "No Issue" otherwise |
| `Report.AssembleDetails` | File_Validation.py:82-88 | a failing entry carries what its message is formatted from: the two missing-name sets, the two row counts, the two column counts, the missing count, or the duplicate count |
| `Reconciler.Normalize` | File_Validation.py:39-40 | renaming a table keeps its rows and column count, renames each column, leaves only normalised names, and is a fixed point of renaming again |
| `Reconciler.CommonColumns` | File_Validation.py:43-46 | a name is shared if and only if it is among both tables' renamed columns |
| `Reconciler.Keyed` | File_Validation.py:65-70 | each table row becomes one record keyed by exactly the shared names, each name holding the cell of the column renamed to it |
| `Reconciler.Summarize` | File_Validation.py:43-71 | the missing-in-target names are the source's renamed names the target lacks, and vice versa; row counts and column counts are those of the full tables; the missing count is the number of projected source rows absent from the projected target (line 67), at most the source row count; the duplicate count is the number of projected target rows in repeated groups (line 70), at most the target row count and never 1 |
| `Reconciler.Reconcile` | File_Validation.py:38-97 | the run fails with `NoCommonColumns` if and only if the renamed name sets are disjoint, and with `IndicatorNameTaken` if and only if both tables have a column renamed to a name the indicator merge reserves |
| `Reconciler.ReconcileReportCounts` | File_Validation.py:67-87 | when the run produces the table, the Source Minus Target entry quotes the number of missing rows it writes out, and the Duplicate Rows entry quotes its duplicate count; each is "No Issue" when that count is 0 |
| `Reconciler.SummaryChecks` | File_Validation.py:54-71 | each summary field, restated over the inputs: schema mismatch iff the name sets differ; row and column counts are those of the full tables; missing count positive iff some projected source row is absent from the target; duplicate count positive iff the projected target repeats a row |
| `Reconciler.ReconcileMissingRows` | File_Validation.py:65-67 | when the run succeeds, its missing rows are exactly the anti-join of the projected source against the projected target, in source order; they are at most the source row count, each absent from the target, with its source multiplicity |
| `Reconciler.ReconcileDuplicates` | File_Validation.py:70-71 | when the run succeeds, its duplicate count is the number of projected target rows in repeated groups, at most the target row count, never 1, and 0 if and only if the projected target rows are all different |
| `Reconciler.ReconcileDiscrepancyIff` | File_Validation.py:79 | when the run succeeds, the discrepancy table is produced if and only if the name sets differ, the row counts differ, the column counts differ, some projected source row is absent from the target, or the projected target repeats a row |
| `Reconciler.ReconcileSeesOnlyNormalizedNames` | File_Validation.py:39-40 | each table is seen only through its renamed columns: tables whose names normalise alike and whose rows agree reconcile identically |
| `Scenarios.ReconcileWithCopy` | File_Validation.py:30-35 | a table reconciled against a copy of itself aborts exactly when a renamed column bears a reserved name; otherwise it misses no row, and gets the no-discrepancy record if and only if its projected rows are all different |
| `Scenarios.IndicatorHeaderAborts` | File_Validation.py:39-65 | a source header " Merge" and a target header "_merge" both become `_merge`, and the run aborts with `IndicatorNameTaken` |
| `Scenarios.DuplicateCountFirstAndLast` | File_Validation.py:70 | in four rows `[a, b, c, a]` with `a`, `b`, `c` all different, the duplicate count is 2 |
| `Scenarios.ExtraColumnAndDuplicateRow` | File_Validation.py:38-97 | source `[id, name]` with 3 rows against target `[id, name, extra]` with those 3 rows plus a copy of the first: the report is a discrepancy whose five entries are `{} / {extra}` missing names, rows 3 vs 4, columns 2 vs 3, "No Issue", and duplicate count 2; no row is missing |

## Left out

- Loading and writing CSV files (`read_csv`, `to_csv`, lines 26, 35, 75, 91 and 96) is not modelled. The tables are the inputs of `Reconcile`. The report and the missing rows are its outputs.
- The file-existence checks and copying a missing target from the source (lines 18-23 and 29-32) are not modelled. The two tables are assumed already loaded. `Scenarios.ReconcileWithCopy` covers the copied-target case.
- Logging, the hard-coded `config` paths and the `try`/`except` blocks are not modelled (lines 5-16, 21 and 99-102). Two exceptions of the merge at line 65 are modelled as errors: no common column (`Err(NoCommonColumns)`) and a shared column holding a name the indicator reserves (`Err(IndicatorNameTaken)`).
- `Reconciler.Reconcile`: the merge also raises when a shared key column holds values pandas refuses to join, such as integers in one table and strings in the other. The run then aborts too. Cells are of one abstract type `V`, so this abort is not modelled.
- pandas value semantics are not modelled: dtype inference, numeric coercion, float comparison, and NaN matching NaN in `merge` and `duplicated`. Cells are compared by plain equality.
- `ColumnNames.ToLower`: only the ASCII letters A-Z are lower-cased. Python's `str.lower` also maps other Unicode letters, and some of them to more than one character. The normalisation lemmas speak of ASCII upper case only.
- The formatting of messages is not modelled: the f-strings, and the order in which `", ".join` lists names taken from a set. Findings carry the counts and name sets instead.
- The column order of the missing-rows file is not modelled. It follows Python set iteration order. The model keys projected rows by column name.
