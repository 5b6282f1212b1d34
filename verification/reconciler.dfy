/** The reconciliation run of File_Validation.py, lines 38-97: normalise both
    tables' column names, diff the schemas, compare the counts, find the source
    rows the target lacks, count the target's duplicates and pick the report. */
module Reconciler {
  import opened Sequences
  import opened ColumnNames
  import opened Rows
  import opened Report

  /** The two ways the merge at line 65 raises; the run then aborts without
      writing any report. `pd.merge` refuses to join on no columns at all, and
      with `indicator=True` it refuses frames that already hold a column named
      like its indicator column or one of its two helper columns. */
  datatype Error = NoCommonColumns | IndicatorNameTaken

  /** The names `pd.merge(..., indicator=True)` reserves for itself. */
  const IndicatorColumns: set<string> := {"_merge", "_left_indicator", "_right_indicator"}

  datatype Result<T> = Ok(value: T) | Err(error: Error)

  /** What one successful run hands to the report writer. */
  datatype Outcome<V> = Outcome(report: Report, missingRows: seq<Record<V>>, duplicateCount: nat)

  /** Lines 39-40: the same renaming applied to one table; its rows are
      untouched, every name becomes normalised, and renaming again would change
      nothing. */
  function Normalize<V>(d: Dataset<V>): (n: Dataset<V>)
    ensures n.rows == d.rows && |n.columns| == |d.columns|
    ensures forall i :: 0 <= i < |d.columns| ==> n.columns[i] == NormalizeName(d.columns[i])
    ensures forall c :: c in n.columns ==> IsNormalized(c)
    ensures NormalizeColumns(n.columns) == n.columns
    ensures d.Valid() ==> n.Valid()
  {
    NormalizeColumnsIdempotent(d.columns);
    Dataset(NormalizeColumns(d.columns), d.rows)
  }

  /** What a table must satisfy before reconciliation: a well-formed frame whose
      normalised column names are all different. */
  predicate Admissible<V>(d: Dataset<V>) {
    d.Valid() && Distinct(NormalizeColumns(d.columns))
  }

  /** The normalised names both tables share. */
  function CommonColumns<V>(source: Dataset<V>, target: Dataset<V>): (common: set<string>)
    ensures forall c :: c in common <==> c in NormalizeColumns(source.columns) && c in NormalizeColumns(target.columns)
    ensures common <= ToSet(NormalizeColumns(source.columns))
    ensures common <= ToSet(NormalizeColumns(target.columns))
  {
    DiffSchema(NormalizeColumns(source.columns), NormalizeColumns(target.columns)).common
  }

  /** The rows of a table after renaming, projected onto `keys`: one record
      per row, keyed by exactly `keys`, each key holding the cell of the
      column renamed to it. */
  function Keyed<V>(d: Dataset<V>, keys: set<string>): (r: seq<Record<V>>)
    requires Admissible(d) && keys <= ToSet(NormalizeColumns(d.columns))
    ensures |r| == |d.rows|
    ensures forall i :: 0 <= i < |r| ==> r[i].Keys == keys
    ensures forall i, k :: 0 <= i < |r| && 0 <= k < |d.columns| && NormalizeName(d.columns[k]) in keys ==>
      r[i][NormalizeName(d.columns[k])] == d.rows[i][k]
  {
    Projections(Normalize(d), keys)
  }

  /** The counts, name sets and row results the report is decided on. The
      column counts are those of the full renamed schemas, not of the shared
      columns. */
  function Summarize<V(==)>(source: Dataset<V>, target: Dataset<V>): (s: Summary)
    requires Admissible(source) && Admissible(target)
    ensures forall c :: c in s.missingInTarget <==> c in NormalizeColumns(source.columns) && c !in NormalizeColumns(target.columns)
    ensures forall c :: c in s.missingInSource <==> c in NormalizeColumns(target.columns) && c !in NormalizeColumns(source.columns)
    ensures s.sourceRows == |source.rows| && s.targetRows == |target.rows|
    ensures s.sourceColumns == |source.columns| && s.targetColumns == |target.columns|
    ensures s.missingCount
         == |MissingRows(Keyed(source, CommonColumns(source, target)), Keyed(target, CommonColumns(source, target)))|
    ensures s.duplicateCount == DuplicateCount(Keyed(target, CommonColumns(source, target)))
    ensures s.missingCount <= |source.rows| && s.duplicateCount <= |target.rows|
    ensures s.duplicateCount != 1
  {
    var diff := DiffSchema(NormalizeColumns(source.columns), NormalizeColumns(target.columns));
    var sourceRecords := Keyed(source, diff.common);
    var targetRecords := Keyed(target, diff.common);
    Summary(
      diff.missingInTarget, diff.missingInSource,
      |source.rows|, |target.rows|,
      |NormalizeColumns(source.columns)|, |NormalizeColumns(target.columns)|,
      |MissingRows(sourceRecords, targetRecords)|, (DuplicateCountNeverOne(targetRecords); DuplicateCount(targetRecords)))
  }

  /** One reconciliation run. It fails when the tables share no column, or
      when a shared column bears a name the merge reserves; otherwise the
      missing rows and the duplicate count come from the rows projected onto
      the shared columns, and the report from the summary. */
  function Reconcile<V(==)>(source: Dataset<V>, target: Dataset<V>): (r: Result<Outcome<V>>)
    requires Admissible(source) && Admissible(target)
    ensures r == Err(NoCommonColumns) <==> ToSet(NormalizeColumns(source.columns)) !! ToSet(NormalizeColumns(target.columns))
    ensures r == Err(IndicatorNameTaken) <==>
      exists c :: c in IndicatorColumns && c in NormalizeColumns(source.columns) && c in NormalizeColumns(target.columns)
  {
    var common := CommonColumns(source, target);
    if common == {} then
      Err(NoCommonColumns)
    else if exists c :: c in IndicatorColumns && c in common then
      Err(IndicatorNameTaken)
    else
      var sourceRecords := Keyed(source, common);
      var targetRecords := Keyed(target, common);
      Ok(Outcome(Assemble(Summarize(source, target)), MissingRows(sourceRecords, targetRecords), DuplicateCount(targetRecords)))
  }

  /** The missing rows are the projected source rows with no equal projected
      target row, each with its source multiplicity. */
  lemma ReconcileMissingRows<V>(source: Dataset<V>, target: Dataset<V>)
    requires Admissible(source) && Admissible(target)
    ensures var common := CommonColumns(source, target);
      var sourceRecords := Keyed(source, common);
      var targetRecords := Keyed(target, common);
      var r := Reconcile(source, target);
      r.Ok? ==>
      var missing := r.value.missingRows;
      && missing == MissingRows(sourceRecords, targetRecords)
      && |missing| <= |source.rows|
      && (forall x :: x in missing ==> x in sourceRecords && x !in targetRecords)
      && (forall x :: multiset(missing)[x] == if x in targetRecords then 0 else multiset(sourceRecords)[x])
  {
    var common := CommonColumns(source, target);
    var sourceRecords := Keyed(source, common);
    var targetRecords := Keyed(target, common);
    forall x ensures multiset(MissingRows(sourceRecords, targetRecords))[x]
                 == if x in targetRecords then 0 else multiset(sourceRecords)[x] {
      MissingRowsCount(sourceRecords, targetRecords, x);
    }
  }

  /** The duplicate count is at most the target's row count, never 1, and zero
      exactly when the projected target rows are all different. */
  lemma ReconcileDuplicates<V>(source: Dataset<V>, target: Dataset<V>)
    requires Admissible(source) && Admissible(target)
    ensures var r := Reconcile(source, target);
      r.Ok? ==>
      var n := r.value.duplicateCount;
      && n == DuplicateCount(Keyed(target, CommonColumns(source, target)))
      && n <= |target.rows|
      && n != 1
      && (n == 0 <==> Distinct(Keyed(target, CommonColumns(source, target))))
  {
    var targetRecords := Keyed(target, CommonColumns(source, target));
    DuplicateCountNeverOne(targetRecords);
    DuplicateCountZeroIff(targetRecords);
  }

  /** A discrepancy report is produced exactly when one of the five checks
      fails; otherwise the single no-discrepancy record is. */
  lemma ReconcileDiscrepancyIff<V>(source: Dataset<V>, target: Dataset<V>)
    requires Admissible(source) && Admissible(target)
    ensures var common := CommonColumns(source, target);
      var sourceRecords := Keyed(source, common);
      var targetRecords := Keyed(target, common);
      var r := Reconcile(source, target);
      r.Ok? ==> (
        r.value.report.Discrepancy? <==>
          || ToSet(NormalizeColumns(source.columns)) != ToSet(NormalizeColumns(target.columns))
          || |source.rows| != |target.rows|
          || |source.columns| != |target.columns|
          || (exists x :: x in sourceRecords && x !in targetRecords)
          || !Distinct(targetRecords))
  {
    if Reconcile(source, target).Ok? {
      var summary := Summarize(source, target);
      SummaryChecks(source, target);
      assert Reconcile(source, target).value.report == Assemble(summary);
      AssembleDiscrepancyIff(summary);
    }
  }

  /** The report's Source Minus Target and Duplicate Rows entries quote the
      run's own missing-row count and duplicate count: one `missing_count` and
      one `duplicate_count` feed both the files and the messages. */
  lemma ReconcileReportCounts<V>(source: Dataset<V>, target: Dataset<V>)
    requires Admissible(source) && Admissible(target)
    ensures var r := Reconcile(source, target);
      r.Ok? && r.value.report.Discrepancy? ==>
      && |r.value.report.entries| == 5
      && r.value.report.entries[3].finding
         == (if |r.value.missingRows| > 0 then RowsMissing(|r.value.missingRows|) else NoIssue)
      && r.value.report.entries[4].finding
         == (if r.value.duplicateCount > 0 then Duplicates(r.value.duplicateCount) else NoIssue)
  {
    var r := Reconcile(source, target);
    if r.Ok? && r.value.report.Discrepancy? {
      var summary := Summarize(source, target);
      assert r.value.report == Assemble(summary);
      AssembleCountEntries(summary);
      assert summary.missingCount == |r.value.missingRows|;
      assert summary.duplicateCount == r.value.duplicateCount;
    }
  }

  /** Each field of the summary, restated over the two input tables. */
  lemma SummaryChecks<V>(source: Dataset<V>, target: Dataset<V>)
    requires Admissible(source) && Admissible(target)
    ensures var s := Summarize(source, target);
      var common := CommonColumns(source, target);
      var sourceRecords := Keyed(source, common);
      var targetRecords := Keyed(target, common);
      && ((s.missingInTarget != {} || s.missingInSource != {})
          <==> ToSet(NormalizeColumns(source.columns)) != ToSet(NormalizeColumns(target.columns)))
      && s.sourceRows == |source.rows| && s.targetRows == |target.rows|
      && s.sourceColumns == |source.columns| && s.targetColumns == |target.columns|
      && (s.missingCount > 0 <==> exists x :: x in sourceRecords && x !in targetRecords)
      && (s.duplicateCount > 0 <==> !Distinct(targetRecords))
  {
    var common := CommonColumns(source, target);
    var sourceRecords := Keyed(source, common);
    var targetRecords := Keyed(target, common);
    SchemaMismatchIff(NormalizeColumns(source.columns), NormalizeColumns(target.columns));
    MissingRowsEmptyIff(sourceRecords, targetRecords);
    DuplicateCountZeroIff(targetRecords);
  }

  /** Both tables go through the same renaming independently: two tables whose
      column names normalise alike and whose rows agree reconcile identically. */
  lemma ReconcileSeesOnlyNormalizedNames<V>(source: Dataset<V>, source': Dataset<V>, target: Dataset<V>, target': Dataset<V>)
    requires Admissible(source) && Admissible(target)
    requires NormalizeColumns(source'.columns) == NormalizeColumns(source.columns) && source'.rows == source.rows
    requires NormalizeColumns(target'.columns) == NormalizeColumns(target.columns) && target'.rows == target.rows
    ensures Admissible(source') && Admissible(target')
    ensures Reconcile(source', target') == Reconcile(source, target)
  {
    assert Normalize(source') == Normalize(source);
    assert Normalize(target') == Normalize(target);
  }
}
