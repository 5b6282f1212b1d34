/** Worked cases of the reconciliation run. */
module Scenarios {
  import opened Sequences
  import opened ColumnNames
  import opened Rows
  import opened Report
  import opened Reconciler

  /** A table reconciled against an exact copy of itself, as happens when the
      target file did not exist. The merge still aborts when a column is
      renamed to one of its reserved names; otherwise no rows are missing, and
      the no-discrepancy record is produced exactly when the table has no
      repeated rows. */
  lemma ReconcileWithCopy<V>(d: Dataset<V>)
    requires Admissible(d) && |d.columns| > 0
    ensures Reconcile(d, d).Ok? <==> forall c :: c in NormalizeColumns(d.columns) ==> c !in IndicatorColumns
    ensures Reconcile(d, d).Ok? ==> Reconcile(d, d).value.missingRows == []
    ensures Reconcile(d, d).Ok? ==>
      (Reconcile(d, d).value.report.NoDiscrepancy? <==> Distinct(Keyed(d, ToSet(NormalizeColumns(d.columns)))))
  {
    var cols := NormalizeColumns(d.columns);
    assert cols[0] in ToSet(cols);
    assert CommonColumns(d, d) == ToSet(cols);
    var records := Keyed(d, ToSet(cols));
    MissingRowsEmptyIff(records, records);
    ReconcileDiscrepancyIff(d, d);
  }

  /** A header " Merge" is renamed to "_merge", the merge's own indicator
      name: when both tables carry it, the run aborts. */
  lemma IndicatorHeaderAborts()
    ensures var source: Dataset<int> := Dataset(["id", " Merge"], []);
      var target: Dataset<int> := Dataset(["id", "_merge"], []);
      && Admissible(source) && Admissible(target)
      && Reconcile(source, target) == Err(IndicatorNameTaken)
  {
    var header := " Merge";
    assert NormalizeName(header) == "_merge" by {
      var r := NormalizeName(header);
      assert header[0] == ' ' && IsUpper(header[1]);
      assert forall i :: 2 <= i < |header| ==> !IsUpper(header[i]) && header[i] != ' ';
    }
    NormalizeNameFixpoint("id");
    NormalizeNameFixpoint("_merge");
    assert NormalizeColumns(["id", header]) == ["id", "_merge"];
    assert NormalizeColumns(["id", "_merge"]) == ["id", "_merge"];
    assert "_merge" in IndicatorColumns;
  }

  /** Names that are already lower-case and free of spaces are kept. */
  lemma NormalizedLiterals()
    ensures NormalizeColumns(["id", "name"]) == ["id", "name"]
    ensures NormalizeColumns(["id", "name", "extra"]) == ["id", "name", "extra"]
  {
    NormalizeNameFixpoint("id");
    NormalizeNameFixpoint("name");
    NormalizeNameFixpoint("extra");
  }

  /** A projected row of the worked example. */
  function Record2(id: int, name: int): Record<int> {
    map["id" := id, "name" := name]
  }

  /** The example's source table. */
  function ScenarioSource(): Dataset<int> {
    Dataset(["id", "name"], [[1, 10], [2, 20], [3, 30]])
  }

  /** The example's target table: an extra column and a repeated first row. */
  function ScenarioTarget(): Dataset<int> {
    Dataset(["id", "name", "extra"], [[1, 10, 0], [2, 20, 0], [3, 30, 0], [1, 10, 0]])
  }

  /** The example's schemas share `id` and `name`; only the target has `extra`. */
  lemma ScenarioSchema()
    ensures Admissible(ScenarioSource()) && Admissible(ScenarioTarget())
    ensures DiffSchema(NormalizeColumns(ScenarioSource().columns), NormalizeColumns(ScenarioTarget().columns))
         == SchemaDiff({"id", "name"}, {}, {"extra"})
  {
    NormalizedLiterals();
    var sourceCols: seq<string> := ["id", "name"];
    var targetCols: seq<string> := ["id", "name", "extra"];
    assert "id" != "name" && "id" != "extra" && "name" != "extra";
    assert ToSet(sourceCols) == {"id", "name"};
    assert ToSet(targetCols) == {"id", "name", "extra"};
  }

  /** Projecting a row of either example table onto `id` and `name`. */
  lemma ProjectIdName(cols: seq<string>, row: seq<int>)
    requires cols == ["id", "name"] || cols == ["id", "name", "extra"]
    requires |row| == |cols|
    ensures Distinct(cols) && {"id", "name"} <= ToSet(cols)
    ensures Project(cols, row, {"id", "name"}) == Record2(row[0], row[1])
  {
    assert "id" != "name" && "id" != "extra" && "name" != "extra";
    assert cols[0] == "id" && cols[1] == "name";
    var r := Project(cols, row, {"id", "name"});
    assert r["id"] == row[0] && r["name"] == row[1];
  }

  /** Renaming leaves the example's source unchanged. */
  lemma SourceNormalized()
    ensures Admissible(ScenarioSource())
    ensures {"id", "name"} <= ToSet(NormalizeColumns(ScenarioSource().columns))
    ensures Normalize(ScenarioSource()) == ScenarioSource()
  {
    NormalizedLiterals();
  }

  /** The source projected onto `id` and `name`. */
  lemma SourceProjections()
    ensures ScenarioSource().Valid() && Distinct(ScenarioSource().columns)
    ensures {"id", "name"} <= ToSet(ScenarioSource().columns)
    ensures Projections(ScenarioSource(), {"id", "name"}) == [Record2(1, 10), Record2(2, 20), Record2(3, 30)]
  {
    var n := ScenarioSource();
    ProjectIdName(n.columns, n.rows[0]);
    ProjectIdName(n.columns, n.rows[1]);
    ProjectIdName(n.columns, n.rows[2]);
  }

  /** The example's projected source rows. */
  lemma SourceRecords()
    ensures Admissible(ScenarioSource())
    ensures {"id", "name"} <= ToSet(NormalizeColumns(ScenarioSource().columns))
    ensures Keyed(ScenarioSource(), {"id", "name"}) == [Record2(1, 10), Record2(2, 20), Record2(3, 30)]
  {
    SourceNormalized();
    SourceProjections();
  }

  /** Renaming leaves the example's target unchanged. */
  lemma TargetNormalized()
    ensures Admissible(ScenarioTarget())
    ensures {"id", "name"} <= ToSet(NormalizeColumns(ScenarioTarget().columns))
    ensures Normalize(ScenarioTarget()) == ScenarioTarget()
  {
    NormalizedLiterals();
  }

  /** The target projected onto `id` and `name`. */
  lemma TargetProjections()
    ensures ScenarioTarget().Valid() && Distinct(ScenarioTarget().columns)
    ensures {"id", "name"} <= ToSet(ScenarioTarget().columns)
    ensures Projections(ScenarioTarget(), {"id", "name"})
         == [Record2(1, 10), Record2(2, 20), Record2(3, 30), Record2(1, 10)]
  {
    var n := ScenarioTarget();
    ProjectIdName(n.columns, n.rows[0]);
    ProjectIdName(n.columns, n.rows[1]);
    ProjectIdName(n.columns, n.rows[2]);
    ProjectIdName(n.columns, n.rows[3]);
  }

  /** The example's projected target rows. */
  lemma TargetRecords()
    ensures Admissible(ScenarioTarget())
    ensures {"id", "name"} <= ToSet(NormalizeColumns(ScenarioTarget().columns))
    ensures Keyed(ScenarioTarget(), {"id", "name"}) == [Record2(1, 10), Record2(2, 20), Record2(3, 30), Record2(1, 10)]
  {
    TargetNormalized();
    TargetProjections();
  }

  /** Four rows whose first and last are equal: those two are the duplicates. */
  lemma DuplicateCountFirstAndLast<R>(a: R, b: R, c: R)
    requires a != b && a != c && b != c
    ensures DuplicateCount([a, b, c, a]) == 2
  {
    var t := [a, b, c, a];
    var occurrences := multiset(t);
    assert occurrences[a] == 2 && occurrences[b] == 1 && occurrences[c] == 1;
    var keep := Repeated(occurrences);
    assert t[1..] == [b, c, a] && t[1..][1..] == [c, a] && t[1..][1..][1..] == [a];
    assert Filter([a], keep) == [a];
    assert Filter([c, a], keep) == [a];
    assert Filter([b, c, a], keep) == [a];
  }

  /** In the example no row is missing and the two copies of the first row are duplicates. */
  lemma ScenarioRows()
    ensures Admissible(ScenarioSource()) && Admissible(ScenarioTarget())
    ensures CommonColumns(ScenarioSource(), ScenarioTarget()) == {"id", "name"}
    ensures var sourceRecords := Keyed(ScenarioSource(), {"id", "name"});
      var targetRecords := Keyed(ScenarioTarget(), {"id", "name"});
      MissingRows(sourceRecords, targetRecords) == [] && DuplicateCount(targetRecords) == 2
  {
    ScenarioSchema();
    SourceRecords();
    TargetRecords();
    var sourceRecords := Keyed(ScenarioSource(), {"id", "name"});
    var targetRecords := Keyed(ScenarioTarget(), {"id", "name"});
    MissingRowsEmptyIff(sourceRecords, targetRecords);
    assert Record2(1, 10)["id"] != Record2(2, 20)["id"];
    assert Record2(1, 10)["id"] != Record2(3, 30)["id"];
    assert Record2(2, 20)["id"] != Record2(3, 30)["id"];
    DuplicateCountFirstAndLast(Record2(1, 10), Record2(2, 20), Record2(3, 30));
  }

  /** The figures the example's report is decided on. */
  lemma ScenarioSummary()
    ensures Admissible(ScenarioSource()) && Admissible(ScenarioTarget())
    ensures Summarize(ScenarioSource(), ScenarioTarget()) == Summary({}, {"extra"}, 3, 4, 2, 3, 0, 2)
  {
    ScenarioSchema();
    ScenarioRows();
  }

  /** The five entries those figures produce. */
  lemma ScenarioReport()
    ensures Assemble(Summary({}, {"extra"}, 3, 4, 2, 3, 0, 2)) == Discrepancy([
           Entry(SchemaMismatch, MissingColumns({}, {"extra"})),
           Entry(RowCountMismatch, Counts(3, 4)),
           Entry(ColumnCountMismatch, Counts(2, 3)),
           Entry(SourceMinusTarget, NoIssue),
           Entry(DuplicateRowsInTarget, Duplicates(2))])
  {
    var s := Summary({}, {"extra"}, 3, 4, 2, 3, 0, 2);
    var extra: set<string> := {"extra"};
    assert "extra" in extra;
    assert Fails(s, TableOrder[1]);
  }

  /** Neither shared name of the example is reserved by the merge. */
  lemma ScenarioNamesNotReserved()
    ensures forall c :: c in IndicatorColumns ==> c != "id" && c != "name"
  {
    assert "_merge"[0] == '_' && "_left_indicator"[0] == '_' && "_right_indicator"[0] == '_';
    assert "id"[0] == 'i' && "name"[0] == 'n';
  }

  /** The example's tables share a column and no reserved name, so the merge
      goes through. */
  lemma ScenarioMergeProceeds()
    ensures Admissible(ScenarioSource()) && Admissible(ScenarioTarget())
    ensures !exists c :: c in IndicatorColumns && c in CommonColumns(ScenarioSource(), ScenarioTarget())
  {
    ScenarioRows();
    ScenarioNamesNotReserved();
  }

  /** Source `[id, name]` with three rows; target with an extra column, the same
      three rows and a second copy of the first one. Every check but
      Source Minus Target fails, and both copies of the first row are counted
      as duplicates. */
  lemma ExtraColumnAndDuplicateRow()
    ensures Admissible(ScenarioSource()) && Admissible(ScenarioTarget())
    ensures var r := Reconcile(ScenarioSource(), ScenarioTarget());
      && r.Ok?
      && r.value.missingRows == []
      && r.value.duplicateCount == 2
      && r.value.report == Discrepancy([
           Entry(SchemaMismatch, MissingColumns({}, {"extra"})),
           Entry(RowCountMismatch, Counts(3, 4)),
           Entry(ColumnCountMismatch, Counts(2, 3)),
           Entry(SourceMinusTarget, NoIssue),
           Entry(DuplicateRowsInTarget, Duplicates(2))])
  {
    ScenarioRows();
    ScenarioSummary();
    ScenarioReport();
    var source := ScenarioSource();
    var target := ScenarioTarget();
    var sourceRecords := Keyed(source, {"id", "name"});
    var targetRecords := Keyed(target, {"id", "name"});
    ScenarioMergeProceeds();
    assert Reconcile(source, target)
        == Ok(Outcome(Assemble(Summarize(source, target)), MissingRows(sourceRecords, targetRecords), DuplicateCount(targetRecords)));
  }
}
