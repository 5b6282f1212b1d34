/** The discrepancy decision and the report it selects
    (File_Validation.py, lines 79-97). */
module Report {

  /** The five validations of the discrepancy table, in table order. */
  datatype Check = SchemaMismatch | RowCountMismatch | ColumnCountMismatch | SourceMinusTarget | DuplicateRowsInTarget

  /** The "Validation" cell of each table row; none reads like the single
      no-discrepancy record. */
  function Label(c: Check): (r: string)
    ensures r != NoDiscrepancyLabel
  {
    match c
    case SchemaMismatch => "Schema Mismatch"
    case RowCountMismatch => "Row Count Mismatch"
    case ColumnCountMismatch => "Column Count Mismatch"
    case SourceMinusTarget => "Source Minus Target"
    case DuplicateRowsInTarget => "Duplicate Rows in Target"
  }

  const TableOrder: seq<Check> :=
    [SchemaMismatch, RowCountMismatch, ColumnCountMismatch, SourceMinusTarget, DuplicateRowsInTarget]

  /** The "Discrepancy" cell: the marker "No Issue", or the data the message is
      formatted from. */
  datatype Finding =
    | NoIssue
    | MissingColumns(missingInTarget: set<string>, missingInSource: set<string>)
    | Counts(source: nat, target: nat)
    | RowsMissing(count: nat)
    | Duplicates(count: nat)

  datatype Entry = Entry(check: Check, finding: Finding)

  /** Exactly one of the two report files is written per run: the single
      no-discrepancy record, with its "Validation" and "Message" cells, or
      the discrepancy table. */
  datatype Report = NoDiscrepancy(validation: string, message: string) | Discrepancy(entries: seq<Entry>)

  /** The "Validation" and "Message" cells of the single no-discrepancy record. */
  const NoDiscrepancyLabel: string := "No Discrepancy"
  const NoDiscrepancyMessage: string := "No discrepancies found. Data is consistent."

  /** Everything the report is built from, as computed by the earlier steps. */
  datatype Summary = Summary(
    missingInTarget: set<string>,
    missingInSource: set<string>,
    sourceRows: nat,
    targetRows: nat,
    sourceColumns: nat,
    targetColumns: nat,
    missingCount: nat,
    duplicateCount: nat)

  /** Whether one validation fails. */
  predicate Fails(s: Summary, c: Check) {
    match c
    case SchemaMismatch => s.missingInTarget != {} || s.missingInSource != {}
    case RowCountMismatch => s.sourceRows != s.targetRows
    case ColumnCountMismatch => s.sourceColumns != s.targetColumns
    case SourceMinusTarget => s.missingCount > 0
    case DuplicateRowsInTarget => s.duplicateCount > 0
  }

  /** The test at line 79: some check of the table found a discrepancy. */
  predicate HasDiscrepancy(s: Summary) {
    exists k :: 0 <= k < |TableOrder| && Fails(s, TableOrder[k])
  }

  /** Builds the five-row discrepancy table when any validation fails, and the
      single no-discrepancy record otherwise. */
  function Assemble(s: Summary): (r: Report)
    ensures r.Discrepancy? <==> exists c :: Fails(s, c)
    ensures r.NoDiscrepancy? <==> forall c :: !Fails(s, c)
    ensures r.NoDiscrepancy? ==> r.validation == NoDiscrepancyLabel && r.message == NoDiscrepancyMessage
    ensures r.Discrepancy? ==> |r.entries| == |TableOrder|
    ensures r.Discrepancy? ==> forall k :: 0 <= k < |r.entries| ==> r.entries[k].check == TableOrder[k]
    ensures r.Discrepancy? ==>
      forall k :: 0 <= k < |r.entries| ==> (r.entries[k].finding == NoIssue <==> !Fails(s, r.entries[k].check))
  {
    if HasDiscrepancy(s) then
      Discrepancy([
        Entry(SchemaMismatch,
          if Fails(s, SchemaMismatch) then MissingColumns(s.missingInTarget, s.missingInSource) else NoIssue),
        Entry(RowCountMismatch,
          if Fails(s, RowCountMismatch) then Counts(s.sourceRows, s.targetRows) else NoIssue),
        Entry(ColumnCountMismatch,
          if Fails(s, ColumnCountMismatch) then Counts(s.sourceColumns, s.targetColumns) else NoIssue),
        Entry(SourceMinusTarget,
          if Fails(s, SourceMinusTarget) then RowsMissing(s.missingCount) else NoIssue),
        Entry(DuplicateRowsInTarget,
          if Fails(s, DuplicateRowsInTarget) then Duplicates(s.duplicateCount) else NoIssue)
      ])
    else
      assert !Fails(s, TableOrder[0]) && !Fails(s, TableOrder[1]) && !Fails(s, TableOrder[2])
          && !Fails(s, TableOrder[3]) && !Fails(s, TableOrder[4]);
      NoDiscrepancy(NoDiscrepancyLabel, NoDiscrepancyMessage)
  }

  /** The table is produced exactly when the test at line 79, as written over
      the summary's fields, holds. */
  lemma AssembleDiscrepancyIff(s: Summary)
    ensures Assemble(s).Discrepancy? <==>
      || s.missingInTarget != {} || s.missingInSource != {}
      || s.sourceRows != s.targetRows
      || s.sourceColumns != s.targetColumns
      || s.missingCount > 0
      || s.duplicateCount > 0
  {
    if Assemble(s).Discrepancy? {
      var c :| Fails(s, c);
      assert c == TableOrder[0] || c == TableOrder[1] || c == TableOrder[2] || c == TableOrder[3] || c == TableOrder[4];
    } else {
      assert !Fails(s, SchemaMismatch) && !Fails(s, RowCountMismatch) && !Fails(s, ColumnCountMismatch)
          && !Fails(s, SourceMinusTarget) && !Fails(s, DuplicateRowsInTarget);
    }
  }

  /** A failing validation's entry carries the counts or names its message
      is formatted from. */
  lemma AssembleDetails(s: Summary)
    requires HasDiscrepancy(s)
    ensures Assemble(s).Discrepancy?
    ensures Fails(s, SchemaMismatch) ==> Assemble(s).entries[0].finding == MissingColumns(s.missingInTarget, s.missingInSource)
    ensures Fails(s, RowCountMismatch) ==> Assemble(s).entries[1].finding == Counts(s.sourceRows, s.targetRows)
    ensures Fails(s, ColumnCountMismatch) ==> Assemble(s).entries[2].finding == Counts(s.sourceColumns, s.targetColumns)
    ensures Fails(s, SourceMinusTarget) ==> Assemble(s).entries[3].finding == RowsMissing(s.missingCount)
    ensures Fails(s, DuplicateRowsInTarget) ==> Assemble(s).entries[4].finding == Duplicates(s.duplicateCount)
  {
  }

  /** The last two entries of the table, read off the summary's two counts. */
  lemma AssembleCountEntries(s: Summary)
    ensures Assemble(s).Discrepancy? ==>
      && |Assemble(s).entries| == 5
      && Assemble(s).entries[3].finding == (if s.missingCount > 0 then RowsMissing(s.missingCount) else NoIssue)
      && Assemble(s).entries[4].finding == (if s.duplicateCount > 0 then Duplicates(s.duplicateCount) else NoIssue)
  {
  }

  /** The "Validation" column of the discrepancy table reads, top to bottom,
      the five labels of lines 83-87, all different. */
  lemma LabelsInTableOrder()
    ensures seq(|TableOrder|, k requires 0 <= k < |TableOrder| => Label(TableOrder[k]))
         == ["Schema Mismatch", "Row Count Mismatch", "Column Count Mismatch",
             "Source Minus Target", "Duplicate Rows in Target"]
    ensures forall j, k :: 0 <= j < k < |TableOrder| ==> Label(TableOrder[j]) != Label(TableOrder[k])
  {
  }
}
