/** Column-name normalisation and the schema difference of two tables
    (File_Validation.py, lines 38-54). */
module ColumnNames {
  import opened Sequences

  predicate IsUpper(c: char) {
    'A' <= c <= 'Z'
  }

  /** `str.lower` on one character; only the ASCII letters A-Z are mapped. */
  function ToLower(c: char): (r: char)
    ensures !IsUpper(r)
    ensures IsUpper(c) ==> 'a' <= r <= 'z' && r as int - c as int == 'a' as int - 'A' as int
    ensures !IsUpper(c) ==> r == c
  {
    if IsUpper(c) then (c as int - 'A' as int + 'a' as int) as char else c
  }

  /** `c.lower()` */
  function Lower(s: string): string {
    seq(|s|, i requires 0 <= i < |s| => ToLower(s[i]))
  }

  /** `s.replace(" ", "_")` */
  function ReplaceSpaces(s: string): string {
    seq(|s|, i requires 0 <= i < |s| => if s[i] == ' ' then '_' else s[i])
  }

  /** A name that normalisation leaves alone: no upper-case letter and no space. */
  predicate IsNormalized(s: string) {
    forall i :: 0 <= i < |s| ==> !IsUpper(s[i]) && s[i] != ' '
  }

  /** The rule applied to every column name: lower-case it, then turn each space
      into an underscore. Only upper-case letters and spaces are changed: the
      letters into their lower-case forms, the spaces into underscores. */
  function NormalizeName(s: string): (r: string)
    ensures |r| == |s| && IsNormalized(r)
    ensures forall i :: 0 <= i < |s| ==> (r[i] == s[i] <==> !IsUpper(s[i]) && s[i] != ' ')
    ensures forall i :: 0 <= i < |s| && IsUpper(s[i]) ==> r[i] == ToLower(s[i])
    ensures forall i :: 0 <= i < |s| && s[i] == ' ' ==> r[i] == '_'
  {
    ReplaceSpaces(Lower(s))
  }

  /** A name is a fixed point of normalisation exactly when it is already normalised. */
  lemma NormalizeNameFixpoint(s: string)
    ensures NormalizeName(s) == s <==> IsNormalized(s)
  {
    if IsNormalized(s) {
      var r := NormalizeName(s);
      assert forall i :: 0 <= i < |s| ==> r[i] == s[i];
    }
  }

  /** Normalising twice is the same as normalising once. */
  lemma NormalizeNameIdempotent(s: string)
    ensures NormalizeName(NormalizeName(s)) == NormalizeName(s)
  {
    NormalizeNameFixpoint(NormalizeName(s));
  }

  /** The list comprehension that renames every column of one table. */
  function NormalizeColumns(cols: seq<string>): (r: seq<string>)
    ensures |r| == |cols|
    ensures forall i :: 0 <= i < |cols| ==> r[i] == NormalizeName(cols[i])
  {
    seq(|cols|, i requires 0 <= i < |cols| => NormalizeName(cols[i]))
  }

  /** Renaming the columns of an already renamed table changes nothing, and
      every resulting name is normalised. */
  lemma NormalizeColumnsIdempotent(cols: seq<string>)
    ensures NormalizeColumns(NormalizeColumns(cols)) == NormalizeColumns(cols)
    ensures forall c :: c in NormalizeColumns(cols) ==> IsNormalized(c)
  {
    var once := NormalizeColumns(cols);
    forall i | 0 <= i < |cols| ensures NormalizeColumns(once)[i] == once[i] {
      NormalizeNameIdempotent(cols[i]);
    }
  }

  /** The three name sets computed from the two (normalised) column lists. */
  datatype SchemaDiff = SchemaDiff(common: set<string>, missingInTarget: set<string>, missingInSource: set<string>)

  /** Set intersection and the two set differences of the column names. The three
      sets partition all names of both tables; `common` is what both share. */
  function DiffSchema(sourceCols: seq<string>, targetCols: seq<string>): (d: SchemaDiff)
    ensures d.common !! d.missingInTarget && d.common !! d.missingInSource
    ensures d.missingInTarget !! d.missingInSource
    ensures d.common + d.missingInTarget + d.missingInSource == ToSet(sourceCols) + ToSet(targetCols)
    ensures forall c :: c in d.common <==> c in sourceCols && c in targetCols
    ensures forall c :: c in d.missingInTarget ==> c !in targetCols
    ensures forall c :: c in d.missingInSource ==> c !in sourceCols
  {
    var sourceSet := ToSet(sourceCols);
    var targetSet := ToSet(targetCols);
    SchemaDiff(sourceSet * targetSet, sourceSet - targetSet, targetSet - sourceSet)
  }

  /** `schema_mismatch = missing_in_target + missing_in_source` is non-empty. */
  predicate SchemaMismatch(d: SchemaDiff) {
    d.missingInTarget != {} || d.missingInSource != {}
  }

  /** The schemas mismatch exactly when the two tables' name sets differ. */
  lemma SchemaMismatchIff(sourceCols: seq<string>, targetCols: seq<string>)
    ensures SchemaMismatch(DiffSchema(sourceCols, targetCols)) <==> ToSet(sourceCols) != ToSet(targetCols)
  {
    var d := DiffSchema(sourceCols, targetCols);
    if !SchemaMismatch(d) {
      assert ToSet(sourceCols) == ToSet(targetCols) by {
        assert forall c :: c in ToSet(sourceCols) ==> c !in d.missingInTarget;
        assert forall c :: c in ToSet(targetCols) ==> c !in d.missingInSource;
      }
    }
  }

  /** With no repeated names in either table, a column-count mismatch never
      comes alone: the schema difference is then non-empty too. */
  lemma ColumnCountMismatchImpliesSchemaMismatch(sourceCols: seq<string>, targetCols: seq<string>)
    requires Distinct(sourceCols) && Distinct(targetCols)
    requires |sourceCols| != |targetCols|
    ensures SchemaMismatch(DiffSchema(sourceCols, targetCols))
  {
    DistinctCardinality(sourceCols);
    DistinctCardinality(targetCols);
    SchemaMismatchIff(sourceCols, targetCols);
  }
}
