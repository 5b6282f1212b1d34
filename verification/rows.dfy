/** Tables, their projection onto the common columns, the rows of the source
    that the target lacks, and the duplicated rows of the target
    (File_Validation.py, lines 57-71). */
module Rows {
  import opened Sequences

  /** A loaded table: its column names and one row of cell values per record.
      `V` stands for a cell value compared by plain equality. */
  datatype Dataset<V> = Dataset(columns: seq<string>, rows: seq<seq<V>>) {
    /** Every row has one value per column, as in any data frame. */
    predicate Valid() {
      forall i :: 0 <= i < |rows| ==> |rows[i]| == |columns|
    }
  }

  /** A row restricted to some of its columns, keyed by column name. */
  type Record<V> = map<string, V>

  /** The position of column `c`. */
  function IndexOf(cols: seq<string>, c: string): (k: nat)
    requires c in cols
    ensures k < |cols| && cols[k] == c
  {
    if cols[0] == c then 0 else 1 + IndexOf(cols[1..], c)
  }

  /** `df[common_columns]` applied to one row: the value of each selected
      column, keyed by that column's name. */
  function Project<V>(cols: seq<string>, row: seq<V>, keys: set<string>): (r: Record<V>)
    requires |row| == |cols| && Distinct(cols) && keys <= ToSet(cols)
    ensures r.Keys == keys
    ensures forall i :: 0 <= i < |cols| && cols[i] in keys ==> r[cols[i]] == row[i]
  {
    map c | c in keys :: row[IndexOf(cols, c)]
  }

  /** All rows of a table projected onto `keys`, in row order. */
  function Projections<V>(d: Dataset<V>, keys: set<string>): (r: seq<Record<V>>)
    requires d.Valid() && Distinct(d.columns) && keys <= ToSet(d.columns)
    ensures |r| == |d.rows|
    ensures forall i :: 0 <= i < |d.rows| ==> r[i] == Project(d.columns, d.rows[i], keys)
  {
    seq(|d.rows|, i requires 0 <= i < |d.rows| => Project(d.columns, d.rows[i], keys))
  }

  /** Test used by the anti-join: the projected row matches no target row. */
  function AbsentFrom<R(==)>(targetRecords: seq<R>): R -> bool {
    x => x !in targetRecords
  }

  /** The left merge with `indicator=True` filtered on `left_only`: every
      projected source row that equals no projected target row, kept in source
      order and with its source multiplicity. */
  function MissingRows<R(==)>(sourceRecords: seq<R>, targetRecords: seq<R>): (r: seq<R>)
    ensures |r| <= |sourceRecords|
    ensures forall x :: x in r ==> x in sourceRecords && x !in targetRecords
  {
    Filter(sourceRecords, AbsentFrom(targetRecords))
  }

  /** A source row is reported as often as it occurs in the source when the
      target has no equal row, and not at all otherwise. The number of equal
      target rows does not matter: this is an anti-join, not a multiset
      difference. */
  lemma MissingRowsCount<R>(sourceRecords: seq<R>, targetRecords: seq<R>, x: R)
    ensures multiset(MissingRows(sourceRecords, targetRecords))[x]
         == if x in targetRecords then 0 else multiset(sourceRecords)[x]
  {
    FilterCount(sourceRecords, AbsentFrom(targetRecords), x);
  }

  /** The result keeps source order: missing rows of a concatenation are the
      missing rows of each part, one after the other. */
  lemma MissingRowsAppend<R>(a: seq<R>, b: seq<R>, targetRecords: seq<R>)
    ensures MissingRows(a + b, targetRecords) == MissingRows(a, targetRecords) + MissingRows(b, targetRecords)
  {
    FilterAppend(a, b, AbsentFrom(targetRecords));
  }

  /** `missing_count` is zero exactly when every projected source row occurs in
      the projected target. */
  lemma MissingRowsEmptyIff<R>(sourceRecords: seq<R>, targetRecords: seq<R>)
    ensures |MissingRows(sourceRecords, targetRecords)| == 0
        <==> forall x :: x in sourceRecords ==> x in targetRecords
  {
    FilterEmpty(sourceRecords, AbsentFrom(targetRecords));
  }

  /** A row repeated in the source with no counterpart in the target is
      reported once per occurrence. */
  lemma MissingRowsRepeated<R>(r1: R)
    ensures MissingRows([r1, r1], []) == [r1, r1]
  {
    MissingRowsAppend([r1], [r1], []);
    assert [r1] + [r1] == [r1, r1];
  }

  /** Test used by `duplicated(keep=False)`: the row occurs at least twice. */
  function Repeated<R(==)>(occurrences: multiset<R>): R -> bool {
    x => occurrences[x] >= 2
  }

  /** The target rows that `duplicated(subset=common_columns, keep=False)`
      marks: every row whose projection occurs more than once, all copies
      included, in target order. */
  function DuplicatedRows<R(==)>(targetRecords: seq<R>): (r: seq<R>)
    ensures |r| <= |targetRecords|
    ensures forall x :: x in r ==> multiset(targetRecords)[x] >= 2
  {
    Filter(targetRecords, Repeated(multiset(targetRecords)))
  }

  /** `duplicate_count`, the number of marked rows. */
  function DuplicateCount<R(==)>(targetRecords: seq<R>): (n: nat)
    ensures n <= |targetRecords|
  {
    |DuplicatedRows(targetRecords)|
  }

  /** Every copy of a repeated row is marked; a row occurring once is not. */
  lemma DuplicatedRowsCount<R>(targetRecords: seq<R>, x: R)
    ensures multiset(DuplicatedRows(targetRecords))[x]
         == if multiset(targetRecords)[x] >= 2 then multiset(targetRecords)[x] else 0
  {
    FilterCount(targetRecords, Repeated(multiset(targetRecords)), x);
  }

  /** Duplicates come at least in pairs, so the count is never 1. */
  lemma DuplicateCountNeverOne<R>(targetRecords: seq<R>)
    ensures DuplicateCount(targetRecords) != 1
  {
    var dups := DuplicatedRows(targetRecords);
    if |dups| > 0 {
      var x := dups[0];
      DuplicatedRowsCount(targetRecords, x);
      CountBound(dups, x);
    }
  }

  /** There are no duplicates exactly when all projected target rows differ. */
  lemma DuplicateCountZeroIff<R>(targetRecords: seq<R>)
    ensures DuplicateCount(targetRecords) == 0 <==> Distinct(targetRecords)
  {
    FilterEmpty(targetRecords, Repeated(multiset(targetRecords)));
    DistinctIffSingleOccurrences(targetRecords);
    var occurrences := multiset(targetRecords);
    if DuplicateCount(targetRecords) == 0 {
      forall x ensures occurrences[x] <= 1 {
        if x in targetRecords {
          assert !Repeated(occurrences)(x);
        }
      }
    }
  }

  /** Two copies of one row and a third, different row: both copies count. */
  lemma DuplicateCountExample<R>(r1: R, r2: R)
    requires r1 != r2
    ensures DuplicateCount([r1, r1, r2]) == 2
  {
    var t := [r1, r1, r2];
    assert multiset(t)[r1] == 2 && multiset(t)[r2] == 1;
    var keep := Repeated(multiset(t));
    assert t[1..] == [r1, r2] && t[1..][1..] == [r2] && t[1..][1..][1..] == [];
    assert Filter([r2], keep) == [];
    assert Filter([r1, r2], keep) == [r1];
  }
}
