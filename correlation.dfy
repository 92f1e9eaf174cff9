/** `correlation_matrix` (scripts/EDA_src/multivariate.py): the choice of
 *  columns, the heatmap mask, and the strong-pair report read off a given
 *  correlation matrix. Computing the coefficients (`df.corr()`) and drawing
 *  the heatmap are not modelled; the matrix is an input. */
module Correlation {
  import opened Seqs
  import opened Sorting
  import opened Numbers
  import opened Dataset

  datatype Option<T> = None | Some(value: T)

  const StrongThreshold: real := 0.5
  const NoStrongMessage := "No strong correlations (|r| > 0.5) found."

  /** `df.select_dtypes(include=['int64', 'float64'])`: the numeric columns, in table order. */
  function NumericColumns(df: Table): Table
  {
    Filter(df, (c: Column) => IsNumericDType(c.dtype))
  }

  /** The columns passed to `df[columns].corr()`: the given list, or by
   *  default the names of the numeric columns. */
  function ColumnsToCorrelate(df: Table, columns: Option<seq<string>>): seq<string>
  {
    match columns
    case Some(names) => names
    case None => Names(NumericColumns(df))
  }

  /** A correlation matrix as pandas holds it: the column names, which
   *  label both rows and columns, and the coefficients row by row. */
  datatype CorrMatrix = CorrMatrix(names: seq<string>, values: seq<seq<real>>)

  predicate IsSquare(m: CorrMatrix)
  {
    |m.values| == |m.names| && forall i :: 0 <= i < |m.values| ==> |m.values[i]| == |m.names|
  }

  ghost predicate IsSymmetric(m: CorrMatrix)
    requires IsSquare(m)
  {
    forall i, j :: 0 <= i < |m.names| && 0 <= j < |m.names| ==> m.values[i][j] == m.values[j][i]
  }

  /** Every variable correlates to 1.0 with itself. */
  ghost predicate UnitDiagonal(m: CorrMatrix)
    requires IsSquare(m)
  {
    forall i :: 0 <= i < |m.names| ==> m.values[i][i] == 1.0
  }

  // ---------------------------------------------------------------------
  // The heatmap mask

  /** `np.ones_like(corr, dtype=bool)`. */
  function Ones(n: nat): seq<seq<bool>>
  {
    seq(n, i => seq(n, j => true))
  }

  /** `np.triu(a)`: the entries on and above the diagonal, the rest false. */
  function Triu(a: seq<seq<bool>>): seq<seq<bool>>
  {
    seq(|a|, i requires 0 <= i < |a| => seq(|a[i]|, j requires 0 <= j < |a[i]| => j >= i && a[i][j]))
  }

  /** The mask passed to the heatmap: a true cell is hidden. */
  function HeatmapMask(n: nat): seq<seq<bool>>
  {
    Triu(Ones(n))
  }

  /** The mask is n by n and hides cell (i, j) exactly when j >= i: the
   *  diagonal and the upper triangle are hidden, the lower triangle shown. */
  lemma MaskHidesUpperTriangle(n: nat)
    ensures |HeatmapMask(n)| == n
    ensures forall i :: 0 <= i < n ==> |HeatmapMask(n)[i]| == n
    ensures forall i, j :: 0 <= i < n && 0 <= j < n ==> (HeatmapMask(n)[i][j] <==> j >= i)
  {
  }

  /** Of the two cells of an off-diagonal pair exactly one is shown, and no diagonal cell is. */
  lemma MaskShowsEachPairOnce(n: nat, i: nat, j: nat)
    requires i < n && j < n
    ensures i != j ==> (!HeatmapMask(n)[i][j] <==> HeatmapMask(n)[j][i])
    ensures HeatmapMask(n)[i][i]
  {
    MaskHidesUpperTriangle(n);
  }

  // ---------------------------------------------------------------------
  // corr.unstack()

  /** One element of the unstacked matrix: the column label, the row label and the coefficient. */
  datatype Entry = Entry(column: string, row: string, r: real)

  /** The cell in row i and column j. */
  function Cell(m: CorrMatrix, i: nat, j: nat): Entry
    requires IsSquare(m) && i < |m.names| && j < |m.names|
  {
    Entry(m.names[j], m.names[i], m.values[i][j])
  }

  function ColumnCells(m: CorrMatrix, j: nat): seq<Entry>
    requires IsSquare(m) && j < |m.names|
  {
    seq(|m.names|, i requires 0 <= i < |m.names| => Cell(m, i, j))
  }

  /** The cells of the first k columns, column by column. */
  function UnstackColumns(m: CorrMatrix, k: nat): seq<Entry>
    requires IsSquare(m) && k <= |m.names|
    decreases k
  {
    if k == 0 then [] else UnstackColumns(m, k - 1) + ColumnCells(m, k - 1)
  }

  /** `corr.unstack()`: every cell, indexed by (column, row), column by column. */
  function Unstack(m: CorrMatrix): seq<Entry>
    requires IsSquare(m)
  {
    UnstackColumns(m, |m.names|)
  }

  /** Where column j starts in the unstacked matrix: j columns of n cells each. */
  function Offset(j: nat, n: nat): nat
  {
    if j == 0 then 0 else Offset(j - 1, n) + n
  }

  /** Column j starts after j full columns. */
  lemma {:induction false} OffsetIsProduct(j: nat, n: nat)
    ensures Offset(j, n) == j * n
  {
    if j > 0 {
      OffsetIsProduct(j - 1, n);
      assert (j - 1) * n + n == j * n;
    }
  }

  lemma {:induction false} OffsetGrows(j: nat, k: nat, n: nat)
    requires j < k
    ensures Offset(j, n) + n <= Offset(k, n)
    decreases k
  {
    if j + 1 < k {
      OffsetGrows(j, k - 1, n);
    }
  }

  /** `e` is one of the cells of `m`. */
  ghost predicate IsCellOf(e: Entry, m: CorrMatrix)
    requires IsSquare(m)
  {
    exists i, j :: 0 <= i < |m.names| && 0 <= j < |m.names| && e == Cell(m, i, j)
  }

  lemma {:induction false} UnstackColumnsLength(m: CorrMatrix, k: nat)
    requires IsSquare(m) && k <= |m.names|
    ensures |UnstackColumns(m, k)| == Offset(k, |m.names|)
    decreases k
  {
    if k > 0 {
      UnstackColumnsLength(m, k - 1);
    }
  }

  lemma {:induction false} UnstackColumnsAt(m: CorrMatrix, k: nat, j: nat, i: nat)
    requires IsSquare(m) && k <= |m.names| && j < k && i < |m.names|
    ensures Offset(j, |m.names|) + i < |UnstackColumns(m, k)|
    ensures UnstackColumns(m, k)[Offset(j, |m.names|) + i] == Cell(m, i, j)
    decreases k
  {
    var n := |m.names|;
    var u := UnstackColumns(m, k - 1);
    UnstackColumnsLength(m, k - 1);
    assert UnstackColumns(m, k) == u + ColumnCells(m, k - 1);
    if j < k - 1 {
      OffsetGrows(j, k - 1, n);
      UnstackColumnsAt(m, k - 1, j, i);
    }
  }

  lemma {:induction false} UnstackColumnsCells(m: CorrMatrix, k: nat)
    requires IsSquare(m) && k <= |m.names|
    ensures forall p :: 0 <= p < |UnstackColumns(m, k)| ==> IsCellOf(UnstackColumns(m, k)[p], m)
    decreases k
  {
    if k > 0 {
      UnstackColumnsCells(m, k - 1);
      var u := UnstackColumns(m, k - 1);
      assert UnstackColumns(m, k) == u + ColumnCells(m, k - 1);
      forall p | 0 <= p < |UnstackColumns(m, k)| ensures IsCellOf(UnstackColumns(m, k)[p], m) {
        if p >= |u| {
          assert UnstackColumns(m, k)[p] == Cell(m, p - |u|, k - 1);
        }
      }
    }
  }

  /** The unstacked matrix has n*n entries. */
  lemma UnstackLength(m: CorrMatrix)
    requires IsSquare(m)
    ensures |Unstack(m)| == |m.names| * |m.names|
  {
    UnstackColumnsLength(m, |m.names|);
    OffsetIsProduct(|m.names|, |m.names|);
  }

  /** The entry at position j*n + i is the cell in row i and column j: the
   *  matrix is unstacked column by column. */
  lemma UnstackLayout(m: CorrMatrix, j: nat, i: nat)
    requires IsSquare(m) && j < |m.names| && i < |m.names|
    ensures j * |m.names| + i < |Unstack(m)|
    ensures Unstack(m)[j * |m.names| + i] == Cell(m, i, j)
  {
    UnstackColumnsAt(m, |m.names|, j, i);
    OffsetIsProduct(j, |m.names|);
  }

  /** Every cell of the matrix occurs in the unstacked matrix. */
  lemma UnstackHasEveryCell(m: CorrMatrix)
    requires IsSquare(m)
    ensures forall i, j :: 0 <= i < |m.names| && 0 <= j < |m.names| ==> Cell(m, i, j) in Unstack(m)
  {
    var n := |m.names|;
    forall i, j | 0 <= i < n && 0 <= j < n ensures Cell(m, i, j) in Unstack(m) {
      UnstackColumnsAt(m, n, j, i);
    }
  }

  /** Every unstacked entry is a cell of the matrix, and every cell is an entry. */
  lemma UnstackCells(m: CorrMatrix)
    requires IsSquare(m)
    ensures forall p :: 0 <= p < |Unstack(m)| ==> IsCellOf(Unstack(m)[p], m)
    ensures forall i, j :: 0 <= i < |m.names| && 0 <= j < |m.names| ==> Cell(m, i, j) in Unstack(m)
  {
    UnstackColumnsCells(m, |m.names|);
    UnstackHasEveryCell(m);
  }

  // ---------------------------------------------------------------------
  // The strong pairs

  /** `strong_corr < 1.0`. */
  predicate BelowOne(e: Entry)
  {
    e.r < 1.0
  }

  /** `abs(strong_corr) > 0.5`. */
  predicate IsStrong(e: Entry)
  {
    Abs(e.r) > StrongThreshold
  }

  /** An entry that survives both filters. */
  predicate Qualifies(e: Entry)
  {
    BelowOne(e) && IsStrong(e)
  }

  function EntryKey(e: Entry): real
  {
    e.r
  }

  /** The two filters, in the source's order. */
  function StrongEntries(m: CorrMatrix): seq<Entry>
    requires IsSquare(m)
  {
    Filter(Filter(Unstack(m), BelowOne), IsStrong)
  }

  /** What is printed: the strong pairs sorted by descending coefficient,
   *  or the message that there are none. */
  datatype StrongReport = NoStrongCorrelations(message: string) | StrongPairs(entries: seq<Entry>)

  function StrongCorrelations(m: CorrMatrix): (report: StrongReport)
    requires IsSquare(m)
    ensures report.NoStrongCorrelations? ==> report.message == NoStrongMessage
    ensures report.StrongPairs? ==> |report.entries| > 0 && SortedDesc(report.entries, EntryKey)
  {
    var strong := StrongEntries(m);
    if |strong| == 0 then NoStrongCorrelations(NoStrongMessage)
    else StrongPairs(SortDesc(strong, EntryKey))
  }

  /** How often an entry passes both filters: as often as it is in the matrix if it qualifies, never otherwise. */
  lemma StrongEntriesCount(m: CorrMatrix, e: Entry)
    requires IsSquare(m)
    ensures multiset(StrongEntries(m))[e] == if Qualifies(e) then multiset(Unstack(m))[e] else 0
  {
    FilterMultiset(Filter(Unstack(m), BelowOne), IsStrong, e);
    FilterMultiset(Unstack(m), BelowOne, e);
  }

  /** The reported pairs are exactly the matrix entries with r < 1.0 and
   *  |r| > 0.5, each as many times as it occurs in the unstacked matrix. */
  lemma StrongPairsExact(m: CorrMatrix, e: Entry)
    requires IsSquare(m)
    requires StrongCorrelations(m).StrongPairs?
    ensures multiset(StrongCorrelations(m).entries)[e] == if Qualifies(e) then multiset(Unstack(m))[e] else 0
  {
    StrongEntriesCount(m, e);
  }

  lemma NoneReportedNoneQualifies(m: CorrMatrix)
    requires IsSquare(m)
    requires |StrongEntries(m)| == 0
    ensures forall i, j :: 0 <= i < |m.names| && 0 <= j < |m.names| ==> !Qualifies(Cell(m, i, j))
  {
    UnstackHasEveryCell(m);
    forall i, j | 0 <= i < |m.names| && 0 <= j < |m.names| ensures !Qualifies(Cell(m, i, j)) {
      StrongEntriesCount(m, Cell(m, i, j));
    }
  }

  lemma ReportedQualifyingCell(m: CorrMatrix) returns (i: nat, j: nat)
    requires IsSquare(m)
    requires |StrongEntries(m)| > 0
    ensures i < |m.names| && j < |m.names| && Qualifies(Cell(m, i, j))
  {
    var e := StrongEntries(m)[0];
    StrongEntriesCount(m, e);
    assert e in multiset(StrongEntries(m));
    assert e in Unstack(m);
    var p :| 0 <= p < |Unstack(m)| && Unstack(m)[p] == e;
    UnstackColumnsCells(m, |m.names|);
    assert IsCellOf(e, m);
    i, j :| 0 <= i < |m.names| && 0 <= j < |m.names| && e == Cell(m, i, j);
  }

  /** There is nothing to report iff no cell of the matrix qualifies. */
  lemma NoStrongIff(m: CorrMatrix)
    requires IsSquare(m)
    ensures StrongCorrelations(m).NoStrongCorrelations? <==>
      forall i, j :: 0 <= i < |m.names| && 0 <= j < |m.names| ==> !Qualifies(Cell(m, i, j))
  {
    if |StrongEntries(m)| == 0 {
      NoneReportedNoneQualifies(m);
    } else {
      var i, j := ReportedQualifyingCell(m);
    }
  }

  /** Each reported entry is a cell of the matrix with r < 1.0 and |r| > 0.5. */
  lemma StrongPairsQualify(m: CorrMatrix)
    requires IsSquare(m)
    requires StrongCorrelations(m).StrongPairs?
    ensures forall k :: 0 <= k < |StrongCorrelations(m).entries| ==>
      Qualifies(StrongCorrelations(m).entries[k]) && IsCellOf(StrongCorrelations(m).entries[k], m)
  {
    var entries := StrongCorrelations(m).entries;
    UnstackColumnsCells(m, |m.names|);
    forall k | 0 <= k < |entries| ensures Qualifies(entries[k]) && IsCellOf(entries[k], m) {
      var e := entries[k];
      StrongPairsExact(m, e);
      assert e in multiset(entries);
      var p :| 0 <= p < |Unstack(m)| && Unstack(m)[p] == e;
    }
  }

  /** Each cell with r < 1.0 and |r| > 0.5 is reported. */
  lemma StrongPairsComplete(m: CorrMatrix)
    requires IsSquare(m)
    requires StrongCorrelations(m).StrongPairs?
    ensures forall i, j :: 0 <= i < |m.names| && 0 <= j < |m.names| && Qualifies(Cell(m, i, j)) ==>
      Cell(m, i, j) in StrongCorrelations(m).entries
  {
    var entries := StrongCorrelations(m).entries;
    UnstackHasEveryCell(m);
    forall i, j | 0 <= i < |m.names| && 0 <= j < |m.names| && Qualifies(Cell(m, i, j))
      ensures Cell(m, i, j) in entries
    {
      StrongPairsExact(m, Cell(m, i, j));
    }
  }

  /** No reported coefficient is 1.0 or more: with a unit diagonal no
   *  self-correlation is reported, and neither is an off-diagonal cell equal to 1.0. */
  lemma NoUnitCorrelationReported(m: CorrMatrix)
    requires IsSquare(m)
    requires StrongCorrelations(m).StrongPairs?
    ensures forall k :: 0 <= k < |StrongCorrelations(m).entries| ==> StrongCorrelations(m).entries[k].r < 1.0
    ensures UnitDiagonal(m) ==> forall i :: 0 <= i < |m.names| ==> Cell(m, i, i) !in StrongCorrelations(m).entries
  {
    StrongPairsQualify(m);
    var entries := StrongCorrelations(m).entries;
    forall i | 0 <= i < |m.names| && m.values[i][i] == 1.0 ensures Cell(m, i, i) !in entries {
      StrongPairsExact(m, Cell(m, i, i));
    }
  }

  /** In a symmetric matrix a strong pair is reported in both orders, once
   *  as (a, b) and once as (b, a). */
  lemma SymmetricPairBothOrders(m: CorrMatrix, i: nat, j: nat)
    requires IsSquare(m) && IsSymmetric(m)
    requires i < |m.names| && j < |m.names|
    requires Qualifies(Cell(m, i, j))
    ensures StrongCorrelations(m).StrongPairs?
    ensures Cell(m, i, j) in StrongCorrelations(m).entries
    ensures Cell(m, j, i) in StrongCorrelations(m).entries
    ensures Cell(m, j, i).r == Cell(m, i, j).r
  {
    NoStrongIff(m);
    StrongPairsComplete(m);
  }

  /** The reported pairs are in non-increasing order of r. */
  lemma StrongPairsSorted(m: CorrMatrix)
    requires IsSquare(m)
    requires StrongCorrelations(m).StrongPairs?
    ensures forall a, b :: 0 <= a < b < |StrongCorrelations(m).entries| ==>
      StrongCorrelations(m).entries[a].r >= StrongCorrelations(m).entries[b].r
  {
    var entries := StrongCorrelations(m).entries;
    forall a, b | 0 <= a < b < |entries| ensures entries[a].r >= entries[b].r {
      assert EntryKey(entries[a]) >= EntryKey(entries[b]);
    }
  }

  /** A matrix of at most one variable with a unit diagonal has no strong pair. */
  lemma SingleVariableNoStrong(m: CorrMatrix)
    requires IsSquare(m) && UnitDiagonal(m) && |m.names| <= 1
    ensures StrongCorrelations(m) == NoStrongCorrelations(NoStrongMessage)
  {
    forall i, j | 0 <= i < |m.names| && 0 <= j < |m.names| ensures !Qualifies(Cell(m, i, j)) {
      assert i == j == 0;
      assert Cell(m, i, j).r == m.values[0][0] == 1.0;
    }
    NoStrongIff(m);
  }

  /** By default the columns correlated are the numeric-dtype columns of
   *  the table, in table order: a name is chosen iff some column of that
   *  name has dtype int64 or float64. */
  lemma DefaultColumnsAreNumeric(df: Table)
    ensures SubseqOf(ColumnsToCorrelate(df, None), Names(df))
    ensures forall k :: 0 <= k < |df| && IsNumericDType(df[k].dtype) ==> df[k].name in ColumnsToCorrelate(df, None)
    ensures forall k :: 0 <= k < |ColumnsToCorrelate(df, None)| ==>
      exists c :: c in df && c.name == ColumnsToCorrelate(df, None)[k] && IsNumericDType(c.dtype)
  {
    var p := (c: Column) => IsNumericDType(c.dtype);
    var cols := NumericColumns(df);
    FilterSubseq(df, p);
    NamesSubseq(cols, df);
    forall k | 0 <= k < |df| && IsNumericDType(df[k].dtype) ensures df[k].name in Names(cols) {
      var q :| 0 <= q < |cols| && cols[q] == df[k];
      assert Names(cols)[q] == df[k].name;
    }
    forall k | 0 <= k < |Names(cols)|
      ensures exists c :: c in df && c.name == Names(cols)[k] && IsNumericDType(c.dtype)
    {
      assert cols[k] in df && p(cols[k]);
    }
  }
}
