/** The survey table as the analysis code sees it: an ordered list of named
 *  columns. Each column record carries what the modelled routines read of a
 *  pandas column: its name, its dtype tag, its number of distinct non-missing
 *  values (`nunique()`), and its values as integers (the 0/1 indicator
 *  columns that are summed). */
module Dataset {
  import opened Seqs

  datatype Column = Column(name: string, dtype: string, distinct: nat, values: seq<int>)

  /** The columns of a table, in table order (`df.columns`). */
  type Table = seq<Column>

  /** The column names, in table order: `df.columns.tolist()`. */
  function Names(t: Table): seq<string>
  {
    seq(|t|, i requires 0 <= i < |t| => t[i].name)
  }

  /** The demographic columns several routines test for. */
  const GenderColumn := "gender_encoded"
  const AgeColumn := "age_encoded"

  /** `name in df.columns`. */
  predicate HasColumn(t: Table, name: string)
  {
    name in Names(t)
  }

  /** `df[name]` for a present name: the first column of that name, which on
   *  a table with distinct names is the only one. */
  function ColumnNamed(t: Table, name: string): (c: Column)
    requires HasColumn(t, name)
    ensures c in t && c.name == name
    decreases |t|
  {
    if t[0].name == name then t[0]
    else
      NamesCons(t);
      ColumnNamed(t[1..], name)
  }

  /** The distinct values of a column: the groups `groupby` forms on it. */
  function ValueSet(c: Column): set<int>
  {
    set x | x in c.values
  }

  /** The dtype test `dtype in ['int64', 'float64']`, also the filter of
   *  `select_dtypes(include=['int64', 'float64'])`. */
  predicate IsNumericDType(dtype: string)
  {
    dtype == "int64" || dtype == "float64"
  }

  /** A table read from a file with a header row has no two columns of one name. */
  ghost predicate DistinctNames(t: Table)
  {
    forall i, j :: 0 <= i < j < |t| ==> t[i].name != t[j].name
  }

  lemma NamesCons(t: Table)
    requires |t| > 0
    ensures Names(t) == [t[0].name] + Names(t[1..])
  {
  }

  lemma NamesSplit(t: Table)
    requires |t| > 0
    ensures Names(t) == Names(t[..|t| - 1]) + [t[|t| - 1].name]
  {
  }

  /** Two columns of a table with distinct names that share a name are the same column. */
  lemma SameNameSameColumn(t: Table, c: Column, d: Column)
    requires DistinctNames(t)
    requires c in t && d in t && c.name == d.name
    ensures c == d
  {
    var i :| 0 <= i < |t| && t[i] == c;
    var j :| 0 <= j < |t| && t[j] == d;
    assert i == j;
  }

  /** Keeping columns in order keeps their names in order. */
  lemma {:induction false} NamesSubseq(a: Table, b: Table)
    requires SubseqOf(a, b)
    ensures SubseqOf(Names(a), Names(b))
    decreases |b|
  {
    if |b| > 0 {
      var b' := b[..|b| - 1];
      assert Names(b)[..|b| - 1] == Names(b');
      if |a| > 0 && a[|a| - 1] == b[|b| - 1] && SubseqOf(a[..|a| - 1], b') {
        NamesSubseq(a[..|a| - 1], b');
        assert Names(a)[..|a| - 1] == Names(a[..|a| - 1]);
      } else {
        NamesSubseq(a, b');
      }
    }
  }
}
