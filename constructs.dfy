/** `identify_column_types` (scripts/EDA_src/constructs.py): the table's
 *  columns, less the `timestamp` column, split into numeric, binary and
 *  categorical name lists by dtype and number of distinct values. */
module Constructs {
  import opened Seqs
  import opened Dataset

  const TimestampColumn := "timestamp"

  datatype Kind = Numeric | Binary | Categorical

  /** The three name lists the routine returns, keyed 'numeric', 'binary' and 'categorical'. */
  datatype ColumnTypes = ColumnTypes(numeric: seq<string>, binary: seq<string>, categorical: seq<string>)

  function ListOf(types: ColumnTypes, k: Kind): seq<string>
  {
    match k
    case Numeric => types.numeric
    case Binary => types.binary
    case Categorical => types.categorical
  }

  /** The rule applied to each column: a numeric dtype with at most two
   *  distinct values is binary, with more it is numeric; any other dtype is
   *  categorical, whatever its number of distinct values. */
  function KindOf(c: Column): (k: Kind)
    ensures k == Binary <==> IsNumericDType(c.dtype) && c.distinct <= 2
    ensures k == Numeric <==> IsNumericDType(c.dtype) && c.distinct > 2
    ensures k == Categorical <==> !IsNumericDType(c.dtype)
  {
    if IsNumericDType(c.dtype) then
      if c.distinct <= 2 then Binary else Numeric
    else Categorical
  }

  /** `list.remove(name)`: drops the first column of that name. */
  function RemoveFirst(cs: Table, name: string): Table
    decreases |cs|
  {
    if |cs| == 0 then []
    else if cs[0].name == name then cs[1..]
    else [cs[0]] + RemoveFirst(cs[1..], name)
  }

  /** The columns the loop visits: the table's, less its first `timestamp` column if it has one. */
  function DataColumns(t: Table): Table
  {
    if HasColumn(t, TimestampColumn) then RemoveFirst(t, TimestampColumn) else t
  }

  /** The names of the columns of kind `k`, in column order. */
  function NamesOfKind(cs: Table, k: Kind): seq<string>
    decreases |cs|
  {
    if |cs| == 0 then []
    else
      var last := cs[|cs| - 1];
      NamesOfKind(cs[..|cs| - 1], k) + (if KindOf(last) == k then [last.name] else [])
  }

  /** What `identify_column_types` returns for a table. */
  function Classification(t: Table): ColumnTypes
  {
    var cs := DataColumns(t);
    ColumnTypes(NamesOfKind(cs, Numeric), NamesOfKind(cs, Binary), NamesOfKind(cs, Categorical))
  }

  /** The routine itself: the optional removal of `timestamp`, then one pass
   *  that appends each column's name to the list of its kind. The routine
   *  returns only for distinct column names: for a repeated name `df[col]` is
   *  a frame, which has no `dtype`. */
  method IdentifyColumnTypes(df: Table) returns (types: ColumnTypes)
    requires DistinctNames(df)
    ensures types == Classification(df)
    ensures multiset(types.numeric) + multiset(types.binary) + multiset(types.categorical)
            == multiset(Names(df)) - multiset{TimestampColumn}
    ensures SubseqOf(types.numeric, Names(df)) && SubseqOf(types.binary, Names(df))
            && SubseqOf(types.categorical, Names(df))
  {
    var dataCols := df;
    if TimestampColumn in Names(dataCols) {
      dataCols := RemoveFirst(dataCols, TimestampColumn);
    }
    var numericCols: seq<string> := [];
    var binaryCols: seq<string> := [];
    var categoricalCols: seq<string> := [];
    for i := 0 to |dataCols|
      invariant numericCols == NamesOfKind(dataCols[..i], Numeric)
      invariant binaryCols == NamesOfKind(dataCols[..i], Binary)
      invariant categoricalCols == NamesOfKind(dataCols[..i], Categorical)
    {
      var col := dataCols[i];
      assert dataCols[..i + 1][..i] == dataCols[..i];
      var uniqueVals := col.distinct;
      if IsNumericDType(col.dtype) {
        if uniqueVals <= 2 {
          binaryCols := binaryCols + [col.name];
        } else {
          numericCols := numericCols + [col.name];
        }
      } else {
        categoricalCols := categoricalCols + [col.name];
      }
    }
    assert dataCols[..|dataCols|] == dataCols;
    types := ColumnTypes(numericCols, binaryCols, categoricalCols);
    ClassificationPartitions(df);
    ClassificationKeepsOrder(df, Numeric);
    ClassificationKeepsOrder(df, Binary);
    ClassificationKeepsOrder(df, Categorical);
  }

  // ---------------------------------------------------------------------
  // The removal of the first `timestamp` column

  /** The position of the first column of the given name. */
  lemma {:induction false} FirstColumnOf(cs: Table, name: string) returns (i: nat)
    requires HasColumn(cs, name)
    ensures i < |cs| && cs[i].name == name
    ensures forall j :: 0 <= j < i ==> cs[j].name != name
    decreases |cs|
  {
    NamesCons(cs);
    if cs[0].name == name {
      i := 0;
    } else {
      var k := FirstColumnOf(cs[1..], name);
      i := k + 1;
      forall j | 0 <= j < i ensures cs[j].name != name {
        if j > 0 {
          assert cs[j] == cs[1..][j - 1];
        }
      }
    }
  }

  /** The column removed is the first one of that name. */
  lemma {:induction false} RemoveFirstSplit(cs: Table, name: string, i: nat)
    requires i < |cs| && cs[i].name == name
    requires forall j :: 0 <= j < i ==> cs[j].name != name
    ensures RemoveFirst(cs, name) == cs[..i] + cs[i + 1..]
    decreases i
  {
    if i == 0 {
      assert cs[..0] + cs[1..] == cs[1..];
    } else {
      var tail := cs[1..];
      assert forall j :: 0 <= j < i - 1 ==> tail[j].name != name by {
        forall j | 0 <= j < i - 1 ensures tail[j].name != name {
          assert tail[j] == cs[j + 1];
        }
      }
      RemoveFirstSplit(tail, name, i - 1);
      assert cs[..i] == [cs[0]] + tail[..i - 1];
      assert cs[i + 1..] == tail[i..];
    }
  }

  /** The first column of the given name is at `i`, and it is the one removed. */
  lemma RemoveFirstAt(cs: Table, name: string) returns (i: nat)
    requires HasColumn(cs, name)
    ensures i < |cs| && cs[i].name == name
    ensures forall j :: 0 <= j < i ==> cs[j].name != name
    ensures RemoveFirst(cs, name) == cs[..i] + cs[i + 1..]
  {
    i := FirstColumnOf(cs, name);
    RemoveFirstSplit(cs, name, i);
  }

  /** Removing the first column of a name takes one occurrence of that name out of the names. */
  lemma {:induction false} RemoveFirstNames(cs: Table, name: string)
    requires HasColumn(cs, name)
    ensures multiset(Names(cs)) == multiset(Names(RemoveFirst(cs, name))) + multiset{name}
    decreases |cs|
  {
    NamesCons(cs);
    if cs[0].name == name {
      assert RemoveFirst(cs, name) == cs[1..];
    } else {
      var tail := cs[1..];
      assert HasColumn(tail, name);
      RemoveFirstNames(tail, name);
      var r := RemoveFirst(tail, name);
      assert RemoveFirst(cs, name) == [cs[0]] + r;
      assert ([cs[0]] + r)[1..] == r;
      NamesCons([cs[0]] + r);
    }
  }

  /** The visited columns are the table's less one `timestamp` column; in their table order. */
  lemma DataColumnsSpec(t: Table)
    ensures multiset(Names(DataColumns(t))) == multiset(Names(t)) - multiset{TimestampColumn}
    ensures SubseqOf(DataColumns(t), t)
    ensures forall c :: c in DataColumns(t) ==> c in t
  {
    if HasColumn(t, TimestampColumn) {
      RemoveFirstNames(t, TimestampColumn);
      var i := RemoveFirstAt(t, TimestampColumn);
      SubseqDropOne(t, i);
    } else {
      assert multiset(Names(t))[TimestampColumn] == 0;
      SubseqRefl(t);
    }
  }

  /** An element of `t` with its `i`-th element dropped sits in `t` at a position other than `i`. */
  lemma DroppedAt(t: Table, i: nat, c: Column) returns (j: nat)
    requires i < |t| && c in t[..i] + t[i + 1..]
    ensures j < |t| && j != i && t[j] == c
  {
    if c in t[..i] {
      var k :| 0 <= k < i && t[..i][k] == c;
      j := k;
    } else {
      var k :| 0 <= k < |t| - i - 1 && t[i + 1..][k] == c;
      j := i + 1 + k;
    }
  }

  /** An element of `t` at a position other than `i` survives dropping the `i`-th. */
  lemma KeptAt(t: Table, i: nat, j: nat)
    requires i < |t| && j < |t| && j != i
    ensures t[j] in t[..i] + t[i + 1..]
  {
    if j < i {
      assert t[j] == t[..i][j];
    } else {
      assert t[j] == t[i + 1..][j - i - 1];
    }
  }

  /** In a table with distinct names, the visited columns are exactly those not named `timestamp`. */
  lemma DataColumnsMembers(t: Table, c: Column)
    requires DistinctNames(t)
    ensures c in DataColumns(t) <==> c in t && c.name != TimestampColumn
  {
    if HasColumn(t, TimestampColumn) {
      var i := RemoveFirstAt(t, TimestampColumn);
      if c in t && c.name != TimestampColumn {
        var j :| 0 <= j < |t| && t[j] == c;
        KeptAt(t, i, j);
      }
      if c in DataColumns(t) {
        var j := DroppedAt(t, i, c);
        assert t[j].name != t[i].name;
      }
    } else {
      assert forall k :: 0 <= k < |t| ==> t[k].name != TimestampColumn by {
        forall k | 0 <= k < |t| ensures t[k].name != TimestampColumn {
          assert Names(t)[k] == t[k].name;
        }
      }
    }
  }

  // ---------------------------------------------------------------------
  // The classification pass

  /** A name is in a kind's list iff some column of that name has that kind. */
  lemma {:induction false} NamesOfKindMembers(cs: Table, k: Kind, x: string)
    ensures x in NamesOfKind(cs, k) <==> exists c :: c in cs && c.name == x && KindOf(c) == k
    decreases |cs|
  {
    if |cs| > 0 {
      var init, last := cs[..|cs| - 1], cs[|cs| - 1];
      assert cs == init + [last];
      NamesOfKindMembers(init, k, x);
      if x in NamesOfKind(cs, k) && !(x in NamesOfKind(init, k)) {
        assert last.name == x && KindOf(last) == k;
      }
    }
  }

  /** Every visited name lands in exactly one of the three lists, as often as it occurs. */
  lemma {:induction false} NamesOfKindPartition(cs: Table)
    ensures multiset(NamesOfKind(cs, Numeric)) + multiset(NamesOfKind(cs, Binary))
            + multiset(NamesOfKind(cs, Categorical)) == multiset(Names(cs))
    decreases |cs|
  {
    if |cs| > 0 {
      NamesOfKindPartition(cs[..|cs| - 1]);
      NamesSplit(cs);
    }
  }

  /** Each kind's list keeps the column order. */
  lemma {:induction false} NamesOfKindSubseq(cs: Table, k: Kind)
    ensures SubseqOf(NamesOfKind(cs, k), Names(cs))
    decreases |cs|
  {
    if |cs| > 0 {
      var init, last := cs[..|cs| - 1], cs[|cs| - 1];
      NamesOfKindSubseq(init, k);
      NamesSplit(cs);
      var r := NamesOfKind(cs, k);
      if KindOf(last) == k {
        assert r[..|r| - 1] == NamesOfKind(init, k) && r[|r| - 1] == last.name;
        assert SubseqOf(r[..|r| - 1], Names(cs)[..|cs| - 1]);
      } else {
        assert r == NamesOfKind(init, k);
        assert SubseqOf(r, Names(cs)[..|cs| - 1]);
      }
    }
  }

  // ---------------------------------------------------------------------
  // Properties of `identify_column_types`

  /** The three lists hold exactly the table's column names less one `timestamp`. */
  lemma ClassificationPartitions(t: Table)
    ensures var r := Classification(t);
      multiset(r.numeric) + multiset(r.binary) + multiset(r.categorical)
      == multiset(Names(t)) - multiset{TimestampColumn}
  {
    NamesOfKindPartition(DataColumns(t));
    DataColumnsSpec(t);
  }

  /** Each list keeps the table's column order. */
  lemma ClassificationKeepsOrder(t: Table, k: Kind)
    ensures SubseqOf(ListOf(Classification(t), k), Names(t))
  {
    var cs := DataColumns(t);
    NamesOfKindSubseq(cs, k);
    DataColumnsSpec(t);
    NamesSubseq(cs, t);
    SubseqTrans(NamesOfKind(cs, k), Names(cs), Names(t));
  }

  /** In a table with distinct names, a name is in the list of kind `k` iff
   *  it is not `timestamp` and its column has kind `k`. */
  lemma ClassifiedIff(t: Table, k: Kind, x: string)
    requires DistinctNames(t)
    ensures x in ListOf(Classification(t), k)
            <==> x != TimestampColumn && exists c :: c in t && c.name == x && KindOf(c) == k
  {
    var cs := DataColumns(t);
    NamesOfKindMembers(cs, k, x);
    forall c ensures c in cs <==> c in t && c.name != TimestampColumn {
      DataColumnsMembers(t, c);
    }
  }

  /** A column is binary iff its dtype is int64 or float64 and it has at most two distinct values. */
  lemma BinaryIff(t: Table, x: string)
    requires DistinctNames(t)
    ensures x in Classification(t).binary
      <==> (x != TimestampColumn && exists c :: c in t && c.name == x && IsNumericDType(c.dtype) && c.distinct <= 2)
  {
    ClassifiedIff(t, Binary, x);
  }

  /** A column is numeric iff its dtype is int64 or float64 and it has more than two distinct values. */
  lemma NumericIff(t: Table, x: string)
    requires DistinctNames(t)
    ensures x in Classification(t).numeric
      <==> (x != TimestampColumn && exists c :: c in t && c.name == x && IsNumericDType(c.dtype) && c.distinct > 2)
  {
    ClassifiedIff(t, Numeric, x);
  }

  /** A column of any other dtype is categorical, whatever its number of distinct values. */
  lemma CategoricalIff(t: Table, x: string)
    requires DistinctNames(t)
    ensures x in Classification(t).categorical
      <==> (x != TimestampColumn && exists c :: c in t && c.name == x && !IsNumericDType(c.dtype))
  {
    ClassifiedIff(t, Categorical, x);
  }

  /** `timestamp` is in none of the lists. */
  lemma TimestampExcluded(t: Table)
    requires DistinctNames(t)
    ensures TimestampColumn !in Classification(t).numeric
    ensures TimestampColumn !in Classification(t).binary
    ensures TimestampColumn !in Classification(t).categorical
  {
    ClassifiedIff(t, Numeric, TimestampColumn);
    ClassifiedIff(t, Binary, TimestampColumn);
    ClassifiedIff(t, Categorical, TimestampColumn);
  }

  /** In a table with distinct names no name is in two lists. */
  lemma ClassificationDisjoint(t: Table, x: string)
    requires DistinctNames(t)
    ensures var r := Classification(t);
      !(x in r.numeric && x in r.binary) && !(x in r.numeric && x in r.categorical)
      && !(x in r.binary && x in r.categorical)
  {
    ClassifiedIff(t, Numeric, x);
    ClassifiedIff(t, Binary, x);
    ClassifiedIff(t, Categorical, x);
    forall c, d | c in t && d in t && c.name == x && d.name == x ensures KindOf(c) == KindOf(d) {
      SameNameSameColumn(t, c, d);
    }
  }

  /** A table with no columns, or with `timestamp` alone, gives three empty lists. */
  lemma NothingToClassify(t: Table)
    requires Names(t) == [] || Names(t) == [TimestampColumn]
    ensures Classification(t) == ColumnTypes([], [], [])
  {
    ClassificationPartitions(t);
    var r := Classification(t);
    assert multiset(Names(t)) - multiset{TimestampColumn} == multiset{};
    assert multiset(r.numeric) == multiset{};
    assert multiset(r.binary) == multiset{};
    assert multiset(r.categorical) == multiset{};
  }
}
