/** `DescriptivePlotter` (notebooks/_Descriptive_Analysis/scripts.py): the
 *  column guards of the demographic plots, and for the occupation and
 *  platform plots the prefix selection, the column sums sorted in descending
 *  order, the label cleaning and the printed label/count lines. Drawing is
 *  not modelled; `Plotted` stands for a chart that was drawn. */
module Descriptive {
  import opened Seqs
  import opened Sorting
  import opened Strings
  import opened Dataset

  const OccupationPrefix := "prof_"
  const NotMentioned := "Not Mentioned"

  /** The age and gender labels the stacked plot assigns to the grouped table's rows and columns. */
  const AgeLabels: seq<string> := ["18-25", "25-35", "35-45", "45-55"]
  const GenderLabels: seq<string> := ["Male", "Female", "Prefer not to Say"]

  /** A chart drawn, the printed message for a missing column, or the
   *  length-mismatch error pandas raises when labels are assigned to an
   *  axis of another length. */
  datatype PlotOutcome = Plotted | ColumnMissing(message: string) | LabelLengthMismatch

  /** One entry of `df[cols].sum()`: a column name and its sum. */
  datatype Total = Total(name: string, count: int)

  /** One printed line, `{label}: {count} ({pct}%)`, without the percentage. */
  datatype CountLine = CountLine(caption: string, count: int)

  /** What a count plot shows: the message for an empty selection, or the
   *  printed header, the sorted totals and one line per total. */
  datatype CountReport =
    | NoColumns(message: string)
    | Counted(header: string, counts: seq<Total>, lines: seq<CountLine>)

  /** `[col for col in df.columns if col.startswith(prefix)]`. */
  function SelectPrefix(df: Table, prefix: string): Table
  {
    Filter(df, (c: Column) => StartsWith(c.name, prefix))
  }

  /** `df[cols].sum()`, in column order. */
  function ColumnTotals(cols: Table): seq<Total>
  {
    seq(|cols|, i requires 0 <= i < |cols| => Total(cols[i].name, Sum(cols[i].values)))
  }

  function TotalKey(t: Total): real
  {
    t.count as real
  }

  /** `.sort_values(ascending=False)` on the totals. */
  function SortedTotals(cols: Table): seq<Total>
  {
    SortDesc(ColumnTotals(cols), TotalKey)
  }

  function NoColumnsMessage(prefix: string): string
  {
    "No columns with prefix '" + prefix + "' found."
  }

  /** The occupation label: `col.replace(prefix, '').replace('_', ' ').capitalize()`. */
  function CleanLabel(name: string, prefix: string): string
  {
    Capitalize(ReplaceChar(RemoveAll(name, prefix), '_', ' '))
  }

  /** `clean_name` of the platform plot: "Not Mentioned" for a column whose
   *  stripped name is the prefix itself, the cleaned label otherwise. */
  function PlatformLabel(name: string, prefix: string): string
  {
    if Strip(name) == prefix then NotMentioned else CleanLabel(name, prefix)
  }

  /** `[... for col in counts.index]` for the occupation plot. */
  function OccupationLabels(counts: seq<Total>, prefix: string): seq<string>
  {
    seq(|counts|, i requires 0 <= i < |counts| => CleanLabel(counts[i].name, prefix))
  }

  /** `[clean_name(col) for col in counts.index]` for the platform plot. */
  function PlatformLabels(counts: seq<Total>, prefix: string): seq<string>
  {
    seq(|counts|, i requires 0 <= i < |counts| => PlatformLabel(counts[i].name, prefix))
  }

  /** The printing loop `for label, count, pct in zip(...)`: one line per pair,
   *  as many as the shorter of the two sequences. */
  method ZipLines(labels: seq<string>, counts: seq<Total>) returns (lines: seq<CountLine>)
    ensures |lines| == if |labels| <= |counts| then |labels| else |counts|
    ensures forall i :: 0 <= i < |lines| ==> lines[i] == CountLine(labels[i], counts[i].count)
  {
    lines := [];
    var n := if |labels| <= |counts| then |labels| else |counts|;
    for i := 0 to n
      invariant |lines| == i
      invariant forall k :: 0 <= k < i ==> lines[k] == CountLine(labels[k], counts[k].count)
    {
      lines := lines + [CountLine(labels[i], counts[i].count)];
    }
  }

  /** The plotter holds the table it was built with and never changes it. */
  class DescriptivePlotter {
    const df: Table

    constructor (df: Table)
      ensures this.df == df
    {
      this.df := df;
    }

    /** Drawn iff the table has `gender_encoded`; otherwise the error message. */
    method PlotGenderDistribution() returns (r: PlotOutcome)
      ensures r.Plotted? <==> HasColumn(df, GenderColumn)
      ensures r.ColumnMissing? <==> !HasColumn(df, GenderColumn)
      ensures r.ColumnMissing? ==> r.message == "Error: 'gender_encoded' column not found."
    {
      if GenderColumn !in Names(df) {
        return ColumnMissing("Error: 'gender_encoded' column not found.");
      }
      r := Plotted;
    }

    /** Drawn iff the table has `age_encoded`; otherwise the error message. */
    method PlotAgeDistribution() returns (r: PlotOutcome)
      ensures r.Plotted? <==> HasColumn(df, AgeColumn)
      ensures r.ColumnMissing? <==> !HasColumn(df, AgeColumn)
      ensures r.ColumnMissing? ==> r.message == "Error: 'age_encoded' column not found."
    {
      if AgeColumn !in Names(df) {
        return ColumnMissing("Error: 'age_encoded' column not found.");
      }
      r := Plotted;
    }

    /** The message when either column is missing. Otherwise the counts of
     *  each (age, gender) pair form a table with one row per distinct age and
     *  one column per distinct gender, and relabelling it with the four age
     *  and three gender labels raises unless it is exactly 4 by 3. */
    method PlotAgeGenderStacked() returns (r: PlotOutcome)
      ensures r.ColumnMissing? <==> !(HasColumn(df, GenderColumn) && HasColumn(df, AgeColumn))
      ensures r.ColumnMissing? ==> r.message == "Error: Required columns not found."
      ensures r.Plotted? <==>
        && HasColumn(df, GenderColumn) && HasColumn(df, AgeColumn)
        && |ValueSet(ColumnNamed(df, AgeColumn))| == |AgeLabels|
        && |ValueSet(ColumnNamed(df, GenderColumn))| == |GenderLabels|
    {
      if !(GenderColumn in Names(df) && AgeColumn in Names(df)) {
        return ColumnMissing("Error: Required columns not found.");
      }
      var ages := ValueSet(ColumnNamed(df, AgeColumn));
      var genders := ValueSet(ColumnNamed(df, GenderColumn));
      if |ages| != |AgeLabels| || |genders| != |GenderLabels| {
        return LabelLengthMismatch;
      }
      r := Plotted;
    }

    /** The occupation counts: the columns named with the prefix, their sums
     *  in non-increasing order, and one line per sum with its cleaned label. */
    method PlotOccupationDistribution(prefix: string := OccupationPrefix) returns (r: CountReport)
      ensures r.NoColumns? <==> |SelectPrefix(df, prefix)| == 0
      ensures r.NoColumns? ==> r.message == NoColumnsMessage(prefix)
      ensures r.Counted? ==> r.header == "\nOccupation Counts and Percentages:"
      ensures r.Counted? ==> multiset(r.counts) == multiset(ColumnTotals(SelectPrefix(df, prefix)))
      ensures r.Counted? ==> forall i, j :: 0 <= i < j < |r.counts| ==> r.counts[i].count >= r.counts[j].count
      ensures r.Counted? ==> |r.lines| == |r.counts|
      ensures r.Counted? ==> forall i :: 0 <= i < |r.lines| ==>
        r.lines[i] == CountLine(CleanLabel(r.counts[i].name, prefix), r.counts[i].count)
    {
      var jobCols := SelectPrefix(df, prefix);
      if |jobCols| == 0 {
        return NoColumns(NoColumnsMessage(prefix));
      }
      var counts := SortedTotals(jobCols);
      SortedTotalsSpec(jobCols);
      var cleanLabels := OccupationLabels(counts, prefix);
      var lines := ZipLines(cleanLabels, counts);
      r := Counted("\nOccupation Counts and Percentages:", counts, lines);
    }

    /** The platform counts: as the occupation counts, with the platform
     *  labels and a header naming the plot's title. */
    method PlotMultilabelPlatform(prefix: string, title: string) returns (r: CountReport)
      ensures r.NoColumns? <==> |SelectPrefix(df, prefix)| == 0
      ensures r.NoColumns? ==> r.message == NoColumnsMessage(prefix)
      ensures r.Counted? ==> r.header == "\n" + title + " Platform Counts and Percentages:"
      ensures r.Counted? ==> multiset(r.counts) == multiset(ColumnTotals(SelectPrefix(df, prefix)))
      ensures r.Counted? ==> forall i, j :: 0 <= i < j < |r.counts| ==> r.counts[i].count >= r.counts[j].count
      ensures r.Counted? ==> |r.lines| == |r.counts|
      ensures r.Counted? ==> forall i :: 0 <= i < |r.lines| ==>
        r.lines[i] == CountLine(PlatformLabel(r.counts[i].name, prefix), r.counts[i].count)
    {
      var platformCols := SelectPrefix(df, prefix);
      if |platformCols| == 0 {
        return NoColumns(NoColumnsMessage(prefix));
      }
      var counts := SortedTotals(platformCols);
      SortedTotalsSpec(platformCols);
      var cleanLabels := PlatformLabels(counts, prefix);
      var lines := ZipLines(cleanLabels, counts);
      r := Counted("\n" + title + " Platform Counts and Percentages:", counts, lines);
    }
  }

  // ---------------------------------------------------------------------
  // Properties of the selection, the counts and the labels

  /** The selection holds exactly the columns whose name starts with the prefix, in table order. */
  lemma SelectPrefixSpec(df: Table, prefix: string)
    ensures forall c :: c in SelectPrefix(df, prefix) <==> c in df && StartsWith(c.name, prefix)
    ensures SubseqOf(SelectPrefix(df, prefix), df)
  {
    var p := (c: Column) => StartsWith(c.name, prefix);
    FilterSubseq(df, p);
    forall c | c in df && StartsWith(c.name, prefix) ensures c in SelectPrefix(df, prefix) {
      var i :| 0 <= i < |df| && df[i] == c;
    }
    forall c | c in SelectPrefix(df, prefix) ensures c in df && StartsWith(c.name, prefix) {
      var i :| 0 <= i < |SelectPrefix(df, prefix)| && SelectPrefix(df, prefix)[i] == c;
    }
  }

  /** The sorted totals are those of the columns, in non-increasing order of count. */
  lemma SortedTotalsSpec(cols: Table)
    ensures multiset(SortedTotals(cols)) == multiset(ColumnTotals(cols))
    ensures |SortedTotals(cols)| == |cols|
    ensures forall i, j :: 0 <= i < j < |SortedTotals(cols)| ==> SortedTotals(cols)[i].count >= SortedTotals(cols)[j].count
  {
    var r := SortedTotals(cols);
    assert |multiset(r)| == |multiset(ColumnTotals(cols))|;
    forall i, j | 0 <= i < j < |r| ensures r[i].count >= r[j].count {
      assert TotalKey(r[i]) >= TotalKey(r[j]);
    }
  }

  /** For multi-label indicator columns (every value 0 or 1) each total is
   *  the number of respondents who marked that option, at most the number of rows. */
  lemma IndicatorTotals(cols: Table)
    requires forall i, k :: 0 <= i < |cols| && 0 <= k < |cols[i].values| ==> cols[i].values[k] == 0 || cols[i].values[k] == 1
    ensures forall i :: 0 <= i < |cols| ==>
      ColumnTotals(cols)[i].count == multiset(cols[i].values)[1] && 0 <= ColumnTotals(cols)[i].count <= |cols[i].values|
  {
    forall i | 0 <= i < |cols|
      ensures ColumnTotals(cols)[i].count == multiset(cols[i].values)[1] && 0 <= ColumnTotals(cols)[i].count <= |cols[i].values|
    {
      SumOfIndicators(cols[i].values);
    }
  }

  /** `t` is the name and sum of some column of `cols`. */
  ghost predicate IsTotalOf(t: Total, cols: Table)
  {
    exists j :: 0 <= j < |cols| && t == Total(cols[j].name, Sum(cols[j].values))
  }

  /** Each total pairs a selected column's name with that column's own sum. */
  lemma TotalsPairNamesWithSums(cols: Table, counts: seq<Total>)
    requires multiset(counts) == multiset(ColumnTotals(cols))
    ensures forall i :: 0 <= i < |counts| ==> IsTotalOf(counts[i], cols)
  {
    forall i | 0 <= i < |counts| ensures IsTotalOf(counts[i], cols) {
      assert counts[i] in multiset(ColumnTotals(cols));
      assert counts[i] in ColumnTotals(cols);
      var j :| 0 <= j < |cols| && ColumnTotals(cols)[j] == counts[i];
      assert counts[i] == Total(cols[j].name, Sum(cols[j].values));
    }
  }

  /** In the platform plot a column whose stripped name is the prefix is labelled "Not Mentioned". */
  lemma PlatformLabelOfBarePrefix(name: string, prefix: string)
    requires Strip(name) == prefix
    ensures PlatformLabel(name, prefix) == "Not Mentioned"
  {
  }

  /** A cleaned label holds no underscore, starts with no lower-case letter and
   *  has no upper-case letter after the first character. */
  lemma CleanLabelShape(name: string, prefix: string)
    ensures '_' !in CleanLabel(name, prefix)
    ensures var l := CleanLabel(name, prefix);
      (|l| > 0 ==> !IsAsciiLower(l[0])) && forall i :: 0 < i < |l| ==> !IsAsciiUpper(l[i])
  {
    var spaced := ReplaceChar(RemoveAll(name, prefix), '_', ' ');
    CapitalizeKeepsNonLetters(spaced, '_');
  }

  /** A platform label holds no underscore. */
  lemma PlatformLabelNoUnderscore(name: string, prefix: string)
    ensures '_' !in PlatformLabel(name, prefix)
  {
    CleanLabelShape(name, prefix);
  }

  /** For a name that is the prefix followed by a rest in which the prefix
   *  does not occur, the prefix is the part removed. */
  lemma CleanLabelOfPrefixed(prefix: string, rest: string)
    requires |prefix| > 0 && !Occurs(rest, prefix)
    ensures CleanLabel(prefix + rest, prefix) == Capitalize(ReplaceChar(rest, '_', ' '))
  {
    RemoveAllLeading(prefix, rest);
    RemoveAllAbsent(rest, prefix);
  }

  /** `plot_multilabel_platform('gecp_', ...)` labels the column `gecp_amazon` "Amazon". */
  lemma PlatformLabelExample()
    ensures PlatformLabel("gecp_amazon", "gecp_") == "Amazon"
  {
    ExampleNameUnstripped();
    ExampleNameCleaned();
    ExampleRestCapitalized();
  }

  lemma ExampleNameUnstripped()
    ensures Strip("gecp_amazon") == "gecp_amazon"
  {
    var name := "gecp_amazon";
    assert !IsSpace(name[0]) && !IsSpace(name[|name| - 1]);
  }

  lemma ExampleNameCleaned()
    ensures CleanLabel("gecp_amazon", "gecp_") == Capitalize(ReplaceChar("amazon", '_', ' '))
  {
    assert "gecp_amazon" == "gecp_" + "amazon";
    AbsentFirstChar("amazon", "gecp_");
    CleanLabelOfPrefixed("gecp_", "amazon");
  }

  lemma ExampleRestCapitalized()
    ensures Capitalize(ReplaceChar("amazon", '_', ' ')) == "Amazon"
  {
    assert ReplaceChar("amazon", '_', ' ') == "amazon";
    assert Capitalize("amazon")[0] == 'A';
  }
}
