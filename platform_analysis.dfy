/** `analyze_purchase_behavior` (scripts/EDA_src/platform_analysis.py):
 *  the presence guards, the logistic-regression term list and its formula,
 *  and the caught fitting failure. The fit itself is the parameter `fit`. */
module PlatformAnalysis {
  import opened Seqs
  import opened Strings
  import opened Dataset

  const PurchaseColumn := "opi_purchased?"
  const SatisfactionColumn := "opi_satisfaction"

  /** The construct prefixes, in the order their averages enter the model. */
  const ConstructPrefixes: seq<string> := ["peou_", "pu_", "sa_", "si_", "att_", "risk_"]

  /** The demographic predictors, entered after the construct averages. */
  const DemographicColumns: seq<string> := ["gender_encoded", "age_encoded", "education_encoded"]

  const FormulaHead := PurchaseColumn + " ~ "
  const TermSeparator := " + "
  const FitFailureMessage := "Could not build logistic regression model: "

  /** What fitting the binomial GLM to the table with a formula gives: its summary, or the exception it raised. */
  datatype FitOutcome = Fitted(summary: string) | Raised(error: string)

  datatype ModelReport = ModelSummary(summary: string) | ModelNotBuilt(message: string)

  /** What the routine shows: nothing when there is no purchase column;
   *  otherwise which of the three panels are drawn, the formula, and the
   *  model summary or the failure message. */
  datatype PurchaseReport =
    | NoPurchaseColumn
    | Analyzed(genderPanel: bool, agePanel: bool, satisfactionPanel: bool, formula: string, model: ModelReport)

  /** `f'{prefix}avg'`. */
  function AverageColumn(prefix: string): string
  {
    prefix + "avg"
  }

  function AverageColumns(prefixes: seq<string>): seq<string>
  {
    seq(|prefixes|, i requires 0 <= i < |prefixes| => AverageColumn(prefixes[i]))
  }

  /** Every predictor the model may use, in the order it would enter. */
  function Candidates(): seq<string>
  {
    AverageColumns(ConstructPrefixes) + DemographicColumns
  }

  /** The candidates in `names` that are columns of the table, in their order. */
  function Present(names: seq<string>, columns: seq<string>): seq<string>
  {
    Filter(names, (n: string) => n in columns)
  }

  /** `key_vars`: the candidates that are columns of the table, in candidate order. */
  function KeyTerms(columns: seq<string>): seq<string>
  {
    Present(Candidates(), columns)
  }

  /** `f"{purchase_col} ~ " + " + ".join(key_vars)`. */
  function Formula(terms: seq<string>): string
  {
    FormulaHead + Join(terms, TermSeparator)
  }

  /** The term list as the source builds it: one append per construct
   *  average found, then the demographic columns found. */
  method KeyVariables(columns: seq<string>) returns (keyVars: seq<string>)
    ensures keyVars == KeyTerms(columns)
  {
    keyVars := [];
    for i := 0 to |ConstructPrefixes|
      invariant keyVars == Present(AverageColumns(ConstructPrefixes[..i]), columns)
    {
      var avgCol := AverageColumn(ConstructPrefixes[i]);
      assert AverageColumns(ConstructPrefixes[..i + 1]) == AverageColumns(ConstructPrefixes[..i]) + [avgCol];
      FilterAppend(AverageColumns(ConstructPrefixes[..i]), avgCol, (n: string) => n in columns);
      if avgCol in columns {
        keyVars := keyVars + [avgCol];
      }
    }
    assert ConstructPrefixes[..|ConstructPrefixes|] == ConstructPrefixes;
    keyVars := keyVars + Present(DemographicColumns, columns);
    FilterConcat(AverageColumns(ConstructPrefixes), DemographicColumns, (n: string) => n in columns);
  }

  /** The routine: nothing without the purchase column; otherwise the panels
   *  whose columns exist, the formula over the present predictors, and the
   *  fit's summary or its exception turned into a message. */
  method AnalyzePurchaseBehavior(df: Table, fit: string -> FitOutcome) returns (report: PurchaseReport)
    ensures report.NoPurchaseColumn? <==> !HasColumn(df, PurchaseColumn)
    ensures report.Analyzed? ==>
      && report.genderPanel == HasColumn(df, GenderColumn)
      && report.agePanel == HasColumn(df, AgeColumn)
      && report.satisfactionPanel == HasColumn(df, SatisfactionColumn)
    ensures report.Analyzed? ==> report.formula == Formula(KeyTerms(Names(df)))
    ensures report.Analyzed? ==>
      match fit(report.formula)
      case Fitted(summary) => report.model == ModelSummary(summary)
      case Raised(error) => report.model == ModelNotBuilt(FitFailureMessage + error)
  {
    if PurchaseColumn !in Names(df) {
      return NoPurchaseColumn;
    }
    var columns := Names(df);
    var genderPanel := GenderColumn in columns;
    var agePanel := AgeColumn in columns;
    var satisfactionPanel := SatisfactionColumn in columns;
    var keyVars := KeyVariables(columns);
    var formula := Formula(keyVars);
    var model: ModelReport;
    match fit(formula) {
      case Fitted(summary) => model := ModelSummary(summary);
      case Raised(error) => model := ModelNotBuilt(FitFailureMessage + error);
    }
    report := Analyzed(genderPanel, agePanel, satisfactionPanel, formula, model);
  }

  // ---------------------------------------------------------------------
  // Properties of the term list and the formula

  /** The construct averages are `peou_avg`, `pu_avg`, `sa_avg`, `si_avg`, `att_avg`, `risk_avg`, in that order. */
  lemma ConstructAverages()
    ensures AverageColumns(ConstructPrefixes) == ["peou_avg", "pu_avg", "sa_avg", "si_avg", "att_avg", "risk_avg"]
  {
    var r := AverageColumns(ConstructPrefixes);
    assert |r| == 6;
    assert r[0] == "peou_avg" by { assert "peou_" + "avg" == "peou_avg"; }
    assert r[1] == "pu_avg" by { assert "pu_" + "avg" == "pu_avg"; }
    assert r[2] == "sa_avg" by { assert "sa_" + "avg" == "sa_avg"; }
    assert r[3] == "si_avg" by { assert "si_" + "avg" == "si_avg"; }
    assert r[4] == "att_avg" by { assert "att_" + "avg" == "att_avg"; }
    assert r[5] == "risk_avg" by { assert "risk_" + "avg" == "risk_avg"; }
  }

  lemma CandidatesDistinct()
    ensures NoDuplicates(Candidates())
  {
    ConstructAverages();
    assert Candidates() == ["peou_avg", "pu_avg", "sa_avg", "si_avg", "att_avg", "risk_avg",
                            "gender_encoded", "age_encoded", "education_encoded"];
  }

  /** All construct terms come first, in prefix order, then the demographic terms, each only if its column exists. */
  lemma KeyTermsOrder(columns: seq<string>)
    ensures KeyTerms(columns) == Present(AverageColumns(ConstructPrefixes), columns) + Present(DemographicColumns, columns)
    ensures SubseqOf(KeyTerms(columns), Candidates())
  {
    FilterConcat(AverageColumns(ConstructPrefixes), DemographicColumns, (n: string) => n in columns);
    FilterSubseq(Candidates(), (n: string) => n in columns);
  }

  /** A name is a term iff it is a candidate and a column of the table; no term appears twice. */
  lemma KeyTermsMembers(columns: seq<string>)
    ensures forall i :: 0 <= i < |KeyTerms(columns)| ==> KeyTerms(columns)[i] in columns && KeyTerms(columns)[i] in Candidates()
    ensures forall i :: 0 <= i < |Candidates()| && Candidates()[i] in columns ==> Candidates()[i] in KeyTerms(columns)
    ensures NoDuplicates(KeyTerms(columns))
  {
    CandidatesDistinct();
    FilterNoDuplicates(Candidates(), (n: string) => n in columns);
  }

  /** With no predictor present the formula is the bare `opi_purchased? ~ `. */
  lemma FormulaWithoutTerms()
    ensures Formula([]) == "opi_purchased? ~ "
  {
  }

  /** No predictor name holds a '+'. */
  lemma CandidatesPlusFree()
    ensures forall k :: 0 <= k < |Candidates()| ==> '+' !in Candidates()[k]
  {
    ConstructAverages();
    assert Candidates() == ["peou_avg", "pu_avg", "sa_avg", "si_avg", "att_avg", "risk_avg",
                            "gender_encoded", "age_encoded", "education_encoded"];
  }

  /** The formula is the outcome, " ~ ", then the terms joined with " + ",
   *  and the terms can be read back from it. */
  lemma FormulaRoundTrip(columns: seq<string>)
    requires |KeyTerms(columns)| > 0
    ensures var f := Formula(KeyTerms(columns));
      StartsWith(f, FormulaHead) && Split(f[|FormulaHead|..], TermSeparator) == KeyTerms(columns)
  {
    var terms := KeyTerms(columns);
    var f := Formula(terms);
    assert f[..|FormulaHead|] == FormulaHead;
    assert f[|FormulaHead|..] == Join(terms, TermSeparator);
    assert forall k :: 0 <= k < |terms| ==> '+' !in terms[k] by {
      CandidatesPlusFree();
      forall k | 0 <= k < |terms| ensures '+' !in terms[k] {
        var c := Candidates();
        assert terms[k] in c;
        var q :| 0 <= q < |c| && c[q] == terms[k];
      }
    }
    SplitJoinPlus(terms);
  }
}
