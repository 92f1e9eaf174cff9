# Online purchase intention EDA: a Dafny model of its decision logic

The repository is a set of Python routines for exploring a survey of online
purchase behaviour during a crisis. The routines classify the survey columns,
build a logistic-regression formula, count multi-label answers and read
correlations. Most of the code draws charts or calls a statistics library. This
project models the parts that make decisions, each in the source's own form:

- **Column classification.** `identify_column_types` drops the `timestamp`
  column. One loop then sorts every remaining column into the numeric, binary or
  categorical list, decided by dtype tag and number of distinct values
  (`constructs.dfy`, an imperative method with loop invariants, proved against
  the function `Classification`).
- **Purchase analysis.** `analyze_purchase_behavior` first checks that the
  purchase column is present, then which of the three panels it may draw. It
  then builds the list of predictors that are present as a loop over construct
  prefixes, followed by the demographic columns. The formula string is built
  from that list, and a failed model fit is caught and turned into a message
  (`platform_analysis.dfy`).
- **Descriptive plots.** `DescriptivePlotter` holds a table and never changes
  it. Its plots check that their columns exist. The count plots select columns
  by prefix, sum them, sort the sums in descending order and clean the labels.
  They then print one label/count line per sum (`descriptive.dfy`, a class with
  a `const` table).
- **Strong correlations.** `correlation_matrix` picks its default columns. It
  masks the heatmap's upper triangle and diagonal. From a given correlation
  matrix it reports the entries with `r < 1.0` and `|r| > 0.5` in descending
  order (`correlation.dfy`).
- **Reading a coefficient.** `bivariate_numeric_numeric` turns a Pearson
  coefficient and its p-value into a strength band, a direction and a
  significance verdict (`bivariate.dfy`).

Shared modules:

- `dataset.dfy` holds the table: an ordered list of column records with a name,
  a dtype tag, a distinct-value count and the integer values.
- `strings.dfy` holds the Python string operations the code uses: `startswith`,
  `replace`, `strip`, `capitalize` and `join`. It also holds `Split`, the
  model's inverse of `join`, which `FormulaRoundTrip` uses to read the terms
  back from the formula.
- `seqs.dfy` holds filtering, order-keeping subsequences and sums.
- `sorting.dfy` holds a descending sort specified only by order and
  permutation.
- `numbers.dfy` holds `abs`.

Statistics computed by libraries are inputs to the model: `nunique`, `corr`,
`pearsonr` and the GLM fit.

Points where the code's behaviour is easy to misread, all followed by the model:

- The dtype test is exact: only a column whose dtype is `int64` or `float64`
  can be binary or numeric, so an `int32` or `bool` column is categorical
  (`KindOf`).
- The strong-pair filter `r < 1.0` removes every entry equal to 1.0, an
  off-diagonal one included, and a diagonal entry goes only because it equals
  1.0 (`StrongCorrelations`, `NoUnitCorrelationReported`).
- `identify_column_types` returns only when column names are distinct: for a
  repeated name `df[col]` is a frame, and reading its `dtype` raises. The
  method requires `DistinctNames`, and the disjointness of the three lists
  rests on it.
- `plot_age_gender_stacked` relabels the grouped age-by-gender table with
  four age labels and three gender labels, and pandas raises unless the table
  has exactly four distinct ages and three distinct genders
  (`LabelLengthMismatch`).

## Model

| member | source | states |
|---|---|---|
| `Dataset.NamesSubseq` | scripts/EDA_src/constructs.py:11-13 | keeping columns in table order keeps their names in the order of `df.columns` |
| `Constructs.KindOf` | scripts/EDA_src/constructs.py:21-28 | binary iff dtype is int64/float64 and at most 2 distinct values; numeric iff int64/float64 and more than 2; categorical iff any other dtype, whatever its distinct count |
| `Constructs.IdentifyColumnTypes` | scripts/EDA_src/constructs.py:6-34 | on a table with distinct names, the only one for which the routine returns, the loop's three lists are those of `Classification`; together (as multisets) they are the table's names less one `timestamp`; each list keeps table order |
| `Constructs.FirstColumnOf` | scripts/EDA_src/constructs.py:12-13 | a present name has a first column position, with no earlier column of that name |
| `Constructs.RemoveFirstSplit` | scripts/EDA_src/constructs.py:13 | `remove` cuts out exactly the first column of that name |
| `Constructs.RemoveFirstAt` | scripts/EDA_src/constructs.py:12-13 | the removed column is the first one named `timestamp`; the rest keep their order |
| `Constructs.RemoveFirstNames` | scripts/EDA_src/constructs.py:12-13 | removal takes exactly one occurrence of the name out of the names |
| `Constructs.DataColumnsSpec` | scripts/EDA_src/constructs.py:11-13 | the visited columns are the table's less one `timestamp` (multiset of names), in table order, all from the table |
| `Constructs.DroppedAt` | scripts/EDA_src/constructs.py:13 | a column left after the removal sits in the table at a position other than the removed one |
| `Constructs.KeptAt` | scripts/EDA_src/constructs.py:13 | a column at any other position survives the removal |
| `Constructs.DataColumnsMembers` | scripts/EDA_src/constructs.py:11-13 | with distinct names, a column is visited iff it is in the table and not named `timestamp` |
| `Constructs.NamesOfKindMembers` | scripts/EDA_src/constructs.py:20-28 | a name is in a kind's list iff some visited column of that name has that kind |
| `Constructs.NamesOfKindPartition` | scripts/EDA_src/constructs.py:20-28 | every visited name lands in exactly one list, as often as it occurs |
| `Constructs.NamesOfKindSubseq` | scripts/EDA_src/constructs.py:20-28 | each list is an order-keeping subsequence of the visited names |
| `Constructs.ClassificationPartitions` | scripts/EDA_src/constructs.py:11-34 | the three lists hold exactly the table's names less one `timestamp`, with multiplicities |
| `Constructs.ClassificationKeepsOrder` | scripts/EDA_src/constructs.py:20-28 | each returned list keeps the table's column order |
| `Constructs.ClassifiedIff` | scripts/EDA_src/constructs.py:11-28 | with distinct names, a name is in kind k's list iff it is not `timestamp` and its column has kind k |
| `Constructs.BinaryIff` | scripts/EDA_src/constructs.py:22-24 | binary iff not `timestamp`, dtype int64/float64 and at most 2 distinct values |
| `Constructs.NumericIff` | scripts/EDA_src/constructs.py:22-26 | numeric iff not `timestamp`, dtype int64/float64 and more than 2 distinct values |
| `Constructs.CategoricalIff` | scripts/EDA_src/constructs.py:22-28 | categorical iff not `timestamp` and any other dtype |
| `Constructs.TimestampExcluded` | scripts/EDA_src/constructs.py:11-13 | `timestamp` is in none of the three lists |
| `Constructs.ClassificationDisjoint` | scripts/EDA_src/constructs.py:20-28 | no name is in two lists |
| `Constructs.NothingToClassify` | scripts/EDA_src/constructs.py:11-34 | no columns, or only `timestamp`, gives three empty lists |
| `PlatformAnalysis.KeyVariables` | scripts/EDA_src/platform_analysis.py:66-74 | the append loop then the extend produce exactly `KeyTerms`: the candidates present in the table, in candidate order |
| `PlatformAnalysis.AnalyzePurchaseBehavior` | scripts/EDA_src/platform_analysis.py:13-83 | nothing is analysed iff `opi_purchased?` is absent; each panel is drawn iff its column exists; the formula is built over the present predictors; the fit's summary, or `Could not build logistic regression model: ` plus the exception |
| `PlatformAnalysis.ConstructAverages` | scripts/EDA_src/platform_analysis.py:67-68 | the construct terms are `peou_avg, pu_avg, sa_avg, si_avg, att_avg, risk_avg`, in that order |
| `PlatformAnalysis.CandidatesDistinct` | scripts/EDA_src/platform_analysis.py:67-73 | the nine candidate predictors are pairwise distinct |
| `PlatformAnalysis.KeyTermsOrder` | scripts/EDA_src/platform_analysis.py:66-74 | the present construct terms come first, then the present demographic terms; the whole keeps candidate order |
| `PlatformAnalysis.KeyTermsMembers` | scripts/EDA_src/platform_analysis.py:66-74 | a name is a term iff it is a candidate and a column; no term repeats |
| `PlatformAnalysis.FormulaWithoutTerms` | scripts/EDA_src/platform_analysis.py:77 | with no predictor present the formula is `opi_purchased? ~ ` |
| `PlatformAnalysis.CandidatesPlusFree` | scripts/EDA_src/platform_analysis.py:67-73 | no candidate name contains `+` |
| `PlatformAnalysis.FormulaRoundTrip` | scripts/EDA_src/platform_analysis.py:77 | the formula starts with `opi_purchased? ~ `, and splitting the rest at ` + ` gives back the term list |
| `Strings.SplitJoinPlus` | scripts/EDA_src/platform_analysis.py:77 | splitting a ` + `-join of `+`-free parts at ` + ` returns the parts |
| `Descriptive.IndicatorTotals` | notebooks/_Descriptive_Analysis/scripts.py:82 | for 0/1 indicator columns each total counts the rows marked 1 and is at most the row count |
| `Descriptive.ZipLines` | notebooks/_Descriptive_Analysis/scripts.py:103-104 | one printed line per (label, count) pair, as many as the shorter list |
| `Descriptive.DescriptivePlotter.constructor` | notebooks/_Descriptive_Analysis/scripts.py:5-6 | the plotter holds the table it was given |
| `Descriptive.DescriptivePlotter.PlotGenderDistribution` | notebooks/_Descriptive_Analysis/scripts.py:8-11 | drawn iff `gender_encoded` exists; the error message iff it does not |
| `Descriptive.DescriptivePlotter.PlotAgeDistribution` | notebooks/_Descriptive_Analysis/scripts.py:31-34 | drawn iff `age_encoded` exists; the error message iff it does not |
| `Descriptive.DescriptivePlotter.PlotAgeGenderStacked` | notebooks/_Descriptive_Analysis/scripts.py:54-65 | `Error: Required columns not found.` iff a column is missing; otherwise drawn iff the table has exactly 4 distinct ages and 3 distinct genders, and the relabelling raises a length mismatch if not |
| `Descriptive.DescriptivePlotter.PlotOccupationDistribution` | notebooks/_Descriptive_Analysis/scripts.py:76-104 | no report iff no column has the prefix (with the message); otherwise the header, the selected columns' totals as a permutation in non-increasing order, and one line per total with its cleaned label |
| `Descriptive.DescriptivePlotter.PlotMultilabelPlatform` | notebooks/_Descriptive_Analysis/scripts.py:106-137 | as the occupation plot, with the title in the header and `clean_name` labels |
| `Descriptive.SelectPrefixSpec` | notebooks/_Descriptive_Analysis/scripts.py:77 | a column is selected iff its name starts with the prefix; the selection keeps table order |
| `Descriptive.SortedTotalsSpec` | notebooks/_Descriptive_Analysis/scripts.py:82 | the sorted totals are a permutation of the column totals in non-increasing order of count |
| `Descriptive.TotalsPairNamesWithSums` | notebooks/_Descriptive_Analysis/scripts.py:82 | after sorting, every total still pairs a selected column's name with that column's own sum |
| `Descriptive.PlatformLabelOfBarePrefix` | notebooks/_Descriptive_Analysis/scripts.py:116-117 | a column whose stripped name is the prefix is labelled `Not Mentioned` |
| `Descriptive.CleanLabelShape` | notebooks/_Descriptive_Analysis/scripts.py:86 | a cleaned label has no `_`, no lower-case first letter and no upper-case letter after it |
| `Descriptive.PlatformLabelNoUnderscore` | notebooks/_Descriptive_Analysis/scripts.py:116-117 | no platform label contains `_` |
| `Descriptive.CleanLabelOfPrefixed` | notebooks/_Descriptive_Analysis/scripts.py:86 | for a prefixed name whose rest does not hold the prefix, the label is the capitalized rest with `_` turned into spaces |
| `Descriptive.PlatformLabelExample` | notebooks/_Descriptive_Analysis/scripts.py:116-117 | with prefix `gecp_`, the column `gecp_amazon` is labelled `Amazon` |
| `Strings.RemoveAllAbsent` | notebooks/_Descriptive_Analysis/scripts.py:86 | `replace(prefix, '')` leaves a string without the prefix unchanged |
| `Strings.RemoveAllLeading` | notebooks/_Descriptive_Analysis/scripts.py:86 | a leading prefix is the first occurrence removed |
| `Strings.RemoveAllChars` | notebooks/_Descriptive_Analysis/scripts.py:86 | removing text never introduces a character |
| `Strings.ReplaceChar` | notebooks/_Descriptive_Analysis/scripts.py:86 | `replace('_', ' ')` keeps the length, turns every `_` into a space, leaves no `_` and changes nothing else |
| `Strings.Capitalize` | notebooks/_Descriptive_Analysis/scripts.py:86 | the first character in upper case, every later one in lower case, same length |
| `Strings.CapitalizeIdempotent` | notebooks/_Descriptive_Analysis/scripts.py:86 | capitalizing twice is capitalizing once |
| `Strings.CapitalizeKeepsNonLetters` | notebooks/_Descriptive_Analysis/scripts.py:86 | a non-letter occurs in the result iff it occurs in the input |
| `Strings.StripStart` | notebooks/_Descriptive_Analysis/scripts.py:117 | leading strip gives a suffix that does not start with white space |
| `Strings.StripEnd` | notebooks/_Descriptive_Analysis/scripts.py:117 | trailing strip gives a prefix that does not end with white space |
| `Strings.StripStartRemovesSpace` | notebooks/_Descriptive_Analysis/scripts.py:117 | leading strip removes only white space |
| `Strings.StripEndRemovesSpace` | notebooks/_Descriptive_Analysis/scripts.py:117 | trailing strip removes only white space |
| `Strings.StripIdempotent` | notebooks/_Descriptive_Analysis/scripts.py:117 | a stripped name neither starts nor ends with white space; stripping again changes nothing |
| `Seqs.Filter` | notebooks/_Descriptive_Analysis/scripts.py:107 | a comprehension keeps only accepted elements, and every accepted element |
| `Seqs.FilterSubseq` | notebooks/_Descriptive_Analysis/scripts.py:107 | a comprehension keeps the input order |
| `Seqs.FilterMultiset` | scripts/EDA_src/multivariate.py:34-35 | a boolean-mask filter keeps each accepted element as often as it occurs, and no other |
| `Sorting.SortDesc` | scripts/EDA_src/multivariate.py:38 | `sort_values(ascending=False)`: a permutation with non-increasing keys |
| `Sorting.SortDescKeepsElements` | notebooks/_Descriptive_Analysis/scripts.py:112 | sorting keeps the length and the elements |
| `Correlation.DefaultColumnsAreNumeric` | scripts/EDA_src/multivariate.py:14-17 | with no list given, the columns used are exactly the int64/float64 ones, in table order |
| `Correlation.MaskHidesUpperTriangle` | scripts/EDA_src/multivariate.py:22 | the mask is n by n and hides cell (i, j) iff j >= i |
| `Correlation.MaskShowsEachPairOnce` | scripts/EDA_src/multivariate.py:22 | of the two cells of an off-diagonal pair exactly one is shown; the diagonal is hidden |
| `Correlation.UnstackLength` | scripts/EDA_src/multivariate.py:33 | `unstack()` yields n*n entries |
| `Correlation.UnstackLayout` | scripts/EDA_src/multivariate.py:33 | the entry at position j*n + i is (column j, row i, r[i][j]), column by column |
| `Correlation.UnstackCells` | scripts/EDA_src/multivariate.py:33 | every unstacked entry is a cell of the matrix, and every cell is an entry |
| `Correlation.StrongCorrelations` | scripts/EDA_src/multivariate.py:33-42 | either the no-strong-correlations message, or a non-empty list sorted by descending r |
| `Correlation.StrongEntriesCount` | scripts/EDA_src/multivariate.py:34-35 | an entry survives both filters as often as it occurs if r < 1.0 and abs(r) > 0.5, never otherwise |
| `Correlation.StrongPairsExact` | scripts/EDA_src/multivariate.py:33-40 | the reported pairs are exactly the qualifying entries of the unstacked matrix, with their multiplicities |
| `Correlation.NoneReportedNoneQualifies` | scripts/EDA_src/multivariate.py:37 | an empty filter result means no cell qualifies |
| `Correlation.ReportedQualifyingCell` | scripts/EDA_src/multivariate.py:37 | a non-empty filter result holds a qualifying cell |
| `Correlation.NoStrongIff` | scripts/EDA_src/multivariate.py:37-42 | the message is printed iff no cell has r < 1.0 and abs(r) > 0.5 |
| `Correlation.StrongPairsQualify` | scripts/EDA_src/multivariate.py:33-35 | each reported entry is a cell with r < 1.0 and abs(r) > 0.5 |
| `Correlation.StrongPairsComplete` | scripts/EDA_src/multivariate.py:33-35 | each such cell is reported |
| `Correlation.NoUnitCorrelationReported` | scripts/EDA_src/multivariate.py:34 | no reported r is 1.0 or more, so with a unit diagonal no self-correlation is reported |
| `Correlation.SymmetricPairBothOrders` | scripts/EDA_src/multivariate.py:33-35 | in a symmetric matrix a strong pair is reported as (a, b) and as (b, a), with the same r |
| `Correlation.StrongPairsSorted` | scripts/EDA_src/multivariate.py:38 | the reported pairs are in non-increasing order of r |
| `Correlation.SingleVariableNoStrong` | scripts/EDA_src/multivariate.py:34-42 | a matrix of at most one variable with a unit diagonal prints the no-strong message |
| `Numbers.Abs` | scripts/EDA_src/bivariate.py:60 | `abs(r)` is non-negative and is r or -r |
| `Bivariate.StrengthOf` | scripts/EDA_src/bivariate.py:60-67 | strong iff abs(r) > 0.7; moderate iff 0.4 < abs(r) <= 0.7; weak iff 0.1 < abs(r) <= 0.4; very weak or no iff abs(r) <= 0.1 |
| `Bivariate.DirectionOf` | scripts/EDA_src/bivariate.py:69 | positive iff r > 0, negative iff r <= 0 |
| `Bivariate.SignificanceOf` | scripts/EDA_src/bivariate.py:70 | significant iff p < 0.05, not significant iff p >= 0.05 |
| `Bivariate.StrengthMonotone` | scripts/EDA_src/bivariate.py:60-67 | a larger abs(r) is never in a weaker band |
| `Bivariate.StrengthSymmetric` | scripts/EDA_src/bivariate.py:60-69 | r and -r share a band; for r != 0 they have opposite directions |
| `Bivariate.StrengthBoundaries` | scripts/EDA_src/bivariate.py:60-67 | a boundary value belongs to the weaker band (0.7 moderate, 0.4 weak, 0.1 very weak or no); ±1.0 is strong |
| `Bivariate.EdgeVerdicts` | scripts/EDA_src/bivariate.py:69-70 | r = 0 reads as negative, and p = 0.05 as not significant |

## Left out

- Chart drawing is not modelled. That covers figures, subplots, bars, heatmaps, text annotations, tick labels and `plt.show`. The plots' outcome is `Plotted`, or which panels would be drawn.
- Library statistics are inputs or not modelled at all:
  - `nunique()` is the `distinct` field of a column;
  - `df.corr()` is the given `CorrMatrix`;
  - `stats.pearsonr` supplies the coefficient and p-value that `Interpret` takes;
  - the GLM fit is the parameter `fit` of `AnalyzePurchaseBehavior`;
  - `groupby`, `value_counts` and `spearmanr` are not modelled.
- `stats.pearsonr` on separately `dropna`'d series (scripts/EDA_src/bivariate.py:37-38) is not modelled. It needs the library's numerics.
- Coefficients and p-values are exact reals, so there is no NaN: a constant column's NaN correlations, which both filters of scripts/EDA_src/multivariate.py:34-35 drop, and a NaN `r` or `p` at scripts/EDA_src/bivariate.py:60-70, which reads as very weak or no, negative and not significant, are not modelled.
- Floating-point outputs are not modelled: the purchase rate `mean()*100` (scripts/EDA_src/platform_analysis.py:25-26) and the percentages `count/total*100` rounded to two places (notebooks/_Descriptive_Analysis/scripts.py:83-84, 113-114). The printed lines carry the label and count but no percentage. The coefficient and p-value formatting (`.3f`, `.4f`) is also out.
- `Descriptive.ZipLines`: the percentage column of the three-way `zip` is absent, so the line count is the shorter of labels and counts.
- The printed banners and headings of `analyze_purchase_behavior` (lines 17-19, 61), the relationship heading of `bivariate_numeric_numeric` (line 59) and the `Strong correlations (|r| > 0.5):` header of `correlation_matrix` (scripts/EDA_src/multivariate.py:39) are not modelled. They do not depend on the data. What `print(strong_corr)` (line 40) shows is modelled as the `entries` list of `StrongPairs`, not as printed text.
- `Bivariate.Sentence` renders the final sentence of line 72 from the labels. It has no contract of its own: it is exactly the source's format string.
- `warnings.filterwarnings('ignore')` (scripts/EDA_src/platform_analysis.py:9) is not modelled. It is global process state.
- Column values are integers. That suits the 0/1 indicator columns that are summed. Missing values (NaN) are not represented, so `sum()` skipping NaN is not modelled.
- `Strings.Capitalize` changes case for ASCII letters only. Python's Unicode case mapping is not modelled.
- The order among equal counts or equal coefficients after a sort is unspecified in the source. The model's sort has its own tie order, and every contract speaks only of non-increasing order and permutation.
- The error `identify_column_types` raises on repeated column names is not modelled as an outcome: `Constructs.IdentifyColumnTypes` requires `DistinctNames`, as do `Constructs.ClassifiedIff`, `Constructs.TimestampExcluded` and `Constructs.ClassificationDisjoint`. The function `Classification` and the lemma `ClassificationPartitions` are also stated for tables with repeated names, on which the source raises.
- The length-mismatch error of `plot_age_gender_stacked` carries no message in the model: `LabelLengthMismatch` stands for the exception pandas raises.
- scripts/EDA_src/univariate.py is not part of this model. It is library descriptive statistics and plotting.
- scripts/EDA_src/__init__.py only re-exports names. The functions it imports from files not shown here are not part of this model, for example `create_aggregate_features`, `pca_analysis` and `cluster_analysis`.
