/** The static template catalog of `generate_questions_v2.py`
    (`generate_question_templates`) and the placeholders its question
    synthesizer supplies to `str.format` for each kind of template. */
module CatalogV2 {
  import opened Wrappers
  import opened Text
  import opened Capabilities
  import opened Templates

  /** `generate_question_templates()`, in catalog order. */
  function Catalog(): seq<Template> {
    [
      FilterShowAll(),
      FilterShowAllSimple(),
      FilterCount(),
      FilterNumericGreater(),
      SortHighest(),
      SortLowest(),
      SortTop5(),
      ValueCountsPercentage(),
      ValueCountsBasic(),
      ValueCountsMostCommon(),
      MeanSimple(),
      SumSimple(),
      CountMultipleValues(),
      GroupbyCount(),
      GroupbyMean(),
      GroupbySumSorted()
    ]
  }

  function FilterShowAll(): Template {
    Template("filter_show_all", [Flag(CanFilter)], None,
      [Lit("Show all "), Entity, Lit("s where "), Col, Lit(" is \""), Val, Lit("\"")],
      [Lit("df[df['"), Col, Lit("'] == '"), Val, Lit("']")],
      1, OneValue, false, ["filtering"])
  }

  function FilterShowAllSimple(): Template {
    Template("filter_show_all_simple", [Flag(CanFilter)], None,
      [Lit("Show all "), Val, Lit(" "), Entity, Lit("s")],
      [Lit("df[df['"), Col, Lit("'] == '"), Val, Lit("']")],
      1, OneValue, true, ["filtering"])
  }

  function FilterCount(): Template {
    Template("filter_count", [Flag(CanFilter)], None,
      [Lit("How many "), Entity, Lit("s have "), Col, Lit(" equal to \""), Val, Lit("\"?")],
      [Lit("(df['"), Col, Lit("'] == '"), Val, Lit("').sum()")],
      1, OneValue, false, ["boolean indexing", "sum"])
  }

  function FilterNumericGreater(): Template {
    Template("filter_numeric_greater", [Flag(IsNumeric)], None,
      [Lit("How many "), Entity, Lit("s have "), Col, Lit(" greater than "), Val, Lit("?")],
      [Lit("(df['"), Col, Lit("'] > "), Val, Lit(").sum()")],
      1, NumericThreshold, false, ["boolean indexing", "sum"])
  }

  function SortHighest(): Template {
    Template("sort_highest", [Flag(CanSort)], None,
      [Lit("Which "), Entity, Lit(" has the highest "), Col, Lit("?")],
      [Lit("df.sort_values('"), Col, Lit("', ascending=False).head(1)")],
      1, NoLiteral, false, ["sort_values", "head"])
  }

  function SortLowest(): Template {
    Template("sort_lowest", [Flag(CanSort)], None,
      [Lit("What is the "), Entity, Lit(" with the lowest "), Col, Lit("?")],
      [Lit("df.sort_values('"), Col, Lit("').head(1)")],
      1, NoLiteral, false, ["sort_values", "head"])
  }

  function SortTop5(): Template {
    Template("sort_top_5", [Flag(CanSort)], None,
      [Lit("Show the 5 "), Entity, Lit("s with the highest "), Col],
      [Lit("df.sort_values('"), Col, Lit("', ascending=False).head(5)")],
      1, NoLiteral, false, ["sort_values", "head"])
  }

  function ValueCountsPercentage(): Template {
    Template("value_counts_percentage", [Flag(CanValueCount)], None,
      [Lit("What percentage of "), Entity, Lit("s are in each "), Col, Lit(" category?")],
      [Lit("df['"), Col, Lit("'].value_counts(normalize=True)")],
      1, NoLiteral, false, ["value_counts", "normalize"])
  }

  function ValueCountsBasic(): Template {
    Template("value_counts_basic", [Flag(CanValueCount)], None,
      [Lit("How many "), Entity, Lit("s are there for each "), Col, Lit("?")],
      [Lit("df['"), Col, Lit("'].value_counts()")],
      1, NoLiteral, false, ["value_counts"])
  }

  function ValueCountsMostCommon(): Template {
    Template("value_counts_most_common", [Flag(CanValueCount)], None,
      [Lit("What is the most common "), Col, Lit("?")],
      [Lit("df['"), Col, Lit("'].value_counts().head(1)")],
      1, NoLiteral, false, ["value_counts", "head"])
  }

  function MeanSimple(): Template {
    Template("mean_simple", [Flag(CanMean)], None,
      [Lit("What is the average "), Col, Lit("?")],
      [Lit("df['"), Col, Lit("'].mean()")],
      1, NoLiteral, false, ["mean"])
  }

  function SumSimple(): Template {
    Template("sum_simple", [Flag(CanSum)], None,
      [Lit("What is the total "), Col, Lit(" across all "), Entity, Lit("s?")],
      [Lit("df['"), Col, Lit("'].sum()")],
      1, NoLiteral, false, ["sum"])
  }

  function CountMultipleValues(): Template {
    Template("count_multiple_values", [Flag(CanFilter)], None,
      [Lit("How many "), Entity, Lit("s are either "), Val1, Lit(" or "), Val2, Lit("?")],
      [Lit("df['"), Col, Lit("'].isin(['"), Val1, Lit("', '"), Val2, Lit("']).sum()")],
      2, TwoValues, false, ["isin", "sum"])
  }

  function GroupbyCount(): Template {
    Template("groupby_count", [Flag(CanGroupBy)], None,
      [Lit("How many "), Entity, Lit("s does each "), Col, Lit(" have?")],
      [Lit("df.groupby('"), Col, Lit("').size()")],
      2, NoLiteral, false, ["groupby", "size"])
  }

  function GroupbyMean(): Template {
    Template("groupby_mean", [Flag(CanGroupBy)], Some([Flag(CanMean)]),
      [Lit("What is the average "), OtherCol, Lit(" by "), Col, Lit("?")],
      [Lit("df.groupby('"), Col, Lit("')['"), OtherCol, Lit("'].mean()")],
      2, NoLiteral, false, ["groupby", "mean"])
  }

  function GroupbySumSorted(): Template {
    Template("groupby_sum_sorted", [Flag(CanGroupBy)], Some([Flag(CanSum)]),
      [Lit("What is the total "), OtherCol, Lit(" by "), Col, Lit("?")],
      [Lit("df.groupby('"), Col, Lit("')['"), OtherCol, Lit("'].sum().sort_values(ascending=False)")],
      2, NoLiteral, false, ["groupby", "sum", "sort_values"])
  }

  /** The keyword arguments the synthesizer passes to `template.format`. */
  function QuestionKeys(t: Template): set<Hole> {
    if t.requiredOther.Some? then {EntityHole, ColumnHole, OtherColumnHole}
    else match t.literal
      case OneValue => if t.valueInQuestion then {EntityHole, ValueHole} else {EntityHole, ColumnHole, ValueHole}
      case NumericThreshold => {EntityHole, ColumnHole, ValueHole}
      case TwoValues => {EntityHole, ColumnHole, Value1Hole, Value2Hole}
      case _ => {EntityHole, ColumnHole}
  }

  /** The keyword arguments the synthesizer passes to `code_template.format`. */
  function CodeKeys(t: Template): set<Hole> {
    if t.requiredOther.Some? then {ColumnHole, OtherColumnHole}
    else match t.literal
      case OneValue => {ColumnHole, ValueHole}
      case NumericThreshold => {ColumnHole, ValueHole}
      case TwoValues => {ColumnHole, Value1Hole, Value2Hole}
      case _ => {ColumnHole}
  }

  /** The code pattern uses the column and every other argument it is given. */
  predicate CodeUsesArgs(t: Template) {
    && Col in t.code
    && (t.requiredOther.Some? ==> OtherCol in t.code)
    && (t.requiredOther.None? && (t.literal == OneValue || t.literal == NumericThreshold) ==> Val in t.code)
    && (t.requiredOther.None? && t.literal == TwoValues ==> Val1 in t.code && Val2 in t.code)
  }

  /** What the synthesizer relies on: both patterns of every template can be
      formatted with the arguments it supplies (no `KeyError`), the code uses
      what it is given, and every template names at least one concept (the
      hint uses the first). */
  predicate Usable(t: Template) {
    && Fillable(t.question, QuestionKeys(t))
    && Fillable(t.code, CodeKeys(t))
    && CodeUsesArgs(t)
    && |t.concepts| > 0
  }

  predicate UsableCatalog(ts: seq<Template>) {
    forall i :: 0 <= i < |ts| ==> Usable(ts[i])
  }

  lemma UsableFirstQuarter()
    ensures forall i :: 0 <= i < 4 ==> Usable(Catalog()[i])
  {
  }

  lemma UsableSecondQuarter()
    ensures forall i :: 4 <= i < 8 ==> Usable(Catalog()[i])
  {
  }

  lemma UsableThirdQuarter()
    ensures forall i :: 8 <= i < 12 ==> Usable(Catalog()[i])
  {
  }

  lemma UsableLastQuarter()
    ensures forall i :: 12 <= i < 16 ==> Usable(Catalog()[i])
  {
  }

  /** Every template of the catalog can be formatted with the arguments the
      synthesizer supplies and names at least one concept. */
  lemma CatalogUsable()
    ensures UsableCatalog(Catalog())
  {
    UsableFirstQuarter();
    UsableSecondQuarter();
    UsableThirdQuarter();
    UsableLastQuarter();
  }

  /** The catalog's template ids, in order. */
  const CatalogIds: seq<string> := [
    "filter_show_all", "filter_show_all_simple", "filter_count", "filter_numeric_greater",
    "sort_highest", "sort_lowest", "sort_top_5", "value_counts_percentage",
    "value_counts_basic", "value_counts_most_common", "mean_simple", "sum_simple",
    "count_multiple_values", "groupby_count", "groupby_mean", "groupby_sum_sorted"]

  lemma CatalogIdsDistinct()
    ensures NoDup(CatalogIds)
  {
  }

  lemma CatalogIdsInOrder()
    ensures Ids(Catalog()) == CatalogIds
  {
  }

  /** Template ids are unique within the catalog and every difficulty is 1 or 2. */
  lemma CatalogWellFormed()
    ensures |Catalog()| == 16
    ensures IdsDistinct(Catalog())
    ensures forall i :: 0 <= i < |Catalog()| ==> Catalog()[i].difficulty in {1, 2}
  {
    CatalogIdsInOrder();
    CatalogIdsDistinct();
    IdsNoDup(Catalog());
  }
}
