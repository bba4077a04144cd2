/** The static template catalog of `generate_question_bank.py`
    (`generate_question_templates`) and the placeholders its generator
    supplies to `str.format` for each kind of template. */
module CatalogBank {
  import opened Wrappers
  import opened Text
  import opened Capabilities
  import opened Templates

  /** `generate_question_templates()`, in catalog order. */
  function BankCatalog(): seq<Template> {
    [
      ValueCountsBasic(),
      ValueCountsTop(),
      UniqueCountTemplate(),
      MeanSimple(),
      SumSimple(),
      MaxValue(),
      Nlargest(),
      GroupbyCount(),
      GroupbyMean(),
      GroupbySum(),
      GroupbyMaxCategory(),
      FilterEquals(),
      FilterGreater(),
      StringContains()
    ]
  }

  function ValueCountsBasic(): Template {
    Template("value_counts_basic", [Flag(CanValueCount)], None,
      [Lit("How many "), Entity, Lit("s are there for each "), Col, Lit("?")],
      [Lit("df['"), Col, Lit("'].value_counts()")],
      1, NoLiteral, false, [])
  }

  function ValueCountsTop(): Template {
    Template("value_counts_top", [Flag(CanValueCount)], None,
      [Lit("What are the top 5 most common "), Col, Lit("s?")],
      [Lit("df['"), Col, Lit("'].value_counts().head(5)")],
      1, NoLiteral, false, [])
  }

  function UniqueCountTemplate(): Template {
    Template("unique_count", [Flag(IsCategorical)], None,
      [Lit("How many unique "), Col, Lit("s are there?")],
      [Lit("df['"), Col, Lit("'].nunique()")],
      1, NoLiteral, false, [])
  }

  function MeanSimple(): Template {
    Template("mean_simple", [Flag(CanMean)], None,
      [Lit("What is the average "), Col, Lit("?")],
      [Lit("df['"), Col, Lit("'].mean()")],
      1, NoLiteral, false, [])
  }

  function SumSimple(): Template {
    Template("sum_simple", [Flag(CanSum)], None,
      [Lit("What is the total "), Col, Lit(" across all "), Entity, Lit("s?")],
      [Lit("df['"), Col, Lit("'].sum()")],
      1, NoLiteral, false, [])
  }

  function MaxValue(): Template {
    Template("max_value", [Flag(CanRank)], None,
      [Lit("What is the maximum "), Col, Lit("?")],
      [Lit("df['"), Col, Lit("'].max()")],
      1, NoLiteral, false, [])
  }

  function Nlargest(): Template {
    Template("nlargest", [Flag(CanRank)], None,
      [Lit("Find the top 5 "), Entity, Lit("s by "), Col],
      [Lit("df.nlargest(5, '"), Col, Lit("')")],
      1, NoLiteral, false, [])
  }

  function GroupbyCount(): Template {
    Template("groupby_count", [Flag(CanGroupBy)], Some([AnyColumn]),
      [Lit("How many "), Entity, Lit("s does each "), Col, Lit(" have?")],
      [Lit("df.groupby('"), Col, Lit("').size()")],
      2, NoLiteral, false, [])
  }

  function GroupbyMean(): Template {
    Template("groupby_mean", [Flag(CanGroupBy)], Some([Flag(CanMean)]),
      [Lit("What is the average "), OtherCol, Lit(" for each "), Col, Lit("?")],
      [Lit("df.groupby('"), Col, Lit("')['"), OtherCol, Lit("'].mean()")],
      2, NoLiteral, false, [])
  }

  function GroupbySum(): Template {
    Template("groupby_sum", [Flag(CanGroupBy)], Some([Flag(CanSum)]),
      [Lit("What is the total "), OtherCol, Lit(" for each "), Col, Lit("?")],
      [Lit("df.groupby('"), Col, Lit("')['"), OtherCol, Lit("'].sum()")],
      2, NoLiteral, false, [])
  }

  function GroupbyMaxCategory(): Template {
    Template("groupby_max_category", [Flag(CanGroupBy)], Some([Flag(CanSum)]),
      [Lit("Which "), Col, Lit(" has the highest total "), OtherCol, Lit("?")],
      [Lit("df.groupby('"), Col, Lit("')['"), OtherCol, Lit("'].sum().idxmax()")],
      2, NoLiteral, false, [])
  }

  function FilterEquals(): Template {
    Template("filter_equals", [Flag(IsCategorical)], None,
      [Lit("How many "), Entity, Lit("s have "), Col, Lit(" equal to \""), Val, Lit("\"?")],
      FilterEqualsCode(),
      1, OneValue, false, [])
  }

  /** `"len(df[df['{column}'] == '{value}'])"`: the template already puts
      the value between quotes. */
  function FilterEqualsCode(): Pattern {
    [Lit("len(df[df['"), Col, Lit("'] == '"), Val, Lit("'])")]
  }

  function FilterGreater(): Template {
    Template("filter_greater", [Flag(IsNumeric)], None,
      [Lit("How many "), Entity, Lit("s have "), Col, Lit(" greater than "), Val, Lit("?")],
      [Lit("len(df[df['"), Col, Lit("'] > "), Val, Lit("])")],
      1, OneValue, false, [])
  }

  function StringContains(): Template {
    Template("string_contains", [Flag(IsCategorical)], None,
      [Lit("Find all "), Entity, Lit("s where "), Col, Lit(" contains \""), Sub, Lit("\"")],
      [Lit("df[df['"), Col, Lit("'].str.contains('"), Sub, Lit("', na=False)]")],
      2, SubstringOfSample, false, [])
  }

  /** The keyword arguments the generator passes to `template.format`. */
  function BankQuestionKeys(t: Template): set<Hole> {
    if t.requiredOther.Some? then {EntityHole, ColumnHole, OtherColumnHole}
    else match t.literal
      case OneValue => {EntityHole, ColumnHole, ValueHole}
      case SubstringOfSample => {EntityHole, ColumnHole, SubstringHole}
      case _ => {EntityHole, ColumnHole}
  }

  /** The keyword arguments the generator passes to `code_template.format`. */
  function BankCodeKeys(t: Template): set<Hole> {
    if t.requiredOther.Some? then {ColumnHole, OtherColumnHole}
    else match t.literal
      case OneValue => {ColumnHole, ValueHole}
      case SubstringOfSample => {ColumnHole, SubstringHole}
      case _ => {ColumnHole}
  }

  /** What the generator relies on: both patterns can be formatted with the
      arguments it supplies (no `KeyError`), the code names the column and
      the bound literal, and the literal kinds are the two this generator
      handles. */
  predicate BankUsable(t: Template) {
    && Fillable(t.question, BankQuestionKeys(t))
    && Fillable(t.code, BankCodeKeys(t))
    && Col in t.code
    && (t.requiredOther.Some? ==> t.literal == NoLiteral)
    && (t.literal == NoLiteral || t.literal == OneValue || t.literal == SubstringOfSample)
    && (t.literal == OneValue ==> Val in t.question && Val in t.code)
    && (t.literal == SubstringOfSample ==> Sub in t.question && Sub in t.code)
  }

  predicate BankUsableCatalog(ts: seq<Template>) {
    forall i :: 0 <= i < |ts| ==> BankUsable(ts[i])
  }

  lemma BankUsableSingle()
    ensures forall i :: 0 <= i < 7 ==> BankUsable(BankCatalog()[i])
  {
  }

  lemma BankUsableGrouped()
    ensures forall i :: 7 <= i < 11 ==> BankUsable(BankCatalog()[i])
  {
  }

  lemma BankUsableLiteral()
    ensures forall i :: 11 <= i < 14 ==> BankUsable(BankCatalog()[i])
  {
  }

  /** Every template of the catalog can be formatted with the arguments the
      generator supplies. */
  lemma BankCatalogUsable()
    ensures BankUsableCatalog(BankCatalog())
  {
    BankUsableSingle();
    BankUsableGrouped();
    BankUsableLiteral();
  }

  /** The bank catalog's template ids, in order. */
  const BankCatalogIds: seq<string> := [
    "value_counts_basic", "value_counts_top", "unique_count", "mean_simple", "sum_simple",
    "max_value", "nlargest", "groupby_count", "groupby_mean", "groupby_sum",
    "groupby_max_category", "filter_equals", "filter_greater", "string_contains"]

  lemma BankCatalogIdsDistinct()
    ensures NoDup(BankCatalogIds)
  {
  }

  lemma BankCatalogIdsInOrder()
    ensures Ids(BankCatalog()) == BankCatalogIds
  {
  }

  /** Template ids are unique within the catalog and every difficulty is 1 or 2. */
  lemma BankCatalogWellFormed()
    ensures |BankCatalog()| == 14
    ensures IdsDistinct(BankCatalog())
    ensures forall i :: 0 <= i < |BankCatalog()| ==> BankCatalog()[i].difficulty in {1, 2}
  {
    BankCatalogIdsInOrder();
    BankCatalogIdsDistinct();
    IdsNoDup(BankCatalog());
  }

  /** A catalog whose `groupby_count` asks its other column for `'any'`. */
  predicate GroupbyCountAsksAny(ts: seq<Template>) {
    forall i :: 0 <= i < |ts| && ts[i].id == "groupby_count" ==> ts[i].requiredOther == Some([AnyColumn])
  }

  /** A catalog whose averaging and summing templates ask for `can_mean` / `can_sum`. */
  predicate AggregatesNeedFlags(ts: seq<Template>) {
    && (forall i :: 0 <= i < |ts| && ts[i].id == "mean_simple" ==> Flag(CanMean) in ts[i].required)
    && (forall i :: 0 <= i < |ts| && ts[i].id == "sum_simple" ==> Flag(CanSum) in ts[i].required)
  }

  /** The one template whose `requires_other` is `['any']` is `groupby_count`. */
  lemma BankGroupbyCountAny()
    ensures forall i :: 0 <= i < |BankCatalog()| ==>
      (BankCatalog()[i].requiredOther == Some([AnyColumn]) <==> BankCatalog()[i].id == "groupby_count")
    ensures GroupbyCountAsksAny(BankCatalog())
  {
  }

  /** Summing and averaging templates ask for `can_sum` / `can_mean` of their column. */
  lemma BankAggregatesNeedFlags()
    ensures AggregatesNeedFlags(BankCatalog())
  {
  }
}
