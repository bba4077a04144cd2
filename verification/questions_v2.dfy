/** The column analysis, column descriptions and explanations of
    `generate_questions_v2.py`. The question synthesizer of the same script
    is in `synthesis_v2.dfy`. */
module QuestionsV2 {
  import opened Wrappers
  import opened Text
  import opened Tables
  import opened Capabilities

  /** How many present values `analyze_column` keeps as samples. */
  const SampleLimit: nat := 10

  /** `analyze_column(df, col)`; the column holds one cell per row of the
      table, and an empty table makes the unique ratio divide by zero. */
  function AnalyzeColumn(c: Column): (p: Profile)
    requires |c.cells| > 0
    ensures p.name == c.name && p.kind == c.kind
    ensures p.uniqueCount == UniqueCount(c.cells) && p.nullCount == NullCount(c.cells)
    ensures |p.samples| == if |NonMissing(c.cells)| < SampleLimit then |NonMissing(c.cells)| else SampleLimit
    ensures forall i :: 0 <= i < |p.samples| ==> p.samples[i] == NonMissing(c.cells)[i]
    ensures IsNumeric in p.flags <==> c.kind == Numeric
    ensures IsCategorical in p.flags <==> c.kind == Categorical
    ensures IsIdentifier in p.flags <==>
      c.kind == Numeric && (MostlyUnique(p.uniqueCount, |c.cells|) || IdentifierName(c.name))
    ensures IsIdentifier in p.flags ==> CanSum !in p.flags && CanMean !in p.flags
    ensures CanSort in p.flags <==> c.kind == Numeric
    ensures c.kind == Numeric ==> (CanSum in p.flags <==> IsIdentifier !in p.flags)
    ensures c.kind == Numeric ==> (CanMean in p.flags <==> IsIdentifier !in p.flags)
    ensures CanSum in p.flags ==> c.kind == Numeric
    ensures CanMean in p.flags ==> c.kind == Numeric
    ensures CanGroupBy in p.flags <==> c.kind == Categorical && FewDistinct(p.uniqueCount, |c.cells|)
    ensures CanValueCount in p.flags <==> c.kind == Categorical
    ensures CanFilter in p.flags <==> c.kind == Categorical
    ensures CanRank !in p.flags
  {
    var u := UniqueCount(c.cells);
    var n := |c.cells|;
    var flags :=
      match c.kind
      case Numeric => NumericFlags(MostlyUnique(u, n) || IdentifierName(c.name))
      case Categorical => CategoricalFlags(FewDistinct(u, n));
    Profile(c.name, c.kind, u, NullCount(c.cells), Samples(c.cells, SampleLimit), flags)
  }

  /** The flags of a numeric column: summing and averaging are withdrawn from identifiers. */
  function NumericFlags(identifier: bool): (f: set<Capability>)
    ensures IsNumeric in f && CanSort in f
    ensures IsIdentifier in f <==> identifier
    ensures CanSum in f <==> !identifier
    ensures CanMean in f <==> !identifier
    ensures IsCategorical !in f && CanRank !in f && CanGroupBy !in f
    ensures CanValueCount !in f && CanFilter !in f
  {
    if identifier then {IsNumeric, CanSort, IsIdentifier} else {IsNumeric, CanSum, CanMean, CanSort}
  }

  /** The flags of a categorical column: grouping only when few values are distinct. */
  function CategoricalFlags(groupable: bool): (f: set<Capability>)
    ensures IsCategorical in f && CanValueCount in f && CanFilter in f
    ensures CanGroupBy in f <==> groupable
    ensures IsNumeric !in f && IsIdentifier !in f && CanSort !in f && CanRank !in f
    ensures CanSum !in f && CanMean !in f
  {
    {IsCategorical, CanValueCount, CanFilter} + (if groupable then {CanGroupBy} else {})
  }

  /** The labels `create_column_description` chooses from. */
  const Labels: set<string> := {
    "Name identifier", "Date/time information", "Price in dollars", "Count or quantity",
    "Unique identifier", "Current status", "Category or type", "Data field"}

  /** The name patterns of `create_column_description`, one predicate per
      branch, on the lower-cased column name. */
  predicate NamePattern(l: string) { Contains(l, "name") }
  predicate DatePattern(l: string) { Contains(l, "date") || Contains(l, "year") }
  predicate PricePattern(l: string) { Contains(l, "price") || Contains(l, "cost") }
  predicate CountPattern(l: string) { Contains(l, "count") || Contains(l, "number") }
  predicate IdPattern(l: string) { Contains(l, "id") }
  predicate StatusPattern(l: string) { Contains(l, "status") }
  predicate TypePattern(l: string) { Contains(l, "type") || Contains(l, "category") }

  /** `create_column_description(col_name, sample_values)`: the first name
      pattern that matches, in a fixed priority order (the samples are not
      consulted). Each label is chosen exactly when its pattern occurs and
      no pattern tried before it does. */
  function DescribeColumn(name: string): (r: string)
    ensures r in Labels
    ensures var l := Lower(name);
      r == "Name identifier" <==> NamePattern(l)
    ensures var l := Lower(name);
      r == "Date/time information" <==> !NamePattern(l) && DatePattern(l)
    ensures var l := Lower(name);
      r == "Price in dollars" <==> !NamePattern(l) && !DatePattern(l) && PricePattern(l)
    ensures var l := Lower(name);
      r == "Count or quantity" <==> !NamePattern(l) && !DatePattern(l) && !PricePattern(l) && CountPattern(l)
    ensures var l := Lower(name);
      r == "Unique identifier" <==>
        !NamePattern(l) && !DatePattern(l) && !PricePattern(l) && !CountPattern(l) && IdPattern(l)
    ensures var l := Lower(name);
      r == "Current status" <==>
        !NamePattern(l) && !DatePattern(l) && !PricePattern(l) && !CountPattern(l) && !IdPattern(l)
        && StatusPattern(l)
    ensures var l := Lower(name);
      r == "Category or type" <==>
        !NamePattern(l) && !DatePattern(l) && !PricePattern(l) && !CountPattern(l) && !IdPattern(l)
        && !StatusPattern(l) && TypePattern(l)
    ensures r == "Data field" <==> NoDescriptivePattern(Lower(name))
  {
    var l := Lower(name);
    if NamePattern(l) then "Name identifier"
    else if DatePattern(l) then "Date/time information"
    else if PricePattern(l) then "Price in dollars"
    else if CountPattern(l) then "Count or quantity"
    else if IdPattern(l) then "Unique identifier"
    else if StatusPattern(l) then "Current status"
    else if TypePattern(l) then "Category or type"
    else "Data field"
  }

  /** None of the name patterns `create_column_description` looks for occurs. */
  predicate NoDescriptivePattern(l: string) {
    && !NamePattern(l) && !DatePattern(l) && !PricePattern(l) && !CountPattern(l)
    && !IdPattern(l) && !StatusPattern(l) && !TypePattern(l)
  }

  /** The priority order decides overlapping names, whatever else the name
      holds: "name" beats every other pattern, "number" or "count" beats
      "id", and "id" beats "status" and "type". */
  lemma DescribeOverlaps(name: string)
    ensures NamePattern(Lower(name)) && IdPattern(Lower(name)) ==> DescribeColumn(name) == "Name identifier"
    ensures var l := Lower(name);
      !NamePattern(l) && !DatePattern(l) && !PricePattern(l) && CountPattern(l) && IdPattern(l) ==>
        DescribeColumn(name) == "Count or quantity"
    ensures var l := Lower(name);
      !NamePattern(l) && !DatePattern(l) && !PricePattern(l) && !CountPattern(l) && IdPattern(l)
      && (StatusPattern(l) || TypePattern(l)) ==>
        DescribeColumn(name) == "Unique identifier"
  {
  }

  /** A concrete overlap: `id_number` is a count, not an identifier. */
  lemma DescribeIdNumber()
    ensures DescribeColumn("id_number") == "Count or quantity"
  {
    var l := Lower("id_number");
    LowerIdNumber();
    IdNumberPatterns(l);
  }

  lemma LowerIdNumber()
    ensures Lower("id_number") == "id_number"
  {
    var l := Lower("id_number");
    forall i | 0 <= i < 9 ensures l[i] == "id_number"[i] {
    }
  }

  /** Which name patterns `id_number` holds. */
  lemma IdNumberPatterns(l: string)
    requires l == "id_number"
    ensures CountPattern(l) && !NamePattern(l) && !DatePattern(l) && !PricePattern(l)
  {
    assert l == "id_" + "number";
    assert StartsWith("number", "number");
    ContainsAfter("id_", "number", "number");
    MissingCharNotContained(l, "name", 'a');
    MissingCharNotContained(l, "date", 'a');
    MissingCharNotContained(l, "year", 'a');
    MissingCharNotContained(l, "price", 'p');
    MissingCharNotContained(l, "cost", 'c');
  }

  /** `entity_type_map.get(dataset_name, 'record')`. */
  function EntityType(dataset: string): (r: string)
    ensures r == "record" <==> dataset !in KnownEntities.Keys
    ensures dataset in KnownEntities.Keys ==> r == KnownEntities[dataset]
  {
    if dataset in KnownEntities.Keys then KnownEntities[dataset] else "record"
  }

  const KnownEntities: map<string, string> := map[
    "powerplants.csv" := "power plant",
    "motorcycles.csv" := "motorcycle",
    "foods.csv" := "pet food product",
    "grammys.csv" := "Grammy nomination",
    "race-places.csv" := "race result",
    "tickets-tiny.csv" := "traffic stop",
    "crops.csv" := "crop",
    "wreckers.csv" := "tow truck",
    "overflows.csv" := "overflow event",
    "forces.csv" := "force measurement",
    "injurydat-cleaned.csv" := "injury report",
    "township-154.csv" := "township record",
    "boston_house_prices.csv" := "house",
    "msft.csv" := "stock trading day"]

  /** `explanation_templates.get(concept)`. */
  function ExplanationOf(concept: string): Option<string> {
    match concept
    case "filtering" => Some("Boolean filtering selects rows where a condition is True. Use df[condition] syntax.")
    case "sort_values" => Some("sort_values() orders the dataframe by a column. Use ascending=False for highest first.")
    case "head" => Some("head(n) returns the first n rows. Combine with sort_values() to find top/bottom values.")
    case "value_counts" => Some("value_counts() counts occurrences of each unique value. Add normalize=True for percentages.")
    case "mean" => Some("mean() calculates the average of numeric values. Use on a column to get its average.")
    case "sum" => Some("sum() adds up values. On boolean conditions, it counts True values (True=1, False=0).")
    case "groupby" => Some("groupby() splits data into groups. Follow with an aggregation like sum() or mean().")
    case "isin" => Some("isin() checks if values are in a list. Returns True/False for each row.")
    case "boolean indexing" => Some("Create True/False conditions to filter data. Use & for AND, | for OR.")
    case _ => None
  }

  predicate Known(concept: string) {
    ExplanationOf(concept).Some?
  }

  /** The explanations of the recognised concepts, in concept order. */
  function KnownExplanations(concepts: seq<string>): (r: seq<string>)
    ensures |r| <= |concepts|
    decreases |concepts|
  {
    if |concepts| == 0 then []
    else
      (if Known(concepts[0]) then [ExplanationOf(concepts[0]).value] else [])
      + KnownExplanations(concepts[1..])
  }

  /** `i` is the position of the first recognised concept after position `from`. */
  predicate FirstKnownAfter(concepts: seq<string>, from: int, i: int) {
    from < i < |concepts| && 0 <= i && Known(concepts[i])
    && forall k :: from < k < i && 0 <= k ==> !Known(concepts[k])
  }

  lemma {:induction false} KnownExplanationsEmpty(concepts: seq<string>)
    requires forall k :: 0 <= k < |concepts| ==> !Known(concepts[k])
    ensures KnownExplanations(concepts) == []
    decreases |concepts|
  {
    if |concepts| > 0 {
      KnownExplanationsEmpty(concepts[1..]);
    }
  }

  /** The explanations start with those of the first two recognised concepts. */
  lemma {:induction false} KnownExplanationsHead(concepts: seq<string>, i: nat, j: int)
    requires FirstKnownAfter(concepts, -1, i)
    ensures |KnownExplanations(concepts)| >= 1
    ensures KnownExplanations(concepts)[0] == ExplanationOf(concepts[i]).value
    ensures FirstKnownAfter(concepts, i, j) ==>
      |KnownExplanations(concepts)| >= 2 && KnownExplanations(concepts)[1] == ExplanationOf(concepts[j]).value
    ensures (forall k :: i < k < |concepts| ==> !Known(concepts[k])) ==> |KnownExplanations(concepts)| == 1
    decreases |concepts|
  {
    var rest := concepts[1..];
    if i > 0 {
      assert FirstKnownAfter(rest, -1, i - 1);
      KnownExplanationsHead(rest, i - 1, j - 1);
      if FirstKnownAfter(concepts, i, j) {
        assert FirstKnownAfter(rest, i - 1, j - 1);
      }
    } else {
      assert rest[..] == concepts[1..];
      if FirstKnownAfter(concepts, i, j) {
        assert FirstKnownAfter(rest, -1, j - 1);
        KnownExplanationsHead(rest, j - 1, -1);
      }
      if forall k :: i < k < |concepts| ==> !Known(concepts[k]) {
        KnownExplanationsEmpty(rest);
      }
    }
  }

  /** `' '.join(explanations[:2])` for one question's concepts. */
  function Explain(concepts: seq<string>): string {
    var known := KnownExplanations(concepts);
    Join(" ", if |known| < 2 then known else known[..2])
  }

  /** `add_explanations` joins the explanations of at most the first two
      recognised concepts: none gives "", one gives its explanation, and the
      first two recognised concepts give their explanations joined by a space. */
  lemma ExplainUsesFirstTwo(concepts: seq<string>, i: int, j: int)
    ensures (forall k :: 0 <= k < |concepts| ==> !Known(concepts[k])) ==> Explain(concepts) == ""
    ensures FirstKnownAfter(concepts, -1, i) && (forall k :: i < k < |concepts| ==> !Known(concepts[k]))
      ==> Explain(concepts) == ExplanationOf(concepts[i]).value
    ensures FirstKnownAfter(concepts, -1, i) && FirstKnownAfter(concepts, i, j)
      ==> Explain(concepts) == ExplanationOf(concepts[i]).value + " " + ExplanationOf(concepts[j]).value
  {
    if forall k :: 0 <= k < |concepts| ==> !Known(concepts[k]) {
      KnownExplanationsEmpty(concepts);
    }
    if FirstKnownAfter(concepts, -1, i) {
      KnownExplanationsHead(concepts, i, j);
      var known := KnownExplanations(concepts);
      if FirstKnownAfter(concepts, i, j) {
        var two := known[..2];
        assert two == [known[0], known[1]];
        assert two[1..] == [known[1]];
        assert Join(" ", two) == known[0] + " " + Join(" ", two[1..]);
      }
    }
  }
}
