/** The reviewer of `review_questions.py`: the static and run-time checks
    of `evaluate_question`, the final question format of
    `create_final_question` with its concepts and hint, and the good /
    rejected partition with per-dataset counts of `main`. Running a snippet
    again is the caller-supplied `run`, as in the raw bank. */
module Review {
  import opened Wrappers
  import opened Text
  import opened Numerals
  import opened Tables
  import opened Execution
  import opened CatalogBank
  import opened QuestionBank

  datatype Evaluation = Evaluation(makesSense: bool, reasons: seq<Reason>, isMeaningful: bool)

  /** The lower-cased column name mentions an identifier-like word. */
  predicate IdLikeColumn(column: string) {
    var l := Lower(column);
    Contains(l, "id") || Contains(l, "code") || Contains(l, "number") || Contains(l, "zip")
  }

  /** The code averages or sums something. */
  predicate Aggregates(code: string) {
    Contains(code, ".mean()") || Contains(code, ".sum()")
  }

  /** Issue 1: an average or total over an identifier-like column. */
  predicate IdIssue(q: RawQuestion) {
    IdLikeColumn(q.column) && Aggregates(q.code)
  }

  /** The first position of a column called `name`, if any (`name in df.columns`). */
  function ColumnIndex(t: Table, name: string, from: nat): (r: Option<nat>)
    ensures r.Some? ==> from <= r.value < |t.columns| && t.columns[r.value].name == name
    ensures r.None? <==> forall j :: from <= j < |t.columns| ==> t.columns[j].name != name
    decreases |t.columns| - from
  {
    if from >= |t.columns| then None
    else if t.columns[from].name == name then Some(from)
    else ColumnIndex(t, name, from + 1)
  }

  /** The code groups and its column is a column of the table. */
  predicate GroupsKnownColumn(q: RawQuestion, t: Table) {
    Contains(q.code, "groupby") && ColumnIndex(t, q.column, 0).Some?
  }

  /** Issue 2: grouping by a column with more than half its rows distinct
      (`nunique() / len(df) > 0.5`, cross-multiplied; only asked of a table with rows). */
  predicate GroupIssue(q: RawQuestion, t: Table)
    requires GroupsKnownColumn(q, t)
  {
    2 * UniqueCount(GroupedCells(q, t)) > t.rowCount
  }

  /** Issue 3, the empty-result half: a DataFrame with no rows. */
  predicate EmptyFrame(o: Outcome) {
    o.Returned? && o.answer.Frame? && o.answer.rows == 0
  }

  /** Issue 3, the long-result half: a Series longer than 100. */
  predicate LongSeries(o: Outcome) {
    o.Returned? && o.answer.Series? && o.answer.length > 100
  }

  /** Issue 4: `pattern.replace('.*', ' ') in q_text` for the three odd
      patterns, each a literal phrase with one space, not a regular expression. */
  predicate OddAverageName(question: string) { Contains(Lower(question), "average" + " " + "name") }
  predicate OddSumCategory(question: string) { Contains(Lower(question), "sum" + " " + "category") }
  predicate OddTotalId(question: string) { Contains(Lower(question), "total" + " " + "id") }

  /** Why `evaluate_question` objects to a question, one case per reason it appends. */
  datatype Reason =
    | IdAggregate                                   // issue 1
    | HighCardinality(column: string, unique: nat)  // issue 2, with `nunique()`
    | ExecutionError(message: string)               // issue 3, `eval` raised
    | EmptyResult                                   // issue 3, empty DataFrame
    | TooManyCategories                             // issue 3, long Series
    | AverageNames | SumCategories | TotalIds       // issue 4, one per odd pattern

  /** The text `evaluate_question` appends for a reason. */
  function Message(r: Reason): string {
    match r
    case IdAggregate => "Calculating mean/sum of IDs or codes is not meaningful"
    case HighCardinality(c, u) => "Grouping by " + c + " has too many unique values (" + NatToString(u) + ")"
    case ExecutionError(m) => "Code execution error: " + m
    case EmptyResult => "Query returns empty result"
    case TooManyCategories => "Result has too many categories to be useful"
    case AverageNames => "Cannot average names"
    case SumCategories => "Cannot sum categories"
    case TotalIds => "Summing IDs is not meaningful"
  }

  /** The distinct-value count a grouping reason reports reads back from its message. */
  lemma HighCardinalityCount(column: string, unique: nat)
    ensures var head := "Grouping by " + column + " has too many unique values (";
      var m := Message(HighCardinality(column, unique));
      && |head| < |m| && m[..|head|] == head && m[|m| - 1] == ')'
      && AllDigits(m[|head|..|m| - 1]) && ParseDigits(m[|head|..|m| - 1]) == unique
  {
    var head := "Grouping by " + column + " has too many unique values (";
    var m := Message(HighCardinality(column, unique));
    assert m == head + NatToString(unique) + ")";
    assert m[|head|..|m| - 1] == NatToString(unique);
    ParseNatToString(unique);
  }

  /** The column `groupby` would group by, when the code groups by a known column. */
  function GroupedCells(q: RawQuestion, t: Table): seq<Cell>
    requires GroupsKnownColumn(q, t)
  {
    t.columns[ColumnIndex(t, q.column, 0).value].cells
  }

  /** The position of a reason's check among the eight checks `evaluate_question` runs. */
  function Kind(r: Reason): nat {
    match r
    case IdAggregate => 0
    case HighCardinality(_, _) => 1
    case ExecutionError(_) => 2
    case EmptyResult => 3
    case TooManyCategories => 4
    case AverageNames => 5
    case SumCategories => 6
    case TotalIds => 7
  }

  /** One check: whether it failed, whether it guards `makes_sense` (else
      `is_meaningful`), and the reason it appends when it fails. */
  datatype Probe = Probe(failed: bool, sense: bool, reason: Reason)

  /** The checks of `evaluate_question`, in the order it runs them. Issue 2
      is only asked when the code groups by a known column; issue 3 asks for
      the error when `eval` raised and for the two result checks otherwise. */
  function Probes(q: RawQuestion, t: Table, o: Outcome): (ps: seq<Probe>)
    ensures |ps| == 8
    ensures forall k :: 0 <= k < |ps| ==> Kind(ps[k].reason) == k
    ensures ps[0].failed == IdIssue(q) && ps[0].sense && ps[0].reason == IdAggregate
    ensures ps[1].failed == (GroupsKnownColumn(q, t) && GroupIssue(q, t)) && ps[1].sense
    ensures GroupsKnownColumn(q, t) ==> ps[1].reason == HighCardinality(q.column, UniqueCount(GroupedCells(q, t)))
    ensures ps[2].failed == o.Raised? && ps[2].sense && (o.Raised? ==> ps[2].reason == ExecutionError(o.message))
    ensures ps[3] == Probe(EmptyFrame(o), false, EmptyResult)
    ensures ps[4] == Probe(LongSeries(o), false, TooManyCategories)
    ensures ps[5] == Probe(OddAverageName(q.question), true, AverageNames)
    ensures ps[6] == Probe(OddSumCategory(q.question), true, SumCategories)
    ensures ps[7] == Probe(OddTotalId(q.question), true, TotalIds)
  {
    var grouped := GroupsKnownColumn(q, t);
    [Probe(IdIssue(q), true, IdAggregate),
     Probe(grouped && GroupIssue(q, t), true,
       HighCardinality(q.column, if grouped then UniqueCount(GroupedCells(q, t)) else 0)),
     Probe(o.Raised?, true, ExecutionError(if o.Raised? then o.message else "")),
     Probe(EmptyFrame(o), false, EmptyResult),
     Probe(LongSeries(o), false, TooManyCategories),
     Probe(OddAverageName(q.question), true, AverageNames),
     Probe(OddSumCategory(q.question), true, SumCategories),
     Probe(OddTotalId(q.question), true, TotalIds)]
  }

  /** The check fails and guards `makes_sense` (`sense`) or `is_meaningful` (`!sense`). */
  predicate Blocks(p: Probe, sense: bool) {
    p.failed && p.sense == sense
  }

  /** Some check guarding that flag fails. */
  predicate Blocked(ps: seq<Probe>, sense: bool) {
    exists k :: 0 <= k < |ps| && Blocks(ps[k], sense)
  }

  /** The reasons of the failed checks, in order. */
  function Failed(ps: seq<Probe>): (r: seq<Reason>)
    ensures forall x :: x in r <==> exists k :: 0 <= k < |ps| && ps[k].failed && ps[k].reason == x
    ensures |r| == 0 <==> !Blocked(ps, true) && !Blocked(ps, false)
    decreases |ps|
  {
    if |ps| == 0 then []
    else
      var rest := Failed(ps[1..]);
      BlockedTail(ps, true);
      BlockedTail(ps, false);
      assert forall k :: 1 <= k < |ps| ==> ps[k] == ps[1..][k - 1];
      (if ps[0].failed then [ps[0].reason] else []) + rest
  }

  /** A flag is blocked exactly when the first check or one of the rest blocks it. */
  lemma BlockedTail(ps: seq<Probe>, sense: bool)
    requires |ps| > 0
    ensures Blocked(ps, sense) <==> Blocks(ps[0], sense) || Blocked(ps[1..], sense)
  {
    if Blocked(ps, sense) && !Blocks(ps[0], sense) {
      var k :| 0 <= k < |ps| && Blocks(ps[k], sense);
      assert Blocks(ps[1..][k - 1], sense);
    }
    if Blocked(ps[1..], sense) {
      var k :| 0 <= k < |ps| - 1 && Blocks(ps[1..][k], sense);
      assert Blocks(ps[k + 1], sense);
    }
  }

  /** Eight checks block a flag exactly when one of them does. */
  lemma BlockedOfEight(ps: seq<Probe>, sense: bool)
    requires |ps| == 8
    ensures Blocked(ps, sense) <==>
      || Blocks(ps[0], sense) || Blocks(ps[1], sense) || Blocks(ps[2], sense) || Blocks(ps[3], sense)
      || Blocks(ps[4], sense) || Blocks(ps[5], sense) || Blocks(ps[6], sense) || Blocks(ps[7], sense)
  {
    if Blocked(ps, sense) {
      var k :| 0 <= k < |ps| && Blocks(ps[k], sense);
      assert k == 0 || k == 1 || k == 2 || k == 3 || k == 4 || k == 5 || k == 6 || k == 7;
    }
  }

  /** With each check's reason of its own kind, a reason is reported exactly
      when the check of its kind failed with it. */
  lemma FailedByKind(ps: seq<Probe>, x: Reason)
    requires forall k :: 0 <= k < |ps| ==> Kind(ps[k].reason) == k
    ensures x in Failed(ps) <==> Kind(x) < |ps| && ps[Kind(x)].failed && ps[Kind(x)].reason == x
  {
  }

  /** With each check's reason of its own kind, some reason of kind `n` is
      reported exactly when check `n` failed. */
  lemma FailedKind(ps: seq<Probe>, n: nat)
    requires forall k :: 0 <= k < |ps| ==> Kind(ps[k].reason) == k
    ensures (exists j :: 0 <= j < |Failed(ps)| && Kind(Failed(ps)[j]) == n) <==> n < |ps| && ps[n].failed
  {
    var r := Failed(ps);
    if n < |ps| && ps[n].failed {
      assert ps[n].reason in r;
    }
    if exists j :: 0 <= j < |r| && Kind(r[j]) == n {
      var j :| 0 <= j < |r| && Kind(r[j]) == n;
      assert r[j] in r;
    }
  }

  /** Records one check: when it fails, the flag it guards is cleared and its reason appended. */
  function Check(e: Evaluation, failed: bool, sense: bool, reason: Reason): (r: Evaluation)
    ensures r.makesSense == (e.makesSense && !(failed && sense))
    ensures r.isMeaningful == (e.isMeaningful && !(failed && !sense))
    ensures r.reasons == e.reasons + (if failed then [reason] else [])
  {
    if !failed then e
    else if sense then Evaluation(false, e.reasons + [reason], e.isMeaningful)
    else Evaluation(e.makesSense, e.reasons + [reason], false)
  }

  /** Running the checks one after the other: a flag stays set exactly when
      no check guarding it fails, and the failed checks' reasons are appended in order. */
  function {:induction false} RunProbes(e: Evaluation, ps: seq<Probe>): (r: Evaluation)
    ensures r.makesSense <==> e.makesSense && !Blocked(ps, true)
    ensures r.isMeaningful <==> e.isMeaningful && !Blocked(ps, false)
    ensures r.reasons == e.reasons + Failed(ps)
    decreases |ps|
  {
    if |ps| == 0 then e
    else
      BlockedTail(ps, true);
      BlockedTail(ps, false);
      var head := if ps[0].failed then [ps[0].reason] else [];
      assert Failed(ps) == head + Failed(ps[1..]);
      assert e.reasons + Failed(ps) == (e.reasons + head) + Failed(ps[1..]);
      RunProbes(Check(e, ps[0].failed, ps[0].sense, ps[0].reason), ps[1..])
  }

  /** `evaluate_question(question, df)`, where `o` is what `eval(code)`
      gives back on this table. Grouping by a known column of an empty
      table divides by zero (`None`). */
  function EvaluateQuestion(q: RawQuestion, t: Table, o: Outcome): (r: Option<Evaluation>)
    ensures r.None? <==> GroupsKnownColumn(q, t) && t.rowCount == 0
    ensures r.Some? ==> (r.value.makesSense <==>
      && !IdIssue(q)
      && !(GroupsKnownColumn(q, t) && GroupIssue(q, t))
      && !o.Raised?
      && !OddAverageName(q.question) && !OddSumCategory(q.question) && !OddTotalId(q.question))
    ensures r.Some? ==> (r.value.isMeaningful <==> !EmptyFrame(o) && !LongSeries(o))
    ensures r.Some? ==> (|r.value.reasons| == 0 <==> r.value.makesSense && r.value.isMeaningful)
    ensures r.Some? && IdIssue(q) ==> |r.value.reasons| > 0 && r.value.reasons[0] == IdAggregate
    ensures r.Some? ==> r.value.reasons == Failed(Probes(q, t, o))
  {
    if GroupsKnownColumn(q, t) && t.rowCount == 0 then None
    else
      var ps := Probes(q, t, o);
      var r := RunProbes(Evaluation(true, [], true), ps);
      BlockedOfEight(ps, true);
      BlockedOfEight(ps, false);
      assert ps[0].failed ==> r.reasons[0] == IdAggregate;
      Some(r)
  }

  /** Issues 1 and 2 report their reasons exactly when their checks fail;
      the grouping reason names the column and its distinct-value count. */
  lemma StaticReasons(q: RawQuestion, t: Table, o: Outcome)
    ensures var r := EvaluateQuestion(q, t, o);
      r.Some? ==> (IdAggregate in r.value.reasons <==> IdIssue(q))
    ensures var r := EvaluateQuestion(q, t, o);
      r.Some? ==> ((exists j :: 0 <= j < |r.value.reasons| && r.value.reasons[j].HighCardinality?)
                   <==> GroupsKnownColumn(q, t) && GroupIssue(q, t))
    ensures var r := EvaluateQuestion(q, t, o);
      r.Some? && GroupsKnownColumn(q, t) ==>
        (HighCardinality(q.column, UniqueCount(GroupedCells(q, t))) in r.value.reasons <==> GroupIssue(q, t))
  {
    var ps := Probes(q, t, o);
    FailedByKind(ps, IdAggregate);
    FailedKind(ps, 1);
    if GroupsKnownColumn(q, t) {
      FailedByKind(ps, HighCardinality(q.column, UniqueCount(GroupedCells(q, t))));
    }
  }

  /** Issue 3 reports its reasons exactly when its checks fail; the error
      reason carries the message `eval` raised. */
  lemma RunReasons(q: RawQuestion, t: Table, o: Outcome)
    ensures var r := EvaluateQuestion(q, t, o);
      r.Some? ==> ((exists j :: 0 <= j < |r.value.reasons| && r.value.reasons[j].ExecutionError?) <==> o.Raised?)
    ensures var r := EvaluateQuestion(q, t, o);
      r.Some? && o.Raised? ==> ExecutionError(o.message) in r.value.reasons
    ensures var r := EvaluateQuestion(q, t, o);
      r.Some? ==> (EmptyResult in r.value.reasons <==> EmptyFrame(o))
    ensures var r := EvaluateQuestion(q, t, o);
      r.Some? ==> (TooManyCategories in r.value.reasons <==> LongSeries(o))
  {
    var ps := Probes(q, t, o);
    FailedKind(ps, 2);
    if o.Raised? {
      FailedByKind(ps, ExecutionError(o.message));
    }
    FailedByKind(ps, EmptyResult);
    FailedByKind(ps, TooManyCategories);
  }

  /** Issue 4 reports each odd phrasing's reason exactly when the question has it. */
  lemma OddReasons(q: RawQuestion, t: Table, o: Outcome)
    ensures var r := EvaluateQuestion(q, t, o);
      r.Some? ==> (AverageNames in r.value.reasons <==> OddAverageName(q.question))
    ensures var r := EvaluateQuestion(q, t, o);
      r.Some? ==> (SumCategories in r.value.reasons <==> OddSumCategory(q.question))
    ensures var r := EvaluateQuestion(q, t, o);
      r.Some? ==> (TotalIds in r.value.reasons <==> OddTotalId(q.question))
  {
    var ps := Probes(q, t, o);
    FailedByKind(ps, AverageNames);
    FailedByKind(ps, SumCategories);
    FailedByKind(ps, TotalIds);
  }

  /** The concept table of `determine_concepts`: a code fragment and the
      concept it signals, in the order concepts are reported. */
  const ConceptPatterns: seq<(string, string)> := [
    ("value_counts()", "value_counts"),
    ("groupby(", "groupby"),
    (".mean()", "mean"),
    (".sum()", "sum"),
    (".max()", "max"),
    (".min()", "min"),
    ("nlargest(", "nlargest"),
    ("nsmallest(", "nsmallest"),
    (".nunique()", "nunique"),
    (".idxmax()", "idxmax"),
    ("len(df[", "filtering"),
    ("df[df[", "boolean_indexing"),
    (".str.contains(", "string_contains"),
    (".sort_values(", "sorting")]

  /** The concept names of a table. */
  function ConceptNames(table: seq<(string, string)>): (r: seq<string>)
    ensures |r| == |table|
    ensures forall j :: 0 <= j < |table| ==> r[j] == table[j].1
  {
    seq(|table|, j requires 0 <= j < |table| => table[j].1)
  }

  /** No concept is named twice in the table. */
  lemma ConceptNamesDistinct()
    ensures |ConceptPatterns| == 14
    ensures NoDup(ConceptNames(ConceptPatterns))
  {
    var names := ConceptNames(ConceptPatterns);
    assert names == ["value_counts", "groupby", "mean", "sum", "max", "min", "nlargest", "nsmallest",
      "nunique", "idxmax", "filtering", "boolean_indexing", "string_contains", "sorting"];
  }

  /** The entries of the table from `i` on whose fragment occurs in the code, in table order. */
  function MatchedFrom(code: string, table: seq<(string, string)>, i: nat): (r: seq<nat>)
    requires i <= |table|
    ensures forall k :: 0 <= k < |r| ==> i <= r[k] < |table| && Contains(code, table[r[k]].0)
    ensures forall j :: i <= j < |table| && Contains(code, table[j].0) ==> j in r
    ensures forall k, l :: 0 <= k < l < |r| ==> r[k] < r[l]
    decreases |table| - i
  {
    if i == |table| then []
    else
      var rest := MatchedFrom(code, table, i + 1);
      if Contains(code, table[i].0) then [i] + rest else rest
  }

  /** The concepts of the entries whose fragment occurs in the code, in table order. */
  function ConceptsOf(code: string, table: seq<(string, string)>): (r: seq<string>)
    ensures |r| == |MatchedFrom(code, table, 0)|
    ensures forall k :: 0 <= k < |r| ==> r[k] == table[MatchedFrom(code, table, 0)[k]].1
  {
    var m := MatchedFrom(code, table, 0);
    seq(|m|, k requires 0 <= k < |m| => table[m[k]].1)
  }

  /** With distinct concept names, a concept is reported exactly when its
      fragment occurs in the code, and no concept is reported twice. */
  lemma ConceptsOfExact(code: string, table: seq<(string, string)>)
    requires NoDup(ConceptNames(table))
    ensures forall j :: 0 <= j < |table| ==> (table[j].1 in ConceptsOf(code, table) <==> Contains(code, table[j].0))
    ensures NoDup(ConceptsOf(code, table))
  {
    var m := MatchedFrom(code, table, 0);
    var r := ConceptsOf(code, table);
    var names := ConceptNames(table);
    forall j | 0 <= j < |table| && table[j].1 in r
      ensures Contains(code, table[j].0)
    {
      var k :| 0 <= k < |r| && r[k] == table[j].1;
      assert names[m[k]] == names[j];
      assert m[k] == j;
    }
    forall j | 0 <= j < |table| && Contains(code, table[j].0)
      ensures table[j].1 in r
    {
      var k :| 0 <= k < |m| && m[k] == j;
      assert r[k] == table[j].1;
    }
    forall k, l | 0 <= k < l < |r| ensures r[k] != r[l] {
      assert names[m[k]] == r[k] && names[m[l]] == r[l];
    }
  }

  /** `determine_concepts(code)`. */
  function DetermineConcepts(code: string): seq<string> {
    ConceptsOf(code, ConceptPatterns)
  }

  /** `determine_concepts` reports a concept exactly when its fragment occurs
      in the code, follows the table's order, and never repeats a concept. */
  lemma DetermineConceptsExact(code: string)
    ensures forall j :: 0 <= j < |ConceptPatterns| ==>
      (ConceptPatterns[j].1 in DetermineConcepts(code) <==> Contains(code, ConceptPatterns[j].0))
    ensures NoDup(DetermineConcepts(code))
  {
    ConceptNamesDistinct();
    ConceptsOfExact(code, ConceptPatterns);
  }

  /** The hints `generate_hint` knows, by template id. */
  const Hints: map<string, string> := map[
    "value_counts_basic" := "Count how many times each value appears",
    "groupby_mean" := "Group the data first, then calculate the average",
    "filter_equals" := "Filter the dataframe to only include matching rows",
    "nlargest" := "Find the rows with the highest values",
    "string_contains" := "Use string methods to search for partial matches"]

  const FallbackHint := "Think about what operation would answer this question"

  /** `generate_hint(question)`: the hint of the template, or the fallback. */
  function GenerateHint(templateId: string): (r: string)
    ensures templateId in Hints ==> r == Hints[templateId]
    ensures templateId !in Hints ==> r == FallbackHint
  {
    if templateId in Hints then Hints[templateId] else FallbackHint
  }

  /** Every hint belongs to a template of the raw bank's catalog. */
  lemma HintsNameBankTemplates()
    ensures forall id :: id in Hints ==> exists i :: 0 <= i < |BankCatalog()| && BankCatalog()[i].id == id
  {
    assert BankCatalog()[0].id == "value_counts_basic";
    assert BankCatalog()[8].id == "groupby_mean";
    assert BankCatalog()[11].id == "filter_equals";
    assert BankCatalog()[6].id == "nlargest";
    assert BankCatalog()[13].id == "string_contains";
  }

  /** The dataset descriptions `create_final_question` knows. */
  const Contexts: map<string, string> := map[
    "powerplants.csv" := "This dataset contains information about US power plants including their location, energy source, and production capacity.",
    "motorcycles.csv" := "This dataset contains technical specifications for motorcycles from various manufacturers.",
    "foods.csv" := "This dataset contains nutritional information for pet food products.",
    "grammys.csv" := "This dataset contains Grammy award nominations and winners from 1990-2023.",
    "race-places.csv" := "This dataset contains race results for various drivers over multiple years.",
    "tickets-tiny.csv" := "This dataset contains traffic violation records with demographic information."]

  /** `contexts.get(dataset, 'Dataset of ' + dataset)`. */
  function ContextOf(dataset: string): (r: string)
    ensures dataset in Contexts ==> r == Contexts[dataset]
    ensures dataset !in Contexts ==> r == "Dataset of " + dataset
  {
    if dataset in Contexts then Contexts[dataset] else "Dataset of " + dataset
  }

  /** Every dataset the reviewer loads has its own description. */
  lemma ReviewDatasetsDescribed()
    ensures forall k :: 0 <= k < |ReviewDatasets| ==> ReviewDatasets[k] in Contexts
  {
  }

  /** The datasets `main` loads, in order (the raw bank's list). */
  const ReviewDatasets: seq<string> := BankDatasets

  /** The question in its published form. */
  datatype FinalQuestion = FinalQuestion(
    dataset: string,
    preview: seq<seq<Cell>>,
    columns: seq<string>,
    context: string,
    question: string,
    code: string,
    result: string,
    difficulty: nat,
    concepts: seq<string>,
    hint: string)

  /** The columns a raw question names: its column, then its other column. */
  function AskedColumns(q: RawQuestion): (r: seq<string>)
    ensures 1 <= |r| <= 2 && r[0] == q.column
    ensures forall n :: n in r <==> n == q.column || q.other == Some(n)
  {
    [q.column] + (if q.other.Some? then [q.other.value] else [])
  }

  /** `preview_cols`: the asked columns, then the table's first three,
      without repeats and cut to five. The cut never removes anything:
      there are at most five candidates. */
  function PreviewNames(q: RawQuestion, t: Table): (cols: seq<string>)
    ensures 1 <= |cols| <= 5 && NoDup(cols) && cols[0] == q.column
    ensures q.other.Some? && q.other.value != q.column ==> |cols| >= 2 && cols[1] == q.other.value
    ensures forall n :: n in cols <==> n in AskedColumns(q) || n in Take(Names(t), 3)
  {
    var asked := AskedColumns(q);
    var all := Dedup(asked + Take(Names(t), 3));
    assert Take(all, 5) == all;
    if q.other.Some? && q.other.value != q.column then
      DedupKeepsPrefix(asked, Take(Names(t), 3));
      assert all[..2] == asked;
      Take(all, 5)
    else
      Take(all, 5)
  }

  /** The preview keeps the candidates' order: the asked columns, then the
      table's first three in table order, each where it first occurs. */
  lemma PreviewNamesInOrder(q: RawQuestion, t: Table)
    ensures forall i, j :: 0 <= i < j < |PreviewNames(q, t)| ==>
      FirstIndex(AskedColumns(q) + Take(Names(t), 3), PreviewNames(q, t)[i])
        < FirstIndex(AskedColumns(q) + Take(Names(t), 3), PreviewNames(q, t)[j])
  {
    var cands := AskedColumns(q) + Take(Names(t), 3);
    assert PreviewNames(q, t) == Dedup(cands);
    DedupInOrder(cands);
  }

  /** Every preview column is a column of the table (`df[preview_cols]` raises `KeyError` otherwise). */
  predicate AllColumns(t: Table, cols: seq<string>) {
    forall k :: 0 <= k < |cols| ==> ColumnIndex(t, cols[k], 0).Some?
  }

  /** The preview columns fail only through the asked columns. */
  lemma PreviewNamesKnown(q: RawQuestion, t: Table)
    ensures AllColumns(t, PreviewNames(q, t)) <==>
      ColumnIndex(t, q.column, 0).Some? && (q.other.Some? ==> ColumnIndex(t, q.other.value, 0).Some?)
  {
    var cols := PreviewNames(q, t);
    if ColumnIndex(t, q.column, 0).Some? && (q.other.Some? ==> ColumnIndex(t, q.other.value, 0).Some?) {
      forall k | 0 <= k < |cols| ensures ColumnIndex(t, cols[k], 0).Some? {
        assert cols[k] in cols;
        if cols[k] !in AskedColumns(q) {
          var j :| 0 <= j < |Take(Names(t), 3)| && Take(Names(t), 3)[j] == cols[k];
          assert t.columns[j].name == cols[k];
        }
      }
    }
    if q.other.Some? {
      assert q.other.value in AskedColumns(q);
      assert q.other.value in cols;
    }
  }

  /** `create_final_question(raw_question, dataset_info)`; `None` when an
      asked column is not a column of the table. */
  function CreateFinalQuestion(q: RawQuestion, t: Table): (r: Option<FinalQuestion>)
    requires WellFormed(t)
    ensures r.None? <==> !AllColumns(t, PreviewNames(q, t))
    ensures r.Some? ==> r.value.columns == PreviewNames(q, t)
    ensures r.Some? ==> |r.value.preview| == (if t.rowCount < 5 then t.rowCount else 5)
    ensures r.Some? ==> forall row, k :: 0 <= row < |r.value.preview| && 0 <= k < |r.value.columns| ==>
      |r.value.preview[row]| == |r.value.columns|
      && r.value.preview[row][k] == t.columns[ColumnIndex(t, r.value.columns[k], 0).value].cells[row]
    ensures r.Some? ==>
      && r.value.dataset == q.dataset && r.value.question == q.question
      && r.value.code == q.code && r.value.result == q.result && r.value.difficulty == q.difficulty
    ensures r.Some? ==> r.value.context == ContextOf(q.dataset)
    ensures r.Some? ==> r.value.concepts == DetermineConcepts(q.code) && r.value.hint == GenerateHint(q.templateId)
  {
    var cols := PreviewNames(q, t);
    if !AllColumns(t, cols) then None
    else
      var idx := seq(|cols|, k requires 0 <= k < |cols| => ColumnIndex(t, cols[k], 0).value);
      Some(FinalQuestion(q.dataset, HeadRows(t, idx, 5), cols, ContextOf(q.dataset), q.question,
        q.code, q.result, q.difficulty, DetermineConcepts(q.code), GenerateHint(q.templateId)))
  }

  /** The value `df['state'] = 'Unknown'` writes into every row. */
  const UnknownState: Cell := Present(Str("Unknown"))

  /** `df['state'] = 'Unknown'` on a table without a `state` column: a new
      last column holding the same string in every row. */
  function WithState(t: Table): (r: Table)
    requires WellFormed(t) && ColumnIndex(t, "state", 0).None?
    ensures WellFormed(r) && r.rowCount == t.rowCount
    ensures Names(r) == Names(t) + ["state"]
    ensures r.columns[..|t.columns|] == t.columns
    ensures forall i :: 0 <= i < t.rowCount ==> r.columns[|t.columns|].cells[i] == UnknownState
  {
    var r := Table(t.columns + [Column("state", Categorical, seq(t.rowCount, _ => UnknownState))], t.rowCount);
    assert Names(r) == Names(t) + ["state"];
    r
  }

  /** The table `main` keeps for a dataset: the power plants get a `state`
      column when they have none; every other dataset is kept as read. */
  function Prepared(name: string, t: Table): (r: Table)
    requires WellFormed(t)
    ensures WellFormed(r) && r.rowCount == t.rowCount
    ensures |Names(t)| <= |Names(r)| && Names(r)[..|Names(t)|] == Names(t)
    ensures |t.columns| <= |r.columns| <= |t.columns| + 1 && r.columns[..|t.columns|] == t.columns
    ensures |r.columns| > |t.columns| ==>
      && r.columns[|t.columns|].name == "state"
      && forall i :: 0 <= i < t.rowCount ==> r.columns[|t.columns|].cells[i] == UnknownState
    ensures name == "powerplants.csv" ==> ColumnIndex(r, "state", 0).Some?
    ensures name != "powerplants.csv" || ColumnIndex(t, "state", 0).Some? ==> r == t
    ensures r != t <==> name == "powerplants.csv" && ColumnIndex(t, "state", 0).None?
  {
    if name == "powerplants.csv" && ColumnIndex(t, "state", 0).None? then
      var r := WithState(t);
      assert r.columns[|t.columns|].name == "state";
      r
    else t
  }

  /** The `datasets` dictionary `main` builds: `read(name)` is `pd.read_csv`
      on the dataset's file, `None` when it raises (the error is printed and
      the dataset skipped). */
  function LoadDatasets(read: string -> Option<Table>): (r: map<string, Table>)
    requires forall n :: read(n).Some? ==> WellFormed(read(n).value)
    ensures forall n :: n in r <==> n in ReviewDatasets && read(n).Some?
    ensures forall n :: n in r ==> WellFormed(r[n]) && r[n].rowCount == read(n).value.rowCount
    ensures "powerplants.csv" in r ==> ColumnIndex(r["powerplants.csv"], "state", 0).Some?
    ensures forall n :: n in r && n != "powerplants.csv" ==> r[n] == read(n).value
    ensures forall n :: n in r ==>
      && |read(n).value.columns| <= |r[n].columns| <= |read(n).value.columns| + 1
      && r[n].columns[..|read(n).value.columns|] == read(n).value.columns
    ensures forall n :: n in r ==> (r[n] == read(n).value <==> ColumnIndex(read(n).value, "state", 0).Some? || n != "powerplants.csv")
  {
    map n | n in ReviewDatasets && read(n).Some? :: Prepared(n, read(n).value)
  }

  /** Why a raw question is turned away. */
  datatype Rejection = InvalidCode | DatasetNotFound | Reasons(reasons: seq<Reason>)

  datatype Verdict = Accepted(question: FinalQuestion) | Rejected(why: Rejection)

  /** The loaded tables are well formed. */
  predicate Loaded(datasets: map<string, Table>) {
    forall n :: n in datasets ==> WellFormed(datasets[n])
  }

  /** The question ran, its dataset was loaded, and the evaluation finds it
      both sensible and meaningful. */
  predicate Acceptable(q: RawQuestion, datasets: map<string, Table>, run: (string, string) -> Outcome) {
    && q.status == Valid
    && q.dataset in datasets
    && var e := EvaluateQuestion(q, datasets[q.dataset], run(q.dataset, q.code));
       e.Some? && e.value.makesSense && e.value.isMeaningful
  }

  /** Reviewing the question raises: the evaluation divides by zero, or an
      accepted question names a column its table does not have. */
  predicate Raises(q: RawQuestion, datasets: map<string, Table>, run: (string, string) -> Outcome)
    requires Loaded(datasets)
  {
    && q.status == Valid
    && q.dataset in datasets
    && (|| EvaluateQuestion(q, datasets[q.dataset], run(q.dataset, q.code)).None?
        || (Acceptable(q, datasets, run) && CreateFinalQuestion(q, datasets[q.dataset]).None?))
  }

  /** One pass of `main`'s review loop; `run(dataset, code)` is the outcome
      of `eval(code)` against that dataset's frame. */
  function Judge(q: RawQuestion, datasets: map<string, Table>, run: (string, string) -> Outcome): (v: Option<Verdict>)
    requires Loaded(datasets)
    ensures v.None? <==> Raises(q, datasets, run)
    ensures v.Some? ==> (v.value.Accepted? <==> Acceptable(q, datasets, run))
    ensures v.Some? && v.value.Accepted? ==>
      q.dataset in datasets && CreateFinalQuestion(q, datasets[q.dataset]) == Some(v.value.question)
      && v.value.question.dataset == q.dataset
    ensures v.Some? && v.value.Rejected? ==> (v.value.why == InvalidCode <==> q.status != Valid)
    ensures v.Some? && v.value.Rejected? ==>
      (v.value.why == DatasetNotFound <==> q.status == Valid && q.dataset !in datasets)
    ensures v.Some? && v.value.Rejected? && v.value.why.Reasons? ==> |v.value.why.reasons| > 0
  {
    if q.status != Valid then Some(Rejected(InvalidCode))
    else if q.dataset !in datasets then Some(Rejected(DatasetNotFound))
    else
      var t := datasets[q.dataset];
      match EvaluateQuestion(q, t, run(q.dataset, q.code))
      case None => None
      case Some(e) =>
        if e.makesSense && e.isMeaningful then
          match CreateFinalQuestion(q, t)
          case None => None
          case Some(f) => Some(Accepted(f))
        else Some(Rejected(Reasons(e.reasons)))
  }

  /** How many of the questions are acceptable. */
  function CountAcceptable(qs: seq<RawQuestion>, datasets: map<string, Table>, run: (string, string) -> Outcome): (r: nat)
    ensures r <= |qs|
    decreases |qs|
  {
    if |qs| == 0 then 0
    else CountAcceptable(qs[..|qs| - 1], datasets, run) + (if Acceptable(qs[|qs| - 1], datasets, run) then 1 else 0)
  }

  /** The verdict on each question, in order. */
  function Verdicts(qs: seq<RawQuestion>, datasets: map<string, Table>, run: (string, string) -> Outcome): (vs: seq<Option<Verdict>>)
    requires Loaded(datasets)
    ensures |vs| == |qs|
    ensures forall i :: 0 <= i < |qs| ==> vs[i] == Judge(qs[i], datasets, run)
  {
    seq(|qs|, i requires 0 <= i < |qs| => Judge(qs[i], datasets, run))
  }

  /** How many verdicts accept. */
  function CountAccepted(vs: seq<Option<Verdict>>): (r: nat)
    ensures r <= |vs|
    decreases |vs|
  {
    if |vs| == 0 then 0
    else CountAccepted(vs[..|vs| - 1]) + (if vs[|vs| - 1].Some? && vs[|vs| - 1].value.Accepted? then 1 else 0)
  }

  /** Each question paired with its verdict. */
  function Zip(qs: seq<RawQuestion>, vs: seq<Option<Verdict>>): set<(RawQuestion, Option<Verdict>)>
    requires |vs| == |qs|
  {
    set i | 0 <= i < |qs| :: (qs[i], vs[i])
  }

  datatype Partition = Partition(good: seq<FinalQuestion>, rejected: seq<(RawQuestion, Rejection)>)

  /** The verdict sends its question to `good` (`good`) or to `rejected` (`!good`). */
  predicate Lands(v: Option<Verdict>, good: bool) {
    v.Some? && v.value.Accepted? == good
  }

  /** The positions whose verdict sends the question to `good` (or to
      `rejected`), in increasing order. */
  function Positions(vs: seq<Option<Verdict>>, good: bool): (r: seq<nat>)
    ensures forall k :: 0 <= k < |r| ==> r[k] < |vs| && Lands(vs[r[k]], good)
    ensures forall k, l :: 0 <= k < l < |r| ==> r[k] < r[l]
    decreases |vs|
  {
    if |vs| == 0 then []
    else
      var n := |vs| - 1;
      var init := Positions(vs[..n], good);
      assert forall k :: 0 <= k < |init| ==> vs[..n][init[k]] == vs[init[k]];
      init + (if Lands(vs[n], good) then [n] else [])
  }

  /** Every position whose verdict sends the question there is listed. */
  lemma {:induction false} PositionsComplete(vs: seq<Option<Verdict>>, good: bool)
    ensures forall i :: 0 <= i < |vs| && Lands(vs[i], good) ==> i in Positions(vs, good)
    decreases |vs|
  {
    if |vs| > 0 {
      var n := |vs| - 1;
      PositionsComplete(vs[..n], good);
      assert forall i :: 0 <= i < n ==> vs[..n][i] == vs[i];
    }
  }

  /** `main`'s review loop over the raw questions and their verdicts, in
      order: accepted questions go to `good`, rejected ones with their reason
      to `rejected`; `None` when a review raised. */
  function ReviewAll(qs: seq<RawQuestion>, vs: seq<Option<Verdict>>): (r: Option<Partition>)
    requires |vs| == |qs|
    ensures r.None? <==> None in vs
    ensures r.Some? ==> |r.value.good| + |r.value.rejected| == |qs|
    ensures r.Some? ==> |r.value.good| == CountAccepted(vs)
    ensures r.Some? ==> forall k :: 0 <= k < |r.value.good| ==> Some(Accepted(r.value.good[k])) in vs
    ensures r.Some? ==> forall k :: 0 <= k < |r.value.rejected| ==>
      (r.value.rejected[k].0, Some(Rejected(r.value.rejected[k].1))) in Zip(qs, vs)
    decreases |qs|
  {
    if |qs| == 0 then Some(Partition([], []))
    else
      var n := |qs| - 1;
      ZipGrow(qs, vs);
      assert vs == vs[..n] + [vs[n]];
      match ReviewAll(qs[..n], vs[..n])
      case None => None
      case Some(p) =>
        match vs[n]
        case None => None
        case Some(Accepted(f)) => Some(Partition(p.good + [f], p.rejected))
        case Some(Rejected(why)) => Some(Partition(p.good, p.rejected + [(qs[n], why)]))
  }

  /** One step of the review loop: the last verdict extends `good` or `rejected`. */
  lemma ReviewStep(qs: seq<RawQuestion>, vs: seq<Option<Verdict>>)
    requires |vs| == |qs| > 0 && ReviewAll(qs, vs).Some?
    ensures var n := |qs| - 1;
      var r, p := ReviewAll(qs, vs).value, ReviewAll(qs[..n], vs[..n]);
      && p.Some? && vs[n].Some?
      && r.good == p.value.good + (if vs[n].value.Accepted? then [vs[n].value.question] else [])
      && r.rejected == p.value.rejected + (if vs[n].value.Rejected? then [(qs[n], vs[n].value.why)] else [])
  {
  }

  /** Extending the verdicts by one keeps the accepted questions lined up
      with the accepting positions. */
  lemma GoodExtend(vs: seq<Option<Verdict>>, init: seq<nat>, p: seq<FinalQuestion>, good: seq<FinalQuestion>)
    requires |vs| > 0 && vs[|vs| - 1].Some? && |init| == |p|
    requires forall k :: 0 <= k < |init| ==>
      init[k] < |vs| - 1 && vs[..|vs| - 1][init[k]] == Some(Accepted(p[k]))
    requires var v := vs[|vs| - 1].value;
      good == p + (if v.Accepted? then [v.question] else [])
    ensures var idx := init + (if Lands(vs[|vs| - 1], true) then [|vs| - 1] else []);
      |good| == |idx| && forall k :: 0 <= k < |idx| ==> vs[idx[k]] == Some(Accepted(good[k]))
  {
    var n := |vs| - 1;
    forall k | 0 <= k < |init| ensures vs[init[k]] == Some(Accepted(good[k])) {
      assert vs[..n][init[k]] == vs[init[k]];
    }
  }

  /** `good` holds the accepted questions in the order of their verdicts. */
  lemma {:induction false} ReviewAllGood(qs: seq<RawQuestion>, vs: seq<Option<Verdict>>)
    requires |vs| == |qs|
    ensures var r := ReviewAll(qs, vs);
      r.Some? ==> var idx := Positions(vs, true);
        && |r.value.good| == |idx|
        && forall k :: 0 <= k < |idx| ==> vs[idx[k]] == Some(Accepted(r.value.good[k]))
    decreases |qs|
  {
    if |qs| > 0 && ReviewAll(qs, vs).Some? {
      var n := |qs| - 1;
      ReviewStep(qs, vs);
      ReviewAllGood(qs[..n], vs[..n]);
      GoodExtend(vs, Positions(vs[..n], true), ReviewAll(qs[..n], vs[..n]).value.good, ReviewAll(qs, vs).value.good);
    }
  }

  /** Extending the verdicts by one keeps the rejected questions lined up
      with the rejecting positions. */
  lemma RejectedExtend(qs: seq<RawQuestion>, vs: seq<Option<Verdict>>, init: seq<nat>,
                       p: seq<(RawQuestion, Rejection)>, rejected: seq<(RawQuestion, Rejection)>)
    requires |vs| == |qs| > 0 && vs[|vs| - 1].Some? && |init| == |p|
    requires forall k :: 0 <= k < |init| ==>
      && init[k] < |vs| - 1
      && p[k].0 == qs[..|qs| - 1][init[k]] && vs[..|vs| - 1][init[k]] == Some(Rejected(p[k].1))
    requires var v := vs[|vs| - 1].value;
      rejected == p + (if v.Rejected? then [(qs[|qs| - 1], v.why)] else [])
    ensures var idx := init + (if Lands(vs[|vs| - 1], false) then [|vs| - 1] else []);
      && |rejected| == |idx|
      && forall k :: 0 <= k < |idx| ==> rejected[k].0 == qs[idx[k]] && vs[idx[k]] == Some(Rejected(rejected[k].1))
  {
    var n := |vs| - 1;
    forall k | 0 <= k < |init| ensures rejected[k].0 == qs[init[k]] && vs[init[k]] == Some(Rejected(rejected[k].1)) {
      assert vs[..n][init[k]] == vs[init[k]] && qs[..n][init[k]] == qs[init[k]];
    }
  }

  /** `rejected` holds the rejected questions, each with its reason, in the order of their verdicts. */
  lemma {:induction false} ReviewAllRejected(qs: seq<RawQuestion>, vs: seq<Option<Verdict>>)
    requires |vs| == |qs|
    ensures var r := ReviewAll(qs, vs);
      r.Some? ==> var idx := Positions(vs, false);
        && |r.value.rejected| == |idx|
        && forall k :: 0 <= k < |idx| ==>
             r.value.rejected[k].0 == qs[idx[k]] && vs[idx[k]] == Some(Rejected(r.value.rejected[k].1))
    decreases |qs|
  {
    if |qs| > 0 && ReviewAll(qs, vs).Some? {
      var n := |qs| - 1;
      ReviewStep(qs, vs);
      ReviewAllRejected(qs[..n], vs[..n]);
      RejectedExtend(qs, vs, Positions(vs[..n], false),
                     ReviewAll(qs[..n], vs[..n]).value.rejected, ReviewAll(qs, vs).value.rejected);
    }
  }

  /** The pairs of a prefix are pairs of the whole. */
  lemma ZipGrow(qs: seq<RawQuestion>, vs: seq<Option<Verdict>>)
    requires |vs| == |qs| > 0
    ensures Zip(qs, vs) == Zip(qs[..|qs| - 1], vs[..|qs| - 1]) + {(qs[|qs| - 1], vs[|qs| - 1])}
  {
    var n := |qs| - 1;
    forall x | x in Zip(qs[..n], vs[..n]) ensures x in Zip(qs, vs) {
      var i :| 0 <= i < n && x == (qs[..n][i], vs[..n][i]);
    }
    forall x | x in Zip(qs, vs) ensures x in Zip(qs[..n], vs[..n]) + {(qs[n], vs[n])} {
      var i :| 0 <= i < |qs| && x == (qs[i], vs[i]);
      if i < n {
        assert x == (qs[..n][i], vs[..n][i]);
      }
    }
  }

  /** Reviewing the questions raises exactly when reviewing one of them
      raises; the review keeps every acceptable question, rejects only
      questions that are not acceptable, each with its own verdict. */
  lemma ReviewAllExact(qs: seq<RawQuestion>, datasets: map<string, Table>, run: (string, string) -> Outcome)
    requires Loaded(datasets)
    ensures ReviewAll(qs, Verdicts(qs, datasets, run)).None? <==>
      exists i :: 0 <= i < |qs| && Raises(qs[i], datasets, run)
    ensures ReviewAll(qs, Verdicts(qs, datasets, run)).Some? ==>
      |ReviewAll(qs, Verdicts(qs, datasets, run)).value.good| == CountAcceptable(qs, datasets, run)
    ensures ReviewAll(qs, Verdicts(qs, datasets, run)).Some? ==>
      forall k :: 0 <= k < |ReviewAll(qs, Verdicts(qs, datasets, run)).value.rejected| ==>
        var (q, why) := ReviewAll(qs, Verdicts(qs, datasets, run)).value.rejected[k];
        q in qs && !Acceptable(q, datasets, run) && Judge(q, datasets, run) == Some(Rejected(why))
  {
    var vs := Verdicts(qs, datasets, run);
    var r := ReviewAll(qs, vs);
    if None in vs {
      var i :| 0 <= i < |qs| && vs[i] == None;
      assert Raises(qs[i], datasets, run);
    }
    if exists i :: 0 <= i < |qs| && Raises(qs[i], datasets, run) {
      var i :| 0 <= i < |qs| && Raises(qs[i], datasets, run);
      assert vs[i] in vs;
    }
    if r.Some? {
      CountsAgree(qs, datasets, run);
      forall k | 0 <= k < |r.value.rejected|
        ensures r.value.rejected[k].0 in qs
        ensures Judge(r.value.rejected[k].0, datasets, run) == Some(Rejected(r.value.rejected[k].1))
      {
        var i :| 0 <= i < |qs| && (qs[i], vs[i]) == (r.value.rejected[k].0, Some(Rejected(r.value.rejected[k].1)));
      }
    }
  }

  /** The accepting verdicts are exactly those of the acceptable questions. */
  lemma AcceptedPositions(qs: seq<RawQuestion>, datasets: map<string, Table>, run: (string, string) -> Outcome)
    requires Loaded(datasets)
    ensures var idx := Positions(Verdicts(qs, datasets, run), true);
      None !in Verdicts(qs, datasets, run) ==>
        forall i :: 0 <= i < |qs| ==> (i in idx <==> Acceptable(qs[i], datasets, run))
  {
    var vs := Verdicts(qs, datasets, run);
    var idx := Positions(vs, true);
    PositionsComplete(vs, true);
    if None !in vs {
      forall i | 0 <= i < |qs| && i in idx ensures Acceptable(qs[i], datasets, run) {
        var k :| 0 <= k < |idx| && idx[k] == i;
      }
      forall i | 0 <= i < |qs| && Acceptable(qs[i], datasets, run) ensures i in idx {
        assert vs[i] in vs;
      }
    }
  }

  /** Without a raising review, `good` holds the final forms of exactly the
      acceptable questions, in the order of the raw questions. */
  lemma ReviewGoodFinal(qs: seq<RawQuestion>, datasets: map<string, Table>, run: (string, string) -> Outcome)
    requires Loaded(datasets)
    ensures var vs := Verdicts(qs, datasets, run);
      var r := ReviewAll(qs, vs);
      r.Some? ==> var idx := Positions(vs, true);
        && (forall i :: 0 <= i < |qs| ==> (i in idx <==> Acceptable(qs[i], datasets, run)))
        && |r.value.good| == |idx|
        && forall k :: 0 <= k < |idx| ==>
             qs[idx[k]].dataset in datasets
             && CreateFinalQuestion(qs[idx[k]], datasets[qs[idx[k]].dataset]) == Some(r.value.good[k])
  {
    ReviewAllGood(qs, Verdicts(qs, datasets, run));
    AcceptedPositions(qs, datasets, run);
  }

  /** The rejecting verdicts are exactly those of the questions that are not acceptable. */
  lemma RejectedPositions(qs: seq<RawQuestion>, datasets: map<string, Table>, run: (string, string) -> Outcome)
    requires Loaded(datasets)
    ensures var idx := Positions(Verdicts(qs, datasets, run), false);
      None !in Verdicts(qs, datasets, run) ==>
        forall i :: 0 <= i < |qs| ==> (i in idx <==> !Acceptable(qs[i], datasets, run))
  {
    var vs := Verdicts(qs, datasets, run);
    var idx := Positions(vs, false);
    PositionsComplete(vs, false);
    if None !in vs {
      forall i | 0 <= i < |qs| && i in idx ensures !Acceptable(qs[i], datasets, run) {
        var k :| 0 <= k < |idx| && idx[k] == i;
      }
      forall i | 0 <= i < |qs| && !Acceptable(qs[i], datasets, run) ensures i in idx {
        assert vs[i] in vs;
      }
    }
  }

  /** Without a raising review, `rejected` holds exactly the questions that
      are not acceptable, each with its verdict's reason, in the order of the raw questions. */
  lemma ReviewRejectedFinal(qs: seq<RawQuestion>, datasets: map<string, Table>, run: (string, string) -> Outcome)
    requires Loaded(datasets)
    ensures var vs := Verdicts(qs, datasets, run);
      var r := ReviewAll(qs, vs);
      r.Some? ==> var idx := Positions(vs, false);
        && (forall i :: 0 <= i < |qs| ==> (i in idx <==> !Acceptable(qs[i], datasets, run)))
        && |r.value.rejected| == |idx|
        && forall k :: 0 <= k < |idx| ==>
             r.value.rejected[k].0 == qs[idx[k]] && Judge(qs[idx[k]], datasets, run) == Some(Rejected(r.value.rejected[k].1))
  {
    ReviewAllRejected(qs, Verdicts(qs, datasets, run));
    RejectedPositions(qs, datasets, run);
  }

  /** Without a raising review, the accepted questions are the acceptable ones. */
  lemma {:induction false} CountsAgree(qs: seq<RawQuestion>, datasets: map<string, Table>, run: (string, string) -> Outcome)
    requires Loaded(datasets)
    requires None !in Verdicts(qs, datasets, run)
    ensures CountAccepted(Verdicts(qs, datasets, run)) == CountAcceptable(qs, datasets, run)
    decreases |qs|
  {
    if |qs| > 0 {
      var n := |qs| - 1;
      var vs := Verdicts(qs, datasets, run);
      assert vs[..n] == Verdicts(qs[..n], datasets, run);
      assert vs[n] in vs;
      CountsAgree(qs[..n], datasets, run);
    }
  }

  /** The keys of an insertion-ordered count dictionary. */
  function Keys(counts: seq<(string, nat)>): (r: seq<string>)
    ensures |r| == |counts|
    ensures forall k :: 0 <= k < |counts| ==> r[k] == counts[k].0
  {
    seq(|counts|, k requires 0 <= k < |counts| => counts[k].0)
  }

  /** The sum of the counts. */
  function Total(counts: seq<(string, nat)>): nat
    decreases |counts|
  {
    if |counts| == 0 then 0 else Total(counts[..|counts| - 1]) + counts[|counts| - 1].1
  }

  /** Raising one count by one raises the sum by one. */
  lemma {:induction false} TotalBumped(counts: seq<(string, nat)>, i: nat)
    requires i < |counts|
    ensures Total(counts[i := (counts[i].0, counts[i].1 + 1)]) == Total(counts) + 1
    decreases |counts|
  {
    var n := |counts| - 1;
    var c := counts[i := (counts[i].0, counts[i].1 + 1)];
    assert c[..n] == if i < n then counts[..n][i := (counts[i].0, counts[i].1 + 1)] else counts[..n];
    if i < n {
      TotalBumped(counts[..n], i);
    }
  }

  /** The position of `name` among the keys from `from` on. */
  function KeyIndex(counts: seq<(string, nat)>, name: string, from: nat): (r: Option<nat>)
    ensures r.Some? ==> from <= r.value < |counts| && counts[r.value].0 == name
    ensures r.None? <==> forall j :: from <= j < |counts| ==> counts[j].0 != name
    decreases |counts| - from
  {
    if from >= |counts| then None
    else if counts[from].0 == name then Some(from)
    else KeyIndex(counts, name, from + 1)
  }

  /** `counts[name] = counts.get(name, 0) + 1` on an insertion-ordered dictionary. */
  function Bump(counts: seq<(string, nat)>, name: string): (r: seq<(string, nat)>)
    requires NoDup(Keys(counts))
    ensures Keys(r) == if name in Keys(counts) then Keys(counts) else Keys(counts) + [name]
    ensures forall k :: 0 <= k < |counts| ==> r[k].1 == counts[k].1 + (if counts[k].0 == name then 1 else 0)
    ensures |r| == if name in Keys(counts) then |counts| else |counts| + 1
    ensures forall k :: 0 <= k < |counts| ==> r[k].0 == counts[k].0
    ensures name !in Keys(counts) ==> r[|counts|] == (name, 1)
    ensures Total(r) == Total(counts) + 1
  {
    match KeyIndex(counts, name, 0)
    case Some(i) =>
      TotalBumped(counts, i);
      assert Keys(counts)[i] == name;
      forall k | 0 <= k < |counts| && k != i ensures counts[k].0 != name {
        assert Keys(counts)[k] != Keys(counts)[i];
      }
      var r := counts[i := (name, counts[i].1 + 1)];
      assert Keys(r) == Keys(counts);
      r
    case None =>
      var r := counts + [(name, 1)];
      assert r[..|counts|] == counts;
      assert Keys(r) == Keys(counts) + [name];
      r
  }

  /** The dataset of each question, in order. */
  function DatasetsOf(qs: seq<FinalQuestion>): (r: seq<string>)
    ensures |r| == |qs|
    ensures forall k :: 0 <= k < |qs| ==> r[k] == qs[k].dataset
  {
    seq(|qs|, k requires 0 <= k < |qs| => qs[k].dataset)
  }

  /** How many questions are about `name`. */
  function Occurs(qs: seq<FinalQuestion>, name: string): nat
    decreases |qs|
  {
    if |qs| == 0 then 0
    else Occurs(qs[..|qs| - 1], name) + (if qs[|qs| - 1].dataset == name then 1 else 0)
  }

  /** The `datasets` metadata of the output: one entry per dataset, in the
      order the datasets first occur. */
  function DatasetCounts(qs: seq<FinalQuestion>): (r: seq<(string, nat)>)
    ensures Keys(r) == Dedup(DatasetsOf(qs))
    ensures Total(r) == |qs|
    decreases |qs|
  {
    if |qs| == 0 then []
    else
      var init := qs[..|qs| - 1];
      var name := qs[|qs| - 1].dataset;
      assert DatasetsOf(qs) == DatasetsOf(init) + [name];
      assert DatasetsOf(qs)[..|qs| - 1] == DatasetsOf(init);
      Bump(DatasetCounts(init), name)
  }

  /** A dataset occurs among the questions exactly when one of them is about it. */
  lemma {:induction false} OccursPositive(qs: seq<FinalQuestion>, name: string)
    ensures Occurs(qs, name) > 0 <==> name in DatasetsOf(qs)
    decreases |qs|
  {
    if |qs| > 0 {
      var init := qs[..|qs| - 1];
      OccursPositive(init, name);
      assert DatasetsOf(qs) == DatasetsOf(init) + [qs[|qs| - 1].dataset];
    }
  }

  /** A dataset has an entry exactly when one of the questions is about it. */
  lemma DatasetCountsKeys(qs: seq<FinalQuestion>, name: string)
    ensures Occurs(qs, name) > 0 <==> name in Keys(DatasetCounts(qs))
  {
    OccursPositive(qs, name);
  }

  /** Each entry counts exactly that dataset's questions. */
  lemma {:induction false} DatasetCountsExact(qs: seq<FinalQuestion>)
    ensures forall k :: 0 <= k < |DatasetCounts(qs)| ==>
      DatasetCounts(qs)[k].1 == Occurs(qs, DatasetCounts(qs)[k].0)
    decreases |qs|
  {
    if |qs| > 0 {
      var init := qs[..|qs| - 1];
      var name := qs[|qs| - 1].dataset;
      var counts := DatasetCounts(init);
      var r := Bump(counts, name);
      DatasetCountsExact(init);
      assert DatasetCounts(qs) == r;
      forall k | 0 <= k < |counts| ensures r[k].1 == Occurs(qs, r[k].0) {
        assert Occurs(qs, counts[k].0) == Occurs(init, counts[k].0) + (if counts[k].0 == name then 1 else 0);
      }
      if name !in Keys(counts) {
        DatasetCountsKeys(init, name);
        assert Occurs(qs, name) == Occurs(init, name) + 1;
      }
    }
  }

  /** The file `main` writes: the accepted questions, the generation time
      carried over, their number, and the per-dataset counts. */
  datatype ReviewOutput = ReviewOutput(
    questions: seq<FinalQuestion>,
    generatedAt: string,
    totalQuestions: nat,
    datasets: seq<(string, nat)>)

  /** `main()` of the reviewer: load the datasets, review every raw question,
      and count the accepted ones per dataset. `None` when the review raises. */
  function ReviewMain(raw: seq<RawQuestion>, generatedAt: string,
                      read: string -> Option<Table>, run: (string, string) -> Outcome): (r: Option<ReviewOutput>)
    requires forall n :: read(n).Some? ==> WellFormed(read(n).value)
    ensures r.Some? ==> r.value.totalQuestions == |r.value.questions| == CountAcceptable(raw, LoadDatasets(read), run)
    ensures r.None? <==> exists i :: 0 <= i < |raw| && Raises(raw[i], LoadDatasets(read), run)
    ensures r.Some? ==> r.value.generatedAt == generatedAt
    ensures r.Some? ==> Total(r.value.datasets) == r.value.totalQuestions
    ensures r.Some? ==> forall k :: 0 <= k < |r.value.datasets| ==>
      r.value.datasets[k].0 in ReviewDatasets && r.value.datasets[k].1 == Occurs(r.value.questions, r.value.datasets[k].0)
  {
    var datasets := LoadDatasets(read);
    ReviewAllExact(raw, datasets, run);
    match ReviewAll(raw, Verdicts(raw, datasets, run))
    case None => None
    case Some(p) =>
      var counts := DatasetCounts(p.good);
      DatasetCountsExact(p.good);
      AcceptedLoaded(raw, datasets, run, p.good);
      CountedDatasetsLoaded(p.good, datasets);
      Some(ReviewOutput(p.good, generatedAt, |p.good|, counts))
  }

  /** The questions `main()` writes are exactly the final forms of the
      acceptable raw questions, in their original order. */
  lemma ReviewMainQuestions(raw: seq<RawQuestion>, generatedAt: string,
                            read: string -> Option<Table>, run: (string, string) -> Outcome)
    requires forall n :: read(n).Some? ==> WellFormed(read(n).value)
    ensures var r := ReviewMain(raw, generatedAt, read, run);
      r.Some? ==>
      var ds := LoadDatasets(read);
      var qs := r.value.questions;
      var idx := Positions(Verdicts(raw, ds, run), true);
      && (forall i :: 0 <= i < |raw| ==> (i in idx <==> Acceptable(raw[i], ds, run)))
      && |qs| == |idx|
      && forall k :: 0 <= k < |idx| ==>
           raw[idx[k]].dataset in ds && CreateFinalQuestion(raw[idx[k]], ds[raw[idx[k]].dataset]) == Some(qs[k])
  {
    ReviewGoodFinal(raw, LoadDatasets(read), run);
  }

  /** Every dataset the counts name is one of the questions' datasets. */
  lemma CountedDatasetsLoaded(qs: seq<FinalQuestion>, datasets: map<string, Table>)
    requires forall k :: 0 <= k < |qs| ==> qs[k].dataset in datasets
    ensures forall k :: 0 <= k < |DatasetCounts(qs)| ==> DatasetCounts(qs)[k].0 in datasets
  {
    var counts := DatasetCounts(qs);
    forall k | 0 <= k < |counts| ensures counts[k].0 in datasets {
      assert Keys(counts)[k] in DatasetsOf(qs);
    }
  }

  /** Accepted questions are about loaded datasets. */
  lemma AcceptedLoaded(qs: seq<RawQuestion>, datasets: map<string, Table>, run: (string, string) -> Outcome,
                       good: seq<FinalQuestion>)
    requires Loaded(datasets)
    requires forall k :: 0 <= k < |good| ==> Some(Accepted(good[k])) in Verdicts(qs, datasets, run)
    ensures forall k :: 0 <= k < |good| ==> good[k].dataset in datasets
  {
    var vs := Verdicts(qs, datasets, run);
    forall k | 0 <= k < |good| ensures good[k].dataset in datasets {
      var i :| 0 <= i < |vs| && vs[i] == Some(Accepted(good[k]));
      assert Judge(qs[i], datasets, run) == Some(Accepted(good[k]));
    }
  }
}
