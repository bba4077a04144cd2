/** The raw question bank of `generate_question_bank.py`: its own column
    analysis, the exhaustive (column, template[, other column]) enumeration,
    literal binding, and the recording of each snippet's outcome. Running
    a snippet is the caller-supplied `run`, which maps a dataset name and
    a code string to what `eval` gives back. */
module QuestionBank {
  import opened Wrappers
  import opened Text
  import opened Tables
  import opened Capabilities
  import opened Templates
  import opened CatalogBank
  import opened Execution

  /** How many present values this analysis keeps as samples. */
  const BankSampleLimit: nat := 5

  /** `analyze_column(df, col)` of the question bank: as the other
      generator's analysis, but with `can_rank` in place of `can_sort`, five
      samples, and no `can_filter`. An empty table divides by zero. */
  function AnalyzeBank(c: Column): (p: Profile)
    requires |c.cells| > 0
    ensures p.name == c.name && p.kind == c.kind
    ensures p.uniqueCount == UniqueCount(c.cells) && p.nullCount == NullCount(c.cells)
    ensures |p.samples| == if |NonMissing(c.cells)| < BankSampleLimit then |NonMissing(c.cells)| else BankSampleLimit
    ensures forall i :: 0 <= i < |p.samples| ==> p.samples[i] == NonMissing(c.cells)[i]
    ensures IsNumeric in p.flags <==> c.kind == Numeric
    ensures IsCategorical in p.flags <==> c.kind == Categorical
    ensures IsIdentifier in p.flags <==>
      c.kind == Numeric && (MostlyUnique(p.uniqueCount, |c.cells|) || IdentifierName(c.name))
    ensures CanRank in p.flags <==> c.kind == Numeric
    ensures CanSum in p.flags <==> c.kind == Numeric && IsIdentifier !in p.flags
    ensures CanMean in p.flags <==> c.kind == Numeric && IsIdentifier !in p.flags
    ensures CanGroupBy in p.flags <==> c.kind == Categorical && FewDistinct(p.uniqueCount, |c.cells|)
    ensures CanValueCount in p.flags <==> c.kind == Categorical
    ensures CanSort !in p.flags && CanFilter !in p.flags
  {
    var u := UniqueCount(c.cells);
    var n := |c.cells|;
    var flags :=
      match c.kind
      case Numeric => BankNumericFlags(MostlyUnique(u, n) || IdentifierName(c.name))
      case Categorical => BankCategoricalFlags(FewDistinct(u, n));
    Profile(c.name, c.kind, u, NullCount(c.cells), Samples(c.cells, BankSampleLimit), flags)
  }

  /** The flags of a numeric column: identifiers lose summing and averaging but keep ranking. */
  function BankNumericFlags(identifier: bool): (f: set<Capability>)
    ensures IsNumeric in f && CanRank in f
    ensures IsIdentifier in f <==> identifier
    ensures CanSum in f <==> !identifier
    ensures CanMean in f <==> !identifier
    ensures IsCategorical !in f && CanSort !in f && CanGroupBy !in f
    ensures CanValueCount !in f && CanFilter !in f
  {
    if identifier then {IsNumeric, CanRank, IsIdentifier} else {IsNumeric, CanSum, CanMean, CanRank}
  }

  /** The flags of a categorical column: grouping only when few values are distinct. */
  function BankCategoricalFlags(groupable: bool): (f: set<Capability>)
    ensures IsCategorical in f && CanValueCount in f
    ensures CanGroupBy in f <==> groupable
    ensures IsNumeric !in f && IsIdentifier !in f && CanSort !in f && CanRank !in f
    ensures CanSum !in f && CanMean !in f && CanFilter !in f
  {
    {IsCategorical, CanValueCount} + (if groupable then {CanGroupBy} else {})
  }

  /** `column_analysis`, one analysis per column in table order. */
  function BankProfiles(t: Table): (ps: seq<Profile>)
    requires WellFormed(t) && (|t.columns| == 0 || t.rowCount > 0)
    ensures |ps| == |t.columns|
    ensures forall i :: 0 <= i < |ps| ==> ps[i] == AnalyzeBank(t.columns[i])
  {
    seq(|t.columns|, i requires 0 <= i < |t.columns| => AnalyzeBank(t.columns[i]))
  }

  /** The six dataset names whose entity noun is written out. */
  const BankEntities: map<string, string> := map[
    "powerplants.csv" := "power plant",
    "motorcycles.csv" := "motorcycle",
    "foods.csv" := "pet food product",
    "grammys.csv" := "Grammy nomination",
    "race-places.csv" := "race result",
    "tickets-tiny.csv" := "traffic stop"]

  /** The entity noun: a written-out name, or else the dataset name without
      `.csv` and with every trailing "s" stripped (`rstrip('s')`). */
  function BankEntity(dataset: string): (r: string)
    ensures dataset in BankEntities ==> r == BankEntities[dataset]
    ensures dataset !in BankEntities ==>
      && StartsWith(RemoveAll(dataset, ".csv"), r)
      && (|r| == 0 || r[|r| - 1] != 's')
      && forall i :: |r| <= i < |RemoveAll(dataset, ".csv")| ==> RemoveAll(dataset, ".csv")[i] == 's'
  {
    if dataset in BankEntities then BankEntities[dataset] else RStrip(RemoveAll(dataset, ".csv"), 's')
  }

  /** `rstrip('s')` removes every trailing "s", not just a plural one. */
  lemma BankEntityStripsAll()
    ensures BankEntity("glass.csv") == "gla"
  {
    GlassWithoutCsv();
    GlassStripped();
    assert "glass.csv" !in BankEntities.Keys;
  }

  lemma GlassWithoutCsv()
    ensures RemoveAll("glass.csv", ".csv") == "glass"
  {
    assert !StartsWith("glass", ".csv") by { assert "glass"[..4][0] != ".csv"[0]; }
    assert !StartsWith("lass", ".csv") by { assert "lass"[..4][0] != ".csv"[0]; }
    assert "glass"[1..] == "lass";
    assert "lass"[1..] == "ass";
    RemoveCsvSuffix("glass");
    assert "glass.csv" == "glass" + ".csv";
  }

  lemma GlassStripped()
    ensures RStrip("glass", 's') == "gla"
  {
    assert "glass"[..4] == "glas" && "glas"[..3] == "gla";
    assert RStrip("gla", 's') == "gla";
    assert RStrip("glas", 's') == "gla";
  }

  /** The code operand `needs_value` passes for value `v` AS WRITTEN: quoted
      again for a non-numeric column, although the `filter_equals` template
      already quotes it. */
  function CodeValueAsWritten(p: Profile, v: Value): (s: string)
    ensures IsNumeric in p.flags ==> s == Show(v)
    ensures IsNumeric !in p.flags ==> |s| == |Show(v)| + 2 && s[0] == '\'' && s[|s| - 1] == '\''
  {
    if IsNumeric in p.flags then Show(v) else "'" + Show(v) + "'"
  }

  /** The code operand with the quoting left to the template, as the
      catalog's patterns expect; the rest of the model uses this one. */
  function CodeValue(v: Value): (s: string)
    ensures s == Show(v)
  {
    Show(v)
  }

  /** A Python string literal in single quotes with no quote inside. */
  predicate SingleQuoted(s: string) {
    |s| >= 2 && s[0] == '\'' && s[|s| - 1] == '\'' && '\'' !in s[1..|s| - 1]
  }

  /** `filter_equals` renders its value between the template's own quotes. */
  lemma FilterEqualsRenders(col: string, arg: string)
    ensures Fillable(FilterEqualsCode(), {ColumnHole, ValueHole})
    ensures Render(FilterEqualsCode(), map[ColumnHole := col, ValueHole := arg])
      == "len(df[df['" + col + "'] == " + ("'" + arg + "'") + "])"
  {
    var env := map[ColumnHole := col, ValueHole := arg];
    var p := FilterEqualsCode();
    assert RenderFrom(p, 4, env) == "'])";
    assert RenderFrom(p, 3, env) == arg + "'])";
    assert RenderFrom(p, 2, env) == "'] == '" + arg + "'])";
    assert RenderFrom(p, 1, env) == col + "'] == '" + arg + "'])";
  }

  /** As written, the compared operand of every `filter_equals` snippet is
      `''v''`: two empty strings around a bare name, not one string literal,
      so `eval` raises `SyntaxError` and the record is an error. */
  lemma FilterEqualsAsWrittenBroken(p: Profile, v: Value)
    requires IsNumeric !in p.flags
    ensures !SingleQuoted("'" + CodeValueAsWritten(p, v) + "'")
  {
    var s := "'" + CodeValueAsWritten(p, v) + "'";
    assert s[1] == '\'' && 1 < |s| - 1;
    assert s[1..|s| - 1][0] == '\'';
  }

  /** With the corrected operand the compared value is one string literal
      whenever the value itself holds no quote. */
  lemma FilterEqualsCorrected(v: Value)
    requires '\'' !in Show(v)
    ensures SingleQuoted("'" + CodeValue(v) + "'")
  {
    var s := "'" + CodeValue(v) + "'";
    assert s[1..|s| - 1] == Show(v);
  }

  /** The literal step of a single-column template succeeds: a value needs
      some sample, a substring needs a first sample that is a string. */
  predicate Bindable(t: Template, p: Profile) {
    match t.literal
    case OneValue => |p.samples| > 0
    case SubstringOfSample => |p.samples| > 0 && p.samples[0].Str?
    case _ => true
  }

  /** One (column, template[, other column]) the loops visit and keep. */
  datatype Pick = Pick(column: nat, template: nat, other: Option<nat>)

  /** The loops keep a pick exactly when the column meets every `requires`
      key, and either the single-column literal can be bound, or the other
      column is a different column meeting some `requires_other` key. */
  predicate BankSound(ps: seq<Profile>, ts: seq<Template>, c: Pick) {
    && c.column < |ps| && c.template < |ts|
    && AllHold(ps[c.column], ts[c.template].required)
    && match ts[c.template].requiredOther
       case None => c.other.None? && Bindable(ts[c.template], ps[c.column])
       case Some(reqs) =>
         && c.other.Some? && c.other.value < |ps| && c.other.value != c.column
         && AnyHolds(ps[c.other.value], reqs)
  }

  /** Loop order: by column, then template, then other column. */
  predicate Before(a: Pick, b: Pick) {
    || a.column < b.column
    || (a.column == b.column && a.template < b.template)
    || (a.column == b.column && a.template == b.template && a.other.Some? && b.other.Some? && a.other.value < b.other.value)
  }

  predicate Ordered(cs: seq<Pick>) {
    forall k, l :: 0 <= k < l < |cs| ==> Before(cs[k], cs[l])
  }

  /** The inner loop over other columns, from position `oi` on. */
  function BankPairs(ps: seq<Profile>, ts: seq<Template>, ci: nat, ti: nat, oi: nat): (r: seq<Pick>)
    requires ci < |ps| && ti < |ts| && ts[ti].requiredOther.Some? && AllHold(ps[ci], ts[ti].required)
    requires oi <= |ps|
    ensures forall c :: c in r <==>
      c.column == ci && c.template == ti && c.other.Some? && oi <= c.other.value && BankSound(ps, ts, c)
    ensures Ordered(r)
    decreases |ps| - oi
  {
    if oi == |ps| then []
    else
      var rest := BankPairs(ps, ts, ci, ti, oi + 1);
      if oi != ci && AnyHolds(ps[oi], ts[ti].requiredOther.value) then [Pick(ci, ti, Some(oi))] + rest
      else rest
  }

  /** One template against one column. */
  function BankTemplatePicks(ps: seq<Profile>, ts: seq<Template>, ci: nat, ti: nat): (r: seq<Pick>)
    requires ci < |ps| && ti < |ts|
    ensures forall c :: c in r <==> c.column == ci && c.template == ti && BankSound(ps, ts, c)
    ensures Ordered(r)
  {
    if !AllHold(ps[ci], ts[ti].required) then []
    else if ts[ti].requiredOther.None? then
      if Bindable(ts[ti], ps[ci]) then [Pick(ci, ti, None)] else []
    else BankPairs(ps, ts, ci, ti, 0)
  }

  /** The templates from position `ti` on against one column. */
  function BankTemplates(ps: seq<Profile>, ts: seq<Template>, ci: nat, ti: nat): (r: seq<Pick>)
    requires ci < |ps| && ti <= |ts|
    ensures forall c :: c in r <==> c.column == ci && ti <= c.template && BankSound(ps, ts, c)
    ensures Ordered(r)
    decreases |ts| - ti
  {
    if ti == |ts| then []
    else
      var here := BankTemplatePicks(ps, ts, ci, ti);
      var rest := BankTemplates(ps, ts, ci, ti + 1);
      assert forall k, l :: 0 <= k < |here| && 0 <= l < |rest| ==> Before(here[k], rest[l]) by {
        forall k, l | 0 <= k < |here| && 0 <= l < |rest|
          ensures Before(here[k], rest[l])
        {
          assert here[k] in here && rest[l] in rest;
        }
      }
      here + rest
  }

  /** The outer loop over columns from position `ci` on; identifier columns are not skipped. */
  function BankColumns(ps: seq<Profile>, ts: seq<Template>, ci: nat): (r: seq<Pick>)
    requires ci <= |ps|
    ensures forall c :: c in r <==> ci <= c.column && BankSound(ps, ts, c)
    ensures Ordered(r)
    decreases |ps| - ci
  {
    if ci == |ps| then []
    else
      var here := BankTemplates(ps, ts, ci, 0);
      var rest := BankColumns(ps, ts, ci + 1);
      assert forall k, l :: 0 <= k < |here| && 0 <= l < |rest| ==> Before(here[k], rest[l]) by {
        forall k, l | 0 <= k < |here| && 0 <= l < |rest|
          ensures Before(here[k], rest[l])
        {
          assert here[k] in here && rest[l] in rest;
        }
      }
      here + rest
  }

  /** The arguments a kept pick supplies beyond the entity and column names. */
  datatype BankArg =
    | NoArg
    | ValueArg(shown: string, coded: string)   // the value in the question and in the code
    | SubstringArg(text: string)
    | OtherArg(name: string)

  /** The argument is the kind the template's placeholders ask for. */
  predicate BankFits(t: Template, b: BankArg) {
    match b
    case OtherArg(_) => t.requiredOther.Some?
    case ValueArg(_, _) => t.requiredOther.None? && t.literal == OneValue
    case SubstringArg(_) => t.requiredOther.None? && t.literal == SubstringOfSample
    case NoArg => t.requiredOther.None? && t.literal == NoLiteral
  }

  /** The literal a single-column template binds, or the other column's name. */
  function BankBind(t: Template, p: Profile, other: Option<string>): (b: BankArg)
    requires BankUsable(t) && (t.requiredOther.Some? <==> other.Some?)
    requires other.None? ==> Bindable(t, p)
    ensures BankFits(t, b)
    ensures other.Some? ==> b == OtherArg(other.value)
    ensures b.ValueArg? ==> b.shown == Show(p.samples[0]) && b.coded == CodeValue(p.samples[0])
    ensures b.SubstringArg? ==>
      p.samples[0].Str? && StartsWith(p.samples[0].text, b.text) && |b.text| == Min(3, |p.samples[0].text|)
  {
    if other.Some? then OtherArg(other.value)
    else match t.literal
      case OneValue => ValueArg(Show(p.samples[0]), CodeValue(p.samples[0]))
      case SubstringOfSample => SubstringArg(Take(p.samples[0].text, 3))
      case _ => NoArg
  }

  function Min(a: nat, b: nat): nat {
    if a < b then a else b
  }

  /** The keyword arguments of `template['template'].format(...)`. */
  function BankQuestionEnv(t: Template, entity: string, col: string, b: BankArg): (env: map<Hole, string>)
    ensures BankFits(t, b) ==> env.Keys == BankQuestionKeys(t)
  {
    match b
    case NoArg => map[EntityHole := entity, ColumnHole := col]
    case ValueArg(v, _) => map[EntityHole := entity, ColumnHole := col, ValueHole := v]
    case SubstringArg(x) => map[EntityHole := entity, ColumnHole := col, SubstringHole := x]
    case OtherArg(o) => map[EntityHole := entity, ColumnHole := col, OtherColumnHole := o]
  }

  /** The keyword arguments of `template['code_template'].format(...)`. */
  function BankCodeEnv(t: Template, col: string, b: BankArg): (env: map<Hole, string>)
    ensures BankFits(t, b) ==> env.Keys == BankCodeKeys(t)
    ensures ColumnHole in env && env[ColumnHole] == col
  {
    match b
    case NoArg => map[ColumnHole := col]
    case ValueArg(_, v) => map[ColumnHole := col, ValueHole := v]
    case SubstringArg(x) => map[ColumnHole := col, SubstringHole := x]
    case OtherArg(o) => map[ColumnHole := col, OtherColumnHole := o]
  }

  /** The rendered question shows the bound literal. */
  function BankRenderQuestion(t: Template, entity: string, col: string, b: BankArg): (q: string)
    requires BankUsable(t) && BankFits(t, b)
    ensures b.ValueArg? ==> Contains(q, b.shown)
    ensures b.SubstringArg? ==> Contains(q, b.text)
  {
    var env := BankQuestionEnv(t, entity, col, b);
    match b
    case ValueArg(_, _) =>
      var k :| 0 <= k < |t.question| && t.question[k] == Val;
      RenderMentions(t.question, env, k);
      Render(t.question, env)
    case SubstringArg(_) =>
      var k :| 0 <= k < |t.question| && t.question[k] == Sub;
      RenderMentions(t.question, env, k);
      Render(t.question, env)
    case _ => Render(t.question, env)
  }

  /** The rendered code names the column and the bound literal. */
  function BankRenderCode(t: Template, col: string, b: BankArg): (code: string)
    requires BankUsable(t) && BankFits(t, b)
    ensures Contains(code, col)
    ensures b.ValueArg? ==> Contains(code, b.coded)
    ensures b.SubstringArg? ==> Contains(code, b.text)
    ensures b.OtherArg? && OtherCol in t.code ==> Contains(code, b.name)
  {
    var env := BankCodeEnv(t, col, b);
    var kc :| 0 <= kc < |t.code| && t.code[kc] == Col;
    RenderMentions(t.code, env, kc);
    match b
    case ValueArg(_, _) =>
      var k :| 0 <= k < |t.code| && t.code[k] == Val;
      RenderMentions(t.code, env, k);
      Render(t.code, env)
    case SubstringArg(_) =>
      var k :| 0 <= k < |t.code| && t.code[k] == Sub;
      RenderMentions(t.code, env, k);
      Render(t.code, env)
    case OtherArg(_) =>
      if OtherCol in t.code then
        var k :| 0 <= k < |t.code| && t.code[k] == OtherCol;
        RenderMentions(t.code, env, k);
        Render(t.code, env)
      else Render(t.code, env)
    case NoArg => Render(t.code, env)
  }

  datatype Status = Valid | Failed   // 'valid' / 'error'

  /** One record of the raw bank. */
  datatype RawQuestion = RawQuestion(
    dataset: string,
    templateId: string,
    column: string,
    other: Option<string>,
    question: string,
    code: string,
    difficulty: nat,
    result: string,
    status: Status)

  /** How many characters of `str(result)` a record keeps. */
  const ResultLimit: nat := 200

  /** The `try`/`except` around `eval`: the printed result cut to 200
      characters with status 'valid', or the exception text after "Error: "
      with status 'error'. */
  function Recorded(o: Outcome): (r: (string, Status))
    ensures r.1 == Valid <==> o.Returned?
    ensures o.Returned? ==> |r.0| <= ResultLimit && StartsWith(o.answer.shown, r.0)
    ensures o.Returned? && |o.answer.shown| <= ResultLimit ==> r.0 == o.answer.shown
    ensures o.Returned? && |o.answer.shown| > ResultLimit ==> |r.0| == ResultLimit
    ensures o.Raised? ==> StartsWith(r.0, "Error: ") && r.0[7..] == o.message
  {
    match o
    case Returned(a) => (Take(a.shown, ResultLimit), Valid)
    case Raised(m) => ("Error: " + m, Failed)
  }

  /** `q` is the record of pick `c` in dataset `name`: same template, column,
      other column and difficulty. */
  predicate Describes(name: string, t: Table, ts: seq<Template>, q: RawQuestion, c: Pick)
    requires c.column < |t.columns| && c.template < |ts|
    requires c.other.Some? ==> c.other.value < |t.columns|
  {
    && q.dataset == name
    && q.templateId == ts[c.template].id
    && q.column == t.columns[c.column].name
    && q.other == (if c.other.Some? then Some(t.columns[c.other.value].name) else None)
    && q.difficulty == ts[c.template].difficulty
  }

  /** The record the loop body appends for a kept pick. */
  function BankRecordFor(name: string, t: Table, ps: seq<Profile>, ts: seq<Template>, entity: string,
                         run: (string, string) -> Outcome, c: Pick): (q: RawQuestion)
    requires |ps| == |t.columns| && BankUsableCatalog(ts) && BankSound(ps, ts, c)
    ensures Describes(name, t, ts, q, c)
    ensures (q.result, q.status) == Recorded(run(name, q.code))
    ensures q.status == Valid <==> run(name, q.code).Returned?
    ensures q.status == Valid ==> |q.result| <= ResultLimit
    ensures q.status == Failed ==> StartsWith(q.result, "Error: ")
    ensures Contains(q.code, q.column)
    ensures ts[c.template].literal == OneValue ==>
      Contains(q.question, Show(ps[c.column].samples[0])) && Contains(q.code, CodeValue(ps[c.column].samples[0]))
    ensures ts[c.template].literal == SubstringOfSample ==>
      Contains(q.code, Take(ps[c.column].samples[0].text, 3))
  {
    var tm := ts[c.template];
    assert BankUsable(tm);
    var col := t.columns[c.column].name;
    var other := if c.other.Some? then Some(t.columns[c.other.value].name) else None;
    var b := BankBind(tm, ps[c.column], other);
    var code := BankRenderCode(tm, col, b);
    var (result, status) := Recorded(run(name, code));
    RawQuestion(name, tm.id, col, other, BankRenderQuestion(tm, entity, col, b), code,
      tm.difficulty, result, status)
  }

  /** The records of a sequence of kept picks, in order. */
  function BankBuild(name: string, t: Table, ps: seq<Profile>, ts: seq<Template>, entity: string,
                     run: (string, string) -> Outcome, cs: seq<Pick>): (qs: seq<RawQuestion>)
    requires |ps| == |t.columns| && BankUsableCatalog(ts)
    requires forall k :: 0 <= k < |cs| ==> BankSound(ps, ts, cs[k])
    ensures |qs| == |cs|
    ensures forall k :: 0 <= k < |qs| ==> qs[k] == BankRecordFor(name, t, ps, ts, entity, run, cs[k])
  {
    seq(|cs|, k requires 0 <= k < |cs| => BankRecordFor(name, t, ps, ts, entity, run, cs[k]))
  }

  /** The picks the loops keep for a table. */
  function BankPicks(t: Table, ts: seq<Template>): (cs: seq<Pick>)
    requires WellFormed(t) && (|t.columns| == 0 || t.rowCount > 0)
    ensures forall c :: c in cs <==> BankSound(BankProfiles(t), ts, c)
    ensures Ordered(cs)
  {
    BankColumns(BankProfiles(t), ts, 0)
  }

  /** Every kept pick, by position, is one the template rules allow. */
  lemma BankPicksSound(t: Table, ts: seq<Template>)
    requires WellFormed(t) && (|t.columns| == 0 || t.rowCount > 0)
    ensures forall k :: 0 <= k < |BankPicks(t, ts)| ==> BankSound(BankProfiles(t), ts, BankPicks(t, ts)[k])
  {
    var cs := BankPicks(t, ts);
    forall k | 0 <= k < |cs| ensures BankSound(BankProfiles(t), ts, cs[k]) {
      assert cs[k] in cs;
    }
  }

  /** The records of `generate_questions_for_dataset` for a table with rows. */
  function BankRecords(name: string, t: Table, ts: seq<Template>, run: (string, string) -> Outcome): (qs: seq<RawQuestion>)
    requires WellFormed(t) && (|t.columns| == 0 || t.rowCount > 0) && BankUsableCatalog(ts)
    ensures |qs| == |BankPicks(t, ts)|
    ensures forall k :: 0 <= k < |qs| ==> Describes(name, t, ts, qs[k], BankPicks(t, ts)[k])
    ensures forall k :: 0 <= k < |qs| ==> (qs[k].result, qs[k].status) == Recorded(run(name, qs[k].code))
    ensures forall k :: 0 <= k < |qs| ==> (qs[k].status == Valid <==> run(name, qs[k].code).Returned?)
    ensures forall k :: 0 <= k < |qs| && qs[k].status == Valid ==> |qs[k].result| <= ResultLimit
    ensures forall k :: 0 <= k < |qs| && qs[k].status == Failed ==> StartsWith(qs[k].result, "Error: ")
  {
    BankPicksSound(t, ts);
    BankBuild(name, t, BankProfiles(t), ts, BankEntity(name), run, BankPicks(t, ts))
  }

  /** `generate_questions_for_dataset(csv_path, dataset_name)`: `None` when
      the analysis divides by zero (columns but no rows). */
  function BankForDataset(name: string, t: Table, ts: seq<Template>, run: (string, string) -> Outcome): (r: Option<seq<RawQuestion>>)
    requires WellFormed(t) && BankUsableCatalog(ts)
    ensures r.None? <==> |t.columns| > 0 && t.rowCount == 0
    ensures r.Some? ==> r.value == BankRecords(name, t, ts, run)
  {
    if |t.columns| > 0 && t.rowCount == 0 then None else Some(BankRecords(name, t, ts, run))
  }

  /** Every kept pick has its record, and every record is that of a kept pick. */
  lemma BankRecordsExact(name: string, t: Table, ts: seq<Template>, run: (string, string) -> Outcome, c: Pick)
    requires WellFormed(t) && (|t.columns| == 0 || t.rowCount > 0) && BankUsableCatalog(ts)
    ensures BankSound(BankProfiles(t), ts, c) ==>
      exists k :: 0 <= k < |BankRecords(name, t, ts, run)| && BankPicks(t, ts)[k] == c
        && Describes(name, t, ts, BankRecords(name, t, ts, run)[k], c)
    ensures forall k :: 0 <= k < |BankRecords(name, t, ts, run)| ==> BankSound(BankProfiles(t), ts, BankPicks(t, ts)[k])
  {
    var cs := BankPicks(t, ts);
    if BankSound(BankProfiles(t), ts, c) {
      var k :| 0 <= k < |cs| && cs[k] == c;
    }
    BankPicksSound(t, ts);
  }

  /** A template that asks its other column for the key 'any', which no
      analysis has, never produces a record: with the script's catalog,
      `groupby_count` never does. */
  lemma BankNoGroupbyCount(name: string, t: Table, ts: seq<Template>, run: (string, string) -> Outcome)
    requires WellFormed(t) && (|t.columns| == 0 || t.rowCount > 0) && BankUsableCatalog(ts)
    requires GroupbyCountAsksAny(ts)
    ensures forall k :: 0 <= k < |BankRecords(name, t, ts, run)| ==> BankRecords(name, t, ts, run)[k].templateId != "groupby_count"
  {
    BankPicksSound(t, ts);
  }

  /** Identifier columns are not skipped, but they never seed an average or a total. */
  lemma BankAggregatesSkipIdentifiers(name: string, t: Table, ts: seq<Template>, run: (string, string) -> Outcome)
    requires WellFormed(t) && (|t.columns| == 0 || t.rowCount > 0) && BankUsableCatalog(ts)
    requires AggregatesNeedFlags(ts)
    ensures forall k ::
      (0 <= k < |BankRecords(name, t, ts, run)| && BankRecords(name, t, ts, run)[k].templateId in {"mean_simple", "sum_simple"}) ==>
      IsIdentifier !in BankProfiles(t)[BankPicks(t, ts)[k].column].flags
  {
    var cs := BankPicks(t, ts);
    var ps := BankProfiles(t);
    BankPicksSound(t, ts);
    forall k | 0 <= k < |cs| && ts[cs[k].template].id in {"mean_simple", "sum_simple"}
      ensures IsIdentifier !in ps[cs[k].column].flags
    {
      var c := cs[k];
      var req := ts[c.template].required;
      if ts[c.template].id == "mean_simple" {
        var i :| 0 <= i < |req| && req[i] == Flag(CanMean);
        assert Holds(ps[c.column], req[i]);
      } else {
        var i :| 0 <= i < |req| && req[i] == Flag(CanSum);
        assert Holds(ps[c.column], req[i]);
      }
    }
  }

  /** The datasets `main` looks for, in order. */
  const BankDatasets: seq<string> := [
    "powerplants.csv", "motorcycles.csv", "foods.csv", "grammys.csv", "race-places.csv", "tickets-tiny.csv"]

  /** Every dataset `main` looks for has a written-out entity noun. */
  lemma BankDatasetsNamed()
    ensures forall k :: 0 <= k < |BankDatasets| ==> BankDatasets[k] in BankEntities
  {
  }

  /** What `main` finds at a dataset path: no file (`os.path.exists` is
      false), a file `pd.read_csv` cannot parse, or a parsed table. */
  datatype BankContents = Absent | Unparsable | Parsed(table: Table)

  datatype BankFile = BankFile(name: string, contents: BankContents)

  predicate BankFilesWellFormed(files: seq<BankFile>) {
    forall j :: 0 <= j < |files| && files[j].contents.Parsed? ==> WellFormed(files[j].contents.table)
  }

  /** An existing file that ends the run: `pd.read_csv` raises on it, or its
      table has columns but no rows and the analysis divides by zero. */
  predicate Crashes(f: BankFile) {
    match f.contents
    case Absent => false
    case Unparsable => true
    case Parsed(t) => |t.columns| > 0 && t.rowCount == 0
  }

  /** What file `f` adds to the pool: nothing when it is missing, its
      records when it parses and analyses, `None` when it ends the run. */
  function FileResult(f: BankFile, ts: seq<Template>, run: (string, string) -> Outcome): (r: Option<seq<RawQuestion>>)
    requires f.contents.Parsed? ==> WellFormed(f.contents.table)
    requires BankUsableCatalog(ts)
    ensures r.None? <==> Crashes(f)
    ensures r.Some? && |r.value| > 0 ==> f.contents.Parsed?
    ensures r.Some? ==> forall k :: 0 <= k < |r.value| ==> r.value[k].dataset == f.name
  {
    match f.contents
    case Absent => Some([])
    case Unparsable => None
    case Parsed(t) => FileRecords(f.name, t, ts, run)
  }

  /** Each file's result, file by file. */
  function FileResults(files: seq<BankFile>, ts: seq<Template>, run: (string, string) -> Outcome)
    : (r: seq<Option<seq<RawQuestion>>>)
    requires BankFilesWellFormed(files) && BankUsableCatalog(ts)
    ensures |r| == |files|
    ensures forall j :: 0 <= j < |files| ==> r[j] == FileResult(files[j], ts, run)
  {
    seq(|files|, j requires 0 <= j < |files| => FileResult(files[j], ts, run))
  }

  /** Each file's records, file by file; none for a missing file. */
  function FileBlocks(files: seq<BankFile>, ts: seq<Template>, run: (string, string) -> Outcome)
    : (r: seq<seq<RawQuestion>>)
    requires BankFilesWellFormed(files) && BankUsableCatalog(ts)
    ensures |r| == |files|
    ensures forall j :: 0 <= j < |files| ==> r[j] == FileResult(files[j], ts, run).GetOr([])
  {
    seq(|files|, j requires 0 <= j < |files| => FileResult(files[j], ts, run).GetOr([]))
  }

  /** The records `main` collects from files `i..`. `main` has no `try`, so
      one failing dataset ends the whole run (`None`); missing files are
      passed over. */
  function BankPool(files: seq<BankFile>, i: nat, ts: seq<Template>, run: (string, string) -> Outcome): (r: Option<seq<RawQuestion>>)
    requires BankFilesWellFormed(files) && BankUsableCatalog(ts)
    ensures r.None? <==> exists j :: i <= j < |files| && Crashes(files[j])
    ensures r.Some? ==> forall k :: 0 <= k < |r.value| ==> r.value[k].dataset in FoundNames(files, i)
  {
    var parts := FileResults(files, ts, run);
    BankPoolNames(files, i, ts, run);
    JoinAll(parts, i)
  }

  /** Every record of the joined pool comes from a found file from `i` on. */
  lemma BankPoolNames(files: seq<BankFile>, i: nat, ts: seq<Template>, run: (string, string) -> Outcome)
    requires BankFilesWellFormed(files) && BankUsableCatalog(ts)
    ensures var r := JoinAll(FileResults(files, ts, run), i);
      r.Some? ==> forall k :: 0 <= k < |r.value| ==> r.value[k].dataset in FoundNames(files, i)
  {
    var parts := FileResults(files, ts, run);
    var blocks := FileBlocks(files, ts, run);
    var r := JoinAll(parts, i);
    if r.Some? {
      if i <= |files| {
        JoinAllConcat(parts, blocks, i);
      }
      forall k | 0 <= k < |r.value| ensures r.value[k].dataset in FoundNames(files, i) {
        var j :| i <= j < |blocks| && r.value[k] in blocks[j];
        var m :| 0 <= m < |blocks[j]| && blocks[j][m] == r.value[k];
        assert files[j].contents.Parsed?;
      }
    }
  }

  /** The records of one parsed file, all of them labelled with its name. */
  function FileRecords(name: string, t: Table, ts: seq<Template>, run: (string, string) -> Outcome): (r: Option<seq<RawQuestion>>)
    requires WellFormed(t) && BankUsableCatalog(ts)
    ensures r.None? <==> |t.columns| > 0 && t.rowCount == 0
    ensures r.Some? ==> forall k :: 0 <= k < |r.value| ==> r.value[k].dataset == name
  {
    BankForDataset(name, t, ts, run)
  }

  /** The names of the files from position `i` on that exist and parse. */
  function FoundNames(files: seq<BankFile>, i: nat): set<string> {
    set j | i <= j < |files| && files[j].contents.Parsed? :: files[j].name
  }

  /** When no file ends the run, the pool is the files' records joined in
      file order, missing files adding nothing. */
  lemma BankPoolJoins(files: seq<BankFile>, i: nat, ts: seq<Template>, run: (string, string) -> Outcome)
    requires BankFilesWellFormed(files) && BankUsableCatalog(ts) && i <= |files|
    requires BankPool(files, i, ts, run).Some?
    ensures BankPool(files, i, ts, run).value == Concat(FileBlocks(files, ts, run), i)
  {
    JoinAllConcat(FileResults(files, ts, run), FileBlocks(files, ts, run), i);
  }

  /** Every record of a parsed file reaches the pool, in one block after
      the records of the files before it. */
  lemma BankPoolPlaces(files: seq<BankFile>, j: nat, ts: seq<Template>, run: (string, string) -> Outcome)
    requires BankFilesWellFormed(files) && BankUsableCatalog(ts) && j < |files|
    requires files[j].contents.Parsed? && BankPool(files, 0, ts, run).Some?
    ensures FileRecords(files[j].name, files[j].contents.table, ts, run).Some?
    ensures var rs := FileRecords(files[j].name, files[j].contents.table, ts, run).value;
      var at := LengthBefore(FileBlocks(files, ts, run), 0, j);
      && at + |rs| <= |BankPool(files, 0, ts, run).value|
      && BankPool(files, 0, ts, run).value[at..at + |rs|] == rs
  {
    var blocks := FileBlocks(files, ts, run);
    assert !Crashes(files[j]);
    BankPoolJoins(files, 0, ts, run);
    ConcatPlaces(blocks, 0, j);
  }

  /** How many records have status 'valid'. */
  function CountValid(qs: seq<RawQuestion>): (n: nat)
    ensures n <= |qs|
    ensures n == |qs| <==> forall k :: 0 <= k < |qs| ==> qs[k].status == Valid
    ensures n == 0 <==> forall k :: 0 <= k < |qs| ==> qs[k].status == Failed
    decreases |qs|
  {
    if |qs| == 0 then 0
    else
      var rest := CountValid(qs[1..]);
      assert forall k :: 1 <= k < |qs| ==> qs[k] == qs[1..][k - 1];
      (if qs[0].status == Valid then 1 else 0) + rest
  }

  /** Counting is additive over concatenation, and one record counts one
      exactly when it is valid: so the count is exact, record by record. */
  lemma {:induction false} CountValidAppend(a: seq<RawQuestion>, b: seq<RawQuestion>)
    ensures CountValid(a + b) == CountValid(a) + CountValid(b)
    ensures |a| == 1 ==> CountValid(a) == (if a[0].status == Valid then 1 else 0)
    decreases |a|
  {
    if |a| > 0 {
      CountValidAppend(a[1..], b);
      assert (a + b)[1..] == a[1..] + b;
    } else {
      assert a + b == b;
    }
  }

  /** The summary `main` writes: the generation time, the record count, the
      valid count and the records. */
  datatype BankOutput = BankOutput(generatedAt: string, total: nat, valid: nat, questions: seq<RawQuestion>)

  /** `main()`: the records of every existing dataset in order, with their
      counts; `now` is the clock's reading `datetime.now().isoformat()`. */
  function BankMain(files: seq<BankFile>, now: string, run: (string, string) -> Outcome): (r: Option<BankOutput>)
    requires BankFilesWellFormed(files)
    ensures r.None? <==> exists j :: 0 <= j < |files| && Crashes(files[j])
    ensures r.Some? ==> r.value.generatedAt == now
    ensures r.Some? ==> r.value.total == |r.value.questions| && r.value.valid == CountValid(r.value.questions)
    ensures r.Some? ==> r.value.valid <= r.value.total
    ensures r.Some? ==> forall k :: 0 <= k < |r.value.questions| ==> r.value.questions[k].dataset in FoundNames(files, 0)
  {
    BankCatalogUsable();
    match BankPool(files, 0, BankCatalog(), run)
    case None => None
    case Some(qs) => Some(BankOutput(now, |qs|, CountValid(qs), qs))
  }

  /** `main`'s records are the found files' records joined in file order,
      with the script's own catalog. */
  lemma BankMainJoins(files: seq<BankFile>, now: string, run: (string, string) -> Outcome)
    requires BankFilesWellFormed(files)
    ensures BankUsableCatalog(BankCatalog())
    ensures BankMain(files, now, run).Some? ==>
      BankMain(files, now, run).value.questions == Concat(FileBlocks(files, BankCatalog(), run), 0)
  {
    BankCatalogUsable();
    if BankMain(files, now, run).Some? {
      BankPoolJoins(files, 0, BankCatalog(), run);
    }
  }
}
