/** The question synthesizer of `generate_questions_v2.py`
    (`generate_questions_for_dataset`, `add_explanations`, `main`).

    `random.choice` and `random.sample` become a caller-supplied choice
    function `pick`: `pick(column, template, k)` is an arbitrary number that
    is reduced modulo the number of candidates, so every possible random
    outcome is some `pick`. */
module SynthesisV2 {
  import opened Wrappers
  import opened Text
  import opened Numerals
  import opened Tables
  import opened Capabilities
  import opened Templates
  import opened CatalogV2
  import opened QuestionsV2

  /** What pandas reports about one column beyond its cells: the index of
      `value_counts()` restricted to counts above 1 (most frequent first),
      and `round(df[col].median(), 2)` as it prints. */
  datatype ColumnStats = ColumnStats(repeated: seq<Value>, median: string)

  /** The statistics describe the column: `repeated` lists, once each, exactly
      the values present more than once. */
  ghost predicate StatsAgree(c: Column, s: ColumnStats) {
    && NoDup(s.repeated)
    && (forall k :: 0 <= k < |s.repeated| ==> Occurrences(c.cells, s.repeated[k]) > 1)
    && (forall v :: Occurrences(c.cells, v) > 1 ==> v in s.repeated)
  }

  /** One CSV file as `pd.read_csv` loads it. */
  datatype Dataset = Dataset(name: string, table: Table, stats: seq<ColumnStats>)

  predicate Shaped(d: Dataset) {
    WellFormed(d.table) && |d.stats| == |d.table.columns|
  }

  /** `column_analysis`, in column order. */
  function Profiles(t: Table): (ps: seq<Profile>)
    requires WellFormed(t) && (|t.columns| == 0 || t.rowCount > 0)
    ensures |ps| == |t.columns|
    ensures forall i :: 0 <= i < |ps| ==> ps[i] == AnalyzeColumn(t.columns[i])
  {
    seq(|t.columns|, i requires 0 <= i < |t.columns| => AnalyzeColumn(t.columns[i]))
  }

  /** The state the synthesis loops run in: one profile and one set of
      statistics per column. */
  predicate Ctx(d: Dataset, ps: seq<Profile>, ts: seq<Template>) {
    && |d.stats| == |d.table.columns|
    && |ps| == |d.table.columns|
  }

  /** The keyword arguments a template is formatted with besides entity and column. */
  datatype Binding =
    | Plain
    | WithValue(value: string)
    | WithValues(first: string, second: string)
    | WithOther(other: string)

  /** The binding is the one the loop body builds for this kind of template. */
  predicate Fits(t: Template, b: Binding) {
    match b
    case WithOther(_) => t.requiredOther.Some?
    case WithValue(_) => t.requiredOther.None? && (t.literal == OneValue || t.literal == NumericThreshold)
    case WithValues(_, _) => t.requiredOther.None? && t.literal == TwoValues
    case Plain => t.requiredOther.None? && (t.literal == NoLiteral || t.literal == SubstringOfSample)
  }

  /** The keyword arguments of `template['template'].format(...)`. */
  function QuestionArgs(t: Template, entity: string, col: string, b: Binding): (env: map<Hole, string>)
    ensures Fits(t, b) ==> env.Keys == QuestionKeys(t)
    ensures EntityHole in env && env[EntityHole] == entity
  {
    match b
    case WithOther(o) => map[EntityHole := entity, ColumnHole := col, OtherColumnHole := o]
    case WithValue(v) =>
      if t.literal == OneValue && t.valueInQuestion then map[EntityHole := entity, ValueHole := v]
      else map[EntityHole := entity, ColumnHole := col, ValueHole := v]
    case WithValues(v1, v2) => map[EntityHole := entity, ColumnHole := col, Value1Hole := v1, Value2Hole := v2]
    case Plain => map[EntityHole := entity, ColumnHole := col]
  }

  /** The keyword arguments of `template['code_template'].format(...)`. */
  function CodeArgs(t: Template, col: string, b: Binding): (env: map<Hole, string>)
    ensures Fits(t, b) ==> env.Keys == CodeKeys(t)
    ensures ColumnHole in env && env[ColumnHole] == col
  {
    match b
    case WithOther(o) => map[ColumnHole := col, OtherColumnHole := o]
    case WithValue(v) => map[ColumnHole := col, ValueHole := v]
    case WithValues(v1, v2) => map[ColumnHole := col, Value1Hole := v1, Value2Hole := v2]
    case Plain => map[ColumnHole := col]
  }

  /** The binding and the column values it was drawn from agree with the
      template's literal rule: a filter value among the five most frequent
      repeated values, two values among the ten most frequent, the median
      for a numeric threshold, nothing otherwise. */
  predicate BoundFrom(t: Template, p: Profile, s: ColumnStats, b: Binding, values: seq<Value>) {
    match t.literal
    case OneValue =>
      && |p.samples| > 0 && |values| == 1 && values[0] in Take(s.repeated, 5)
      && b == WithValue(Show(values[0]))
    case NumericThreshold =>
      IsNumeric in p.flags && |p.samples| > 0 && values == [] && b == WithValue(s.median)
    case TwoValues =>
      && |p.samples| >= 2 && |s.repeated| >= 2 && |values| == 2
      && values[0] in Take(s.repeated, 10) && values[1] in Take(s.repeated, 10)
      && (NoDup(s.repeated) ==> values[0] != values[1])
      && b == WithValues(Show(values[0]), Show(values[1]))
    case _ => values == [] && b == Plain
  }

  /** The literal step of the single-column branch; `None` is its `continue`. */
  function BindLiteral(t: Template, p: Profile, s: ColumnStats, pick: (nat, nat, nat) -> nat, ci: nat, ti: nat)
    : (r: Option<(Binding, seq<Value>)>)
    requires t.requiredOther.None?
    ensures r.Some? ==> Fits(t, r.value.0) && BoundFrom(t, p, s, r.value.0, r.value.1)
    ensures r.None? <==>
      match t.literal
      case OneValue => |p.samples| == 0 || |s.repeated| == 0
      case NumericThreshold => IsNumeric !in p.flags || |p.samples| == 0
      case TwoValues => |p.samples| < 2 || |s.repeated| < 2
      case _ => false
  {
    match t.literal
    case OneValue =>
      var common := Take(s.repeated, 5);
      if |p.samples| == 0 || |common| == 0 then None
      else
        var v := common[pick(ci, ti, 0) % |common|];
        Some((WithValue(Show(v)), [v]))
    case NumericThreshold =>
      if IsNumeric in p.flags && |p.samples| > 0 then Some((WithValue(s.median), [])) else None
    case TwoValues =>
      var common := Take(s.repeated, 10);
      if |p.samples| < 2 || |common| < 2 then None
      else
        var i := pick(ci, ti, 0) % |common|;
        var j0 := pick(ci, ti, 1) % (|common| - 1);
        var j := if j0 < i then j0 else j0 + 1;
        assert NoDup(s.repeated) ==> common[i] != common[j] by {
          assert common[i] == s.repeated[i] && common[j] == s.repeated[j];
        }
        Some((WithValues(Show(common[i]), Show(common[j])), [common[i], common[j]]))
    case _ => Some((Plain, []))
  }

  /** The non-identifier columns from position `from` on that are not in
      `excl`, in table order. */
  function Eligible(ps: seq<Profile>, excl: seq<nat>, from: nat): (r: seq<nat>)
    ensures forall k :: 0 <= k < |r| ==> from <= r[k] < |ps| && r[k] !in excl && IsIdentifier !in ps[r[k]].flags
    ensures forall k, l :: 0 <= k < l < |r| ==> r[k] < r[l]
    decreases |ps| - from
  {
    if from >= |ps| then []
    else (if from !in excl && IsIdentifier !in ps[from].flags then [from] else []) + Eligible(ps, excl, from + 1)
  }

  /** Every non-identifier column outside `excl` is listed. */
  lemma {:induction false} EligibleComplete(ps: seq<Profile>, excl: seq<nat>, from: nat, j: nat)
    requires from <= j < |ps| && j !in excl && IsIdentifier !in ps[j].flags
    ensures j in Eligible(ps, excl, from)
    decreases |ps| - from
  {
    if from < j {
      EligibleComplete(ps, excl, from + 1, j);
    }
  }

  /** `preview_cols`: the question's column (and the other column of a
      two-column question) followed by up to two (one) further
      non-identifier columns in table order. */
  function PreviewColumns(ps: seq<Profile>, ci: nat, other: Option<nat>): (cols: seq<nat>)
    requires ci < |ps| && (other.Some? ==> other.value < |ps|)
    ensures 1 <= |cols| <= 3 && cols[0] == ci
    ensures forall k :: 0 <= k < |cols| ==> cols[k] < |ps|
    ensures other.Some? ==> |cols| >= 2 && cols[1] == other.value
    ensures forall k :: (if other.Some? then 2 else 1) <= k < |cols| ==> IsIdentifier !in ps[cols[k]].flags
    ensures (other.None? || other.value != ci) ==> NoDup(cols)
  {
    match other
    case None =>
      var more := if |ps| > 1 then Extras(ps, [ci], 2) else [];
      assert ci !in more;
      [ci] + more
    case Some(oi) =>
      var more := if |ps| > 2 then Extras(ps, [ci, oi], 1) else [];
      assert ci !in more && oi !in more;
      [ci, oi] + more
  }

  /** The first `n` non-identifier columns outside `excl`, in table order. */
  function Extras(ps: seq<Profile>, excl: seq<nat>, n: nat): (r: seq<nat>)
    ensures |r| <= n
    ensures forall k :: 0 <= k < |r| ==> r[k] < |ps| && r[k] !in excl && IsIdentifier !in ps[r[k]].flags
    ensures NoDup(r)
  {
    Take(Eligible(ps, excl, 0), n)
  }

  /** A single-column preview omits a further non-identifier column only
      when it already shows two of them. */
  lemma PreviewColumnsComplete(ps: seq<Profile>, ci: nat, j: nat)
    requires ci < |ps| && j < |ps| && j != ci && IsIdentifier !in ps[j].flags
    ensures |PreviewColumns(ps, ci, None)| == 3 || j in PreviewColumns(ps, ci, None)
  {
    EligibleComplete(ps, [ci], 0, j);
    var e := Eligible(ps, [ci], 0);
    if |e| < 2 {
      assert Take(e, 2) == e;
      assert Extras(ps, [ci], 2) == e;
      assert PreviewColumns(ps, ci, None) == [ci] + e;
    }
  }

  /** `preview_data`: the column names, then the first rows of those columns. */
  datatype Preview = Preview(header: seq<string>, rows: seq<seq<Cell>>)

  /** How many rows `df.head(5)` keeps. */
  const PreviewRows: nat := 5

  /** One decision of the synthesis loops: which template and column (and
      partner column) a question uses, the arguments bound for it, the
      sampled values they came from and the counter it was numbered with.
      The Python dictionaries do not keep this; it is what they are built from. */
  datatype Choice = Choice(template: nat, column: nat, other: Option<nat>, binding: Binding, values: seq<Value>, serial: nat)

  /** A choice the loops may make: its column is no identifier and meets
      the template's requirements, a partner column is a distinct
      non-identifier column meeting `requires_other`, and a literal was
      drawn by the template's rule. */
  predicate Sound(d: Dataset, ps: seq<Profile>, ts: seq<Template>, c: Choice)
    requires Ctx(d, ps, ts)
  {
    && c.column < |ps| && c.template < |ts|
    && IsIdentifier !in ps[c.column].flags
    && AllHold(ps[c.column], ts[c.template].required)
    && Fits(ts[c.template], c.binding)
    && match ts[c.template].requiredOther
       case None => c.other.None? && BoundFrom(ts[c.template], ps[c.column], d.stats[c.column], c.binding, c.values)
       case Some(_) =>
         && c.other.Some? && c.other.value < |ps| && Partner(ps, ts[c.template], c.column, c.other.value)
         && c.binding == WithOther(d.table.columns[c.other.value].name) && c.values == []
  }

  /** `req == 'any' or other_analysis.get(req, False)` for some entry of `requires_other`. */
  predicate AnyOther(p: Profile, reqs: seq<Requirement>) {
    exists i :: 0 <= i < |reqs| && (reqs[i] == AnyColumn || Holds(p, reqs[i]))
  }

  /** Column `oi` may partner column `ci` in a two-column template. */
  predicate Partner(ps: seq<Profile>, t: Template, ci: nat, oi: nat)
    requires oi < |ps| && t.requiredOther.Some?
  {
    oi != ci && IsIdentifier !in ps[oi].flags && AnyOther(ps[oi], t.requiredOther.value)
  }

  /** `if question_id % 5 == 0: break`, checked once the counter has moved
      past the question numbered `serial`. */
  predicate StopsAfter(serial: nat) {
    (serial + 1) % 5 == 0
  }

  /** The inner loop over partner columns of a two-column template, from
      column `oi` on, stopping after a question whose incremented counter is
      a multiple of 5. */
  function PairsFrom(d: Dataset, ps: seq<Profile>, ts: seq<Template>, ci: nat, ti: nat, oi: nat, next: nat)
    : (r: seq<Choice>)
    requires Ctx(d, ps, ts) && ci < |ps| && ti < |ts| && ts[ti].requiredOther.Some? && oi <= |ps|
    ensures forall k :: 0 <= k < |r| ==> r[k].serial == next + k
    ensures forall k :: 0 <= k < |r| ==>
      && r[k].column == ci && r[k].template == ti
      && r[k].other.Some? && oi <= r[k].other.value < |ps|
    ensures forall k :: 0 <= k < |r| - 1 ==> !StopsAfter(r[k].serial)
    decreases |ps| - oi
  {
    if oi == |ps| then []
    else if !Partner(ps, ts[ti], ci, oi) then PairsFrom(d, ps, ts, ci, ti, oi + 1, next)
    else
      var c := Choice(ti, ci, Some(oi), WithOther(d.table.columns[oi].name), [], next);
      if StopsAfter(next) then [c]
      else [c] + PairsFrom(d, ps, ts, ci, ti, oi + 1, next + 1)
  }

  /** The questions one template yields for one column: none when the
      column misses a requirement, one per partner for a two-column
      template, at most one otherwise. */
  function TemplateChoices(d: Dataset, ps: seq<Profile>, ts: seq<Template>,
                           pick: (nat, nat, nat) -> nat, ci: nat, ti: nat, next: nat): (r: seq<Choice>)
    requires Ctx(d, ps, ts) && ci < |ps| && ti < |ts|
    ensures forall k :: 0 <= k < |r| ==> r[k].serial == next + k
    ensures forall k :: 0 <= k < |r| ==> r[k].column == ci && r[k].template == ti
    ensures ts[ti].requiredOther.None? ==> |r| <= 1
  {
    var t := ts[ti];
    if !AllHold(ps[ci], t.required) then []
    else if t.requiredOther.Some? then PairsFrom(d, ps, ts, ci, ti, 0, next)
    else match BindLiteral(t, ps[ci], d.stats[ci], pick, ci, ti)
      case None => []
      case Some(bv) => [Choice(ti, ci, None, bv.0, bv.1, next)]
  }

  /** The loop over templates for one column, from template `ti` on. */
  function SynthTemplates(d: Dataset, ps: seq<Profile>, ts: seq<Template>,
                          pick: (nat, nat, nat) -> nat, ci: nat, ti: nat, next: nat): (r: seq<Choice>)
    requires Ctx(d, ps, ts) && ci < |ps| && ti <= |ts|
    ensures forall k :: 0 <= k < |r| ==> r[k].serial == next + k
    ensures forall k :: 0 <= k < |r| ==> r[k].column == ci && ti <= r[k].template < |ts|
    decreases |ts| - ti
  {
    if ti == |ts| then []
    else
      var here := TemplateChoices(d, ps, ts, pick, ci, ti, next);
      here + SynthTemplates(d, ps, ts, pick, ci, ti + 1, next + |here|)
  }

  /** The loop over columns from column `ci` on; identifier columns are skipped. */
  function SynthColumns(d: Dataset, ps: seq<Profile>, ts: seq<Template>,
                        pick: (nat, nat, nat) -> nat, ci: nat, next: nat): (r: seq<Choice>)
    requires Ctx(d, ps, ts) && ci <= |ps|
    ensures forall k :: 0 <= k < |r| ==> r[k].serial == next + k
    ensures forall k :: 0 <= k < |r| ==> ci <= r[k].column < |ps| && r[k].template < |ts|
    decreases |ps| - ci
  {
    if ci == |ps| then []
    else if IsIdentifier in ps[ci].flags then SynthColumns(d, ps, ts, pick, ci + 1, next)
    else
      var here := SynthTemplates(d, ps, ts, pick, ci, 0, next);
      here + SynthColumns(d, ps, ts, pick, ci + 1, next + |here|)
  }

  predicate AllSound(d: Dataset, ps: seq<Profile>, ts: seq<Template>, cs: seq<Choice>)
    requires Ctx(d, ps, ts)
  {
    forall k :: 0 <= k < |cs| ==> Sound(d, ps, ts, cs[k])
  }

  /** Some choice pairs its column with column `j`. */
  predicate PairedWith(cs: seq<Choice>, j: nat) {
    exists k :: 0 <= k < |cs| && cs[k].other == Some(j)
  }

  /** The partner loop ended on its `break`. */
  predicate StoppedEarly(cs: seq<Choice>) {
    |cs| > 0 && StopsAfter(cs[|cs| - 1].serial)
  }

  /** Every choice of the partner loop is sound. */
  lemma {:induction false} PairsFromSound(d: Dataset, ps: seq<Profile>, ts: seq<Template>, ci: nat, ti: nat, oi: nat, next: nat)
    requires Ctx(d, ps, ts) && ci < |ps| && ti < |ts| && ts[ti].requiredOther.Some? && oi <= |ps|
    requires IsIdentifier !in ps[ci].flags && AllHold(ps[ci], ts[ti].required)
    ensures AllSound(d, ps, ts, PairsFrom(d, ps, ts, ci, ti, oi, next))
    decreases |ps| - oi
  {
    var r := PairsFrom(d, ps, ts, ci, ti, oi, next);
    if oi < |ps| {
      if !Partner(ps, ts[ti], ci, oi) {
        PairsFromSound(d, ps, ts, ci, ti, oi + 1, next);
        assert r == PairsFrom(d, ps, ts, ci, ti, oi + 1, next);
      } else {
        var c := Choice(ti, ci, Some(oi), WithOther(d.table.columns[oi].name), [], next);
        assert Sound(d, ps, ts, c);
        if StopsAfter(next) {
          assert r == [c];
        } else {
          var rest := PairsFrom(d, ps, ts, ci, ti, oi + 1, next + 1);
          PairsFromSound(d, ps, ts, ci, ti, oi + 1, next + 1);
          assert forall k :: 0 <= k < |rest| ==> Sound(d, ps, ts, rest[k]);
          assert r == [c] + rest;
          forall k | 0 <= k < |r|
            ensures Sound(d, ps, ts, r[k])
          {
            if k > 0 {
              assert r[k] == rest[k - 1];
            } else {
              assert r[k] == c;
            }
          }
        }
      }
    }
  }

  lemma TemplateChoicesSound(d: Dataset, ps: seq<Profile>, ts: seq<Template>,
                             pick: (nat, nat, nat) -> nat, ci: nat, ti: nat, next: nat)
    requires Ctx(d, ps, ts) && ci < |ps| && ti < |ts| && IsIdentifier !in ps[ci].flags
    ensures AllSound(d, ps, ts, TemplateChoices(d, ps, ts, pick, ci, ti, next))
  {
    var t := ts[ti];
    if AllHold(ps[ci], t.required) {
      if t.requiredOther.Some? {
        PairsFromSound(d, ps, ts, ci, ti, 0, next);
        assert TemplateChoices(d, ps, ts, pick, ci, ti, next) == PairsFrom(d, ps, ts, ci, ti, 0, next);
      } else {
        var bv := BindLiteral(t, ps[ci], d.stats[ci], pick, ci, ti);
        if bv.Some? {
          var c := Choice(ti, ci, None, bv.value.0, bv.value.1, next);
          assert TemplateChoices(d, ps, ts, pick, ci, ti, next) == [c];
          assert Sound(d, ps, ts, c);
        }
      }
    }
  }

  lemma {:induction false} SynthTemplatesSound(d: Dataset, ps: seq<Profile>, ts: seq<Template>,
                                               pick: (nat, nat, nat) -> nat, ci: nat, ti: nat, next: nat)
    requires Ctx(d, ps, ts) && ci < |ps| && ti <= |ts| && IsIdentifier !in ps[ci].flags
    ensures AllSound(d, ps, ts, SynthTemplates(d, ps, ts, pick, ci, ti, next))
    decreases |ts| - ti
  {
    if ti < |ts| {
      var here := TemplateChoices(d, ps, ts, pick, ci, ti, next);
      TemplateChoicesSound(d, ps, ts, pick, ci, ti, next);
      SynthTemplatesSound(d, ps, ts, pick, ci, ti + 1, next + |here|);
      AllSoundAppend(d, ps, ts, here, SynthTemplates(d, ps, ts, pick, ci, ti + 1, next + |here|));
    }
  }

  /** Every choice the column loop makes is sound. */
  lemma {:induction false} SynthColumnsSound(d: Dataset, ps: seq<Profile>, ts: seq<Template>,
                                             pick: (nat, nat, nat) -> nat, ci: nat, next: nat)
    requires Ctx(d, ps, ts) && ci <= |ps|
    ensures AllSound(d, ps, ts, SynthColumns(d, ps, ts, pick, ci, next))
    decreases |ps| - ci, 1
  {
    if ci < |ps| {
      if IsIdentifier in ps[ci].flags {
        SkippedColumnSound(d, ps, ts, pick, ci, next);
      } else {
        TakenColumnSound(d, ps, ts, pick, ci, next);
      }
    }
  }

  /** The column loop stays sound past an identifier column. */
  lemma {:induction false} SkippedColumnSound(d: Dataset, ps: seq<Profile>, ts: seq<Template>,
                                              pick: (nat, nat, nat) -> nat, ci: nat, next: nat)
    requires Ctx(d, ps, ts) && ci < |ps| && IsIdentifier in ps[ci].flags
    ensures AllSound(d, ps, ts, SynthColumns(d, ps, ts, pick, ci, next))
    decreases |ps| - ci, 0
  {
    SynthColumnsSound(d, ps, ts, pick, ci + 1, next);
  }

  /** The column loop stays sound through a column it asks about. */
  lemma {:induction false} TakenColumnSound(d: Dataset, ps: seq<Profile>, ts: seq<Template>,
                                            pick: (nat, nat, nat) -> nat, ci: nat, next: nat)
    requires Ctx(d, ps, ts) && ci < |ps| && IsIdentifier !in ps[ci].flags
    ensures AllSound(d, ps, ts, SynthColumns(d, ps, ts, pick, ci, next))
    decreases |ps| - ci, 0
  {
    var here := SynthTemplates(d, ps, ts, pick, ci, 0, next);
    var rest := SynthColumns(d, ps, ts, pick, ci + 1, next + |here|);
    SynthTemplatesSound(d, ps, ts, pick, ci, 0, next);
    SynthColumnsSound(d, ps, ts, pick, ci + 1, next + |here|);
    AllSoundAppend(d, ps, ts, here, rest);
    assert SynthColumns(d, ps, ts, pick, ci, next) == here + rest;
  }

  /** Sound choices stay sound when concatenated. */
  lemma AllSoundAppend(d: Dataset, ps: seq<Profile>, ts: seq<Template>, a: seq<Choice>, b: seq<Choice>)
    requires Ctx(d, ps, ts) && AllSound(d, ps, ts, a) && AllSound(d, ps, ts, b)
    ensures AllSound(d, ps, ts, a + b)
  {
    forall k | 0 <= k < |a + b| ensures Sound(d, ps, ts, (a + b)[k]) {
      if k < |a| {
        assert (a + b)[k] == a[k];
      } else {
        assert (a + b)[k] == b[k - |a|];
      }
    }
  }

  /** Drawing is only skipped when the column cannot supply the literal: a
      binding allowed by the template's rule means `BindLiteral` draws one. */
  lemma BoundFromBindable(t: Template, p: Profile, s: ColumnStats, pick: (nat, nat, nat) -> nat,
                          ci: nat, ti: nat, b: Binding, values: seq<Value>)
    requires t.requiredOther.None? && BoundFrom(t, p, s, b, values)
    ensures BindLiteral(t, p, s, pick, ci, ti).Some?
  {
    if t.literal == OneValue {
      assert |Take(s.repeated, 5)| > 0;
    }
  }

  /** What a coverage property looks for: a question applying a template
      to a column, or one pairing a column with a partner under a template
      (or stopping that template's partner loop). */
  datatype Aim =
    | Applying(column: nat, template: nat)
    | Pairing(column: nat, template: nat, partner: nat)

  /** Choice `c` applies template `ti` to column `ci`. */
  predicate Applies(c: Choice, ci: nat, ti: nat) {
    c.column == ci && c.template == ti
  }

  /** Choice `c` pairs column `ci` under template `ti` with column `j`, or is
      the choice after which that template's partner loop stopped. */
  predicate PairsOrStops(c: Choice, ci: nat, ti: nat, j: nat) {
    Applies(c, ci, ti) && c.other.Some? && (c.other.value == j || StopsAfter(c.serial))
  }

  predicate Meets(c: Choice, aim: Aim) {
    match aim
    case Applying(ci, ti) => Applies(c, ci, ti)
    case Pairing(ci, ti, j) => PairsOrStops(c, ci, ti, j)
  }

  /** Some choice in `cs` meets `aim`. */
  predicate Has(cs: seq<Choice>, aim: Aim) {
    exists k :: 0 <= k < |cs| && Meets(cs[k], aim)
  }

  lemma HasLeft(a: seq<Choice>, b: seq<Choice>, aim: Aim)
    requires Has(a, aim)
    ensures Has(a + b, aim)
  {
    var k :| 0 <= k < |a| && Meets(a[k], aim);
    assert (a + b)[k] == a[k];
  }

  lemma HasRight(a: seq<Choice>, b: seq<Choice>, aim: Aim)
    requires Has(b, aim)
    ensures Has(a + b, aim)
  {
    var k :| 0 <= k < |b| && Meets(b[k], aim);
    assert (a + b)[|a| + k] == b[k];
  }

  /** One step of the loop over templates: template `ti`'s choices, then the later templates'. */
  lemma SynthTemplatesStep(d: Dataset, ps: seq<Profile>, ts: seq<Template>,
                           pick: (nat, nat, nat) -> nat, ci: nat, ti: nat, next: nat)
    requires Ctx(d, ps, ts) && ci < |ps| && ti < |ts|
    ensures var here := TemplateChoices(d, ps, ts, pick, ci, ti, next);
      SynthTemplates(d, ps, ts, pick, ci, ti, next) == here + SynthTemplates(d, ps, ts, pick, ci, ti + 1, next + |here|)
  {
  }

  /** Whatever template `tj` yields for the column, whatever the counter,
      survives the loop over templates. */
  lemma {:induction false} SynthTemplatesHas(d: Dataset, ps: seq<Profile>, ts: seq<Template>,
                                             pick: (nat, nat, nat) -> nat, ci: nat, ti: nat, tj: nat,
                                             next: nat, aim: Aim)
    requires Ctx(d, ps, ts) && ci < |ps| && ti <= tj < |ts|
    requires forall n: nat :: Has(TemplateChoices(d, ps, ts, pick, ci, tj, n), aim)
    ensures Has(SynthTemplates(d, ps, ts, pick, ci, ti, next), aim)
    decreases tj - ti, 1
  {
    if ti == tj {
      SynthTemplatesHere(d, ps, ts, pick, ci, tj, next, aim);
    } else {
      SynthTemplatesLater(d, ps, ts, pick, ci, ti, tj, next, aim);
    }
  }

  /** Template `tj`'s own choices open the loop from `tj`. */
  lemma SynthTemplatesHere(d: Dataset, ps: seq<Profile>, ts: seq<Template>,
                           pick: (nat, nat, nat) -> nat, ci: nat, tj: nat, next: nat, aim: Aim)
    requires Ctx(d, ps, ts) && ci < |ps| && tj < |ts|
    requires Has(TemplateChoices(d, ps, ts, pick, ci, tj, next), aim)
    ensures Has(SynthTemplates(d, ps, ts, pick, ci, tj, next), aim)
  {
    var here := TemplateChoices(d, ps, ts, pick, ci, tj, next);
    SynthTemplatesStep(d, ps, ts, pick, ci, tj, next);
    HasLeft(here, SynthTemplates(d, ps, ts, pick, ci, tj + 1, next + |here|), aim);
  }

  /** A template before `tj` only delays its choices. */
  lemma {:induction false} SynthTemplatesLater(d: Dataset, ps: seq<Profile>, ts: seq<Template>,
                                               pick: (nat, nat, nat) -> nat, ci: nat, ti: nat, tj: nat,
                                               next: nat, aim: Aim)
    requires Ctx(d, ps, ts) && ci < |ps| && ti < tj < |ts|
    requires forall n: nat :: Has(TemplateChoices(d, ps, ts, pick, ci, tj, n), aim)
    ensures Has(SynthTemplates(d, ps, ts, pick, ci, ti, next), aim)
    decreases tj - ti, 0
  {
    var here := TemplateChoices(d, ps, ts, pick, ci, ti, next);
    SynthTemplatesHas(d, ps, ts, pick, ci, ti + 1, tj, next + |here|, aim);
    SynthTemplatesTail(d, ps, ts, pick, ci, ti, next, aim);
  }

  /** What the later templates yield survives the loop from template `ti`. */
  lemma SynthTemplatesTail(d: Dataset, ps: seq<Profile>, ts: seq<Template>,
                           pick: (nat, nat, nat) -> nat, ci: nat, ti: nat, next: nat, aim: Aim)
    requires Ctx(d, ps, ts) && ci < |ps| && ti < |ts|
    requires Has(SynthTemplates(d, ps, ts, pick, ci, ti + 1, next + |TemplateChoices(d, ps, ts, pick, ci, ti, next)|), aim)
    ensures Has(SynthTemplates(d, ps, ts, pick, ci, ti, next), aim)
  {
    var here := TemplateChoices(d, ps, ts, pick, ci, ti, next);
    SynthTemplatesStep(d, ps, ts, pick, ci, ti, next);
    HasRight(here, SynthTemplates(d, ps, ts, pick, ci, ti + 1, next + |here|), aim);
  }

  /** Whatever template `tj` yields for a non-identifier column `cj`,
      whatever the counter, survives the loop over columns. */
  lemma {:induction false} SynthColumnsHas(d: Dataset, ps: seq<Profile>, ts: seq<Template>,
                                           pick: (nat, nat, nat) -> nat, ci: nat, cj: nat, tj: nat,
                                           next: nat, aim: Aim)
    requires Ctx(d, ps, ts) && ci <= cj < |ps| && tj < |ts| && IsIdentifier !in ps[cj].flags
    requires forall n: nat :: Has(TemplateChoices(d, ps, ts, pick, cj, tj, n), aim)
    ensures Has(SynthColumns(d, ps, ts, pick, ci, next), aim)
    decreases cj - ci, 1
  {
    if IsIdentifier in ps[ci].flags {
      SkippedColumnHas(d, ps, ts, pick, ci, cj, tj, next, aim);
    } else {
      TakenColumnHas(d, ps, ts, pick, ci, cj, tj, next, aim);
    }
  }

  /** An identifier column contributes nothing; the choice comes later. */
  lemma {:induction false} SkippedColumnHas(d: Dataset, ps: seq<Profile>, ts: seq<Template>,
                                            pick: (nat, nat, nat) -> nat, ci: nat, cj: nat, tj: nat,
                                            next: nat, aim: Aim)
    requires Ctx(d, ps, ts) && ci <= cj < |ps| && tj < |ts| && IsIdentifier !in ps[cj].flags
    requires IsIdentifier in ps[ci].flags
    requires forall n: nat :: Has(TemplateChoices(d, ps, ts, pick, cj, tj, n), aim)
    ensures Has(SynthColumns(d, ps, ts, pick, ci, next), aim)
    decreases cj - ci, 0
  {
    SynthColumnsHas(d, ps, ts, pick, ci + 1, cj, tj, next, aim);
  }

  /** A non-identifier column contributes its own choices, then the later columns follow. */
  lemma {:induction false} TakenColumnHas(d: Dataset, ps: seq<Profile>, ts: seq<Template>,
                                          pick: (nat, nat, nat) -> nat, ci: nat, cj: nat, tj: nat,
                                          next: nat, aim: Aim)
    requires Ctx(d, ps, ts) && ci <= cj < |ps| && tj < |ts| && IsIdentifier !in ps[cj].flags
    requires IsIdentifier !in ps[ci].flags
    requires forall n: nat :: Has(TemplateChoices(d, ps, ts, pick, cj, tj, n), aim)
    ensures Has(SynthColumns(d, ps, ts, pick, ci, next), aim)
    decreases cj - ci, 0
  {
    var here := SynthTemplates(d, ps, ts, pick, ci, 0, next);
    var rest := SynthColumns(d, ps, ts, pick, ci + 1, next + |here|);
    assert SynthColumns(d, ps, ts, pick, ci, next) == here + rest;
    if ci == cj {
      SynthTemplatesHas(d, ps, ts, pick, ci, 0, tj, next, aim);
      HasLeft(here, rest, aim);
    } else {
      LaterColumnHas(d, ps, ts, pick, ci, cj, tj, next + |here|, aim);
      HasRight(here, rest, aim);
    }
  }

  /** The columns after `ci` have the choice. */
  lemma LaterColumnHas(d: Dataset, ps: seq<Profile>, ts: seq<Template>,
                       pick: (nat, nat, nat) -> nat, ci: nat, cj: nat, tj: nat,
                       next: nat, aim: Aim)
    requires Ctx(d, ps, ts) && ci < cj < |ps| && tj < |ts| && IsIdentifier !in ps[cj].flags
    requires forall n: nat :: Has(TemplateChoices(d, ps, ts, pick, cj, tj, n), aim)
    ensures Has(SynthColumns(d, ps, ts, pick, ci + 1, next), aim)
    decreases cj - ci - 1, 2
  {
    SynthColumnsHas(d, ps, ts, pick, ci + 1, cj, tj, next, aim);
  }

  /** A single-column template the column meets and can bind yields its question. */
  lemma TemplateChoicesCovers(d: Dataset, ps: seq<Profile>, ts: seq<Template>,
                              pick: (nat, nat, nat) -> nat, ci: nat, tj: nat, next: nat)
    requires Ctx(d, ps, ts) && ci < |ps| && tj < |ts|
    requires ts[tj].requiredOther.None? && AllHold(ps[ci], ts[tj].required)
    requires BindLiteral(ts[tj], ps[ci], d.stats[ci], pick, ci, tj).Some?
    ensures Has(TemplateChoices(d, ps, ts, pick, ci, tj, next), Applying(ci, tj))
  {
    var here := TemplateChoices(d, ps, ts, pick, ci, tj, next);
    assert Meets(here[0], Applying(ci, tj));
  }

  /** Every non-identifier column gets a question from every single-column
      template it meets and can bind. */
  lemma SynthColumnsCovers(d: Dataset, ps: seq<Profile>, ts: seq<Template>,
                           pick: (nat, nat, nat) -> nat, cj: nat, tj: nat, next: nat)
    requires Ctx(d, ps, ts) && cj < |ps| && tj < |ts| && IsIdentifier !in ps[cj].flags
    requires ts[tj].requiredOther.None? && AllHold(ps[cj], ts[tj].required)
    requires BindLiteral(ts[tj], ps[cj], d.stats[cj], pick, cj, tj).Some?
    ensures Has(SynthColumns(d, ps, ts, pick, 0, next), Applying(cj, tj))
  {
    var aim := Applying(cj, tj);
    forall n: nat ensures Has(TemplateChoices(d, ps, ts, pick, cj, tj, n), aim) {
      TemplateChoicesCovers(d, ps, ts, pick, cj, tj, n);
    }
    SynthColumnsHas(d, ps, ts, pick, 0, cj, tj, next, aim);
  }

  /** Every partner column of a two-column template gets a question unless
      the loop has already stopped at a counter that is a multiple of 5. */
  lemma {:induction false} PairsCover(d: Dataset, ps: seq<Profile>, ts: seq<Template>,
                                      ci: nat, ti: nat, oi: nat, j: nat, next: nat)
    requires Ctx(d, ps, ts) && ci < |ps| && ti < |ts| && ts[ti].requiredOther.Some? && oi <= j < |ps|
    requires Partner(ps, ts[ti], ci, j)
    ensures PairedWith(PairsFrom(d, ps, ts, ci, ti, oi, next), j) || StoppedEarly(PairsFrom(d, ps, ts, ci, ti, oi, next))
    decreases j - oi, 1
  {
    var r := PairsFrom(d, ps, ts, ci, ti, oi, next);
    if oi == j {
      assert r[0].other == Some(j);
    } else if !Partner(ps, ts[ti], ci, oi) {
      PairsCover(d, ps, ts, ci, ti, oi + 1, j, next);
    } else {
      PairsCoverTaken(d, ps, ts, ci, ti, oi, j, next);
    }
  }

  /** An earlier partner takes its question first; `j` is paired later
      unless the loop stops on that question. */
  lemma {:induction false} PairsCoverTaken(d: Dataset, ps: seq<Profile>, ts: seq<Template>,
                                           ci: nat, ti: nat, oi: nat, j: nat, next: nat)
    requires Ctx(d, ps, ts) && ci < |ps| && ti < |ts| && ts[ti].requiredOther.Some? && oi < j < |ps|
    requires Partner(ps, ts[ti], ci, oi) && Partner(ps, ts[ti], ci, j)
    ensures PairedWith(PairsFrom(d, ps, ts, ci, ti, oi, next), j) || StoppedEarly(PairsFrom(d, ps, ts, ci, ti, oi, next))
    decreases j - oi, 0
  {
    var r := PairsFrom(d, ps, ts, ci, ti, oi, next);
    if !StopsAfter(next) {
      var rest := PairsFrom(d, ps, ts, ci, ti, oi + 1, next + 1);
      assert r == [r[0]] + rest;
      PairsCover(d, ps, ts, ci, ti, oi + 1, j, next + 1);
      if PairedWith(rest, j) {
        var k :| 0 <= k < |rest| && rest[k].other == Some(j);
        assert r[k + 1] == rest[k];
      } else {
        assert r[|r| - 1] == rest[|rest| - 1];
      }
    }
  }

  /** A two-column template the column meets pairs it with each partner, or stops first. */
  lemma TemplateChoicesPairs(d: Dataset, ps: seq<Profile>, ts: seq<Template>,
                             pick: (nat, nat, nat) -> nat, ci: nat, ti: nat, j: nat, next: nat)
    requires Ctx(d, ps, ts) && ci < |ps| && ti < |ts| && j < |ps| && ts[ti].requiredOther.Some?
    requires AllHold(ps[ci], ts[ti].required) && Partner(ps, ts[ti], ci, j)
    ensures Has(TemplateChoices(d, ps, ts, pick, ci, ti, next), Pairing(ci, ti, j))
  {
    var r := PairsFrom(d, ps, ts, ci, ti, 0, next);
    assert TemplateChoices(d, ps, ts, pick, ci, ti, next) == r;
    PairsCover(d, ps, ts, ci, ti, 0, j, next);
    if PairedWith(r, j) {
      var k :| 0 <= k < |r| && r[k].other == Some(j);
      assert Meets(r[k], Pairing(ci, ti, j));
    } else {
      assert Meets(r[|r| - 1], Pairing(ci, ti, j));
    }
  }

  /** Every partner of a non-identifier column under a two-column template it
      meets is paired with it, unless that partner loop stopped first. */
  lemma SynthColumnsPairs(d: Dataset, ps: seq<Profile>, ts: seq<Template>,
                          pick: (nat, nat, nat) -> nat, ci: nat, ti: nat, j: nat, next: nat)
    requires Ctx(d, ps, ts) && ci < |ps| && ti < |ts| && j < |ps| && IsIdentifier !in ps[ci].flags
    requires ts[ti].requiredOther.Some? && AllHold(ps[ci], ts[ti].required) && Partner(ps, ts[ti], ci, j)
    ensures Has(SynthColumns(d, ps, ts, pick, 0, next), Pairing(ci, ti, j))
  {
    var aim := Pairing(ci, ti, j);
    forall n: nat ensures Has(TemplateChoices(d, ps, ts, pick, ci, ti, n), aim) {
      TemplateChoicesPairs(d, ps, ts, pick, ci, ti, j, n);
    }
    SynthColumnsHas(d, ps, ts, pick, 0, ci, ti, next, aim);
  }

  /** A bound filter value occurs at least twice in its column, so the
      filter selects at least two rows; two bound values differ. */
  lemma BoundValuesRepeat(d: Dataset, ps: seq<Profile>, ts: seq<Template>, c: Choice)
    requires Ctx(d, ps, ts) && Sound(d, ps, ts, c)
    requires StatsAgree(d.table.columns[c.column], d.stats[c.column])
    ensures forall v :: v in c.values ==> Occurrences(d.table.columns[c.column].cells, v) > 1
    ensures |c.values| == 2 ==> c.values[0] != c.values[1]
  {
    var s := d.stats[c.column];
    forall v | v in c.values
      ensures Occurrences(d.table.columns[c.column].cells, v) > 1
    {
      var n := if ts[c.template].literal == OneValue then 5 else 10;
      assert v in Take(s.repeated, n);
      var k :| 0 <= k < |Take(s.repeated, n)| && Take(s.repeated, n)[k] == v;
      assert s.repeated[k] == v;
    }
  }

  /** One generated question dictionary; `origin` is the choice it was built from. */
  datatype Question = Question(
    id: string,
    dataset: string,
    preview: Preview,
    descriptions: map<string, string>,
    context: string,
    question: string,
    code: string,
    result: string,
    difficulty: nat,
    concepts: seq<string>,
    hint: string,
    explanation: Option<string>,
    origin: Choice)

  /** `f"{dataset_name.replace('.csv', '')}_{template['id']}_{question_id:03d}"`. */
  function QuestionId(dataset: string, templateId: string, serial: nat): string {
    RemoveAll(dataset, ".csv") + "_" + templateId + "_" + ZeroPad(serial, 3)
  }

  /** The running counter is recovered from the end of an id. */
  lemma QuestionIdSerial(dataset: string, templateId: string, serial: nat)
    ensures AllDigits(AfterLastUnderscore(QuestionId(dataset, templateId, serial)))
    ensures ParseDigits(AfterLastUnderscore(QuestionId(dataset, templateId, serial))) == serial
  {
    var d := ZeroPad(serial, 3);
    assert !IsDigit('_');
    assert '_' !in d;
    var head := RemoveAll(dataset, ".csv") + "_" + templateId;
    assert QuestionId(dataset, templateId, serial) == head + "_" + d;
    AfterLastUnderscoreOf(head, d);
    ParseZeroPad(serial, 3);
  }

  /** Questions with different counters have different ids, whatever their templates. */
  lemma QuestionIdInjective(dataset: string, t1: string, t2: string, s1: nat, s2: nat)
    requires s1 != s2
    ensures QuestionId(dataset, t1, s1) != QuestionId(dataset, t2, s2)
  {
    QuestionIdSerial(dataset, t1, s1);
    QuestionIdSerial(dataset, t2, s2);
  }

  /** `template['code_template'].format(...)`: the code names the column
      and every argument the binding supplies. */
  function RenderCode(t: Template, col: string, b: Binding): (code: string)
    requires Usable(t) && Fits(t, b)
    ensures Contains(code, col)
    ensures b.WithOther? ==> Contains(code, b.other)
    ensures b.WithValue? ==> Contains(code, b.value)
    ensures b.WithValues? ==> Contains(code, b.first) && Contains(code, b.second)
  {
    var env := CodeArgs(t, col, b);
    var kc :| 0 <= kc < |t.code| && t.code[kc] == Col;
    RenderMentions(t.code, env, kc);
    match b
    case WithOther(_) =>
      var ko :| 0 <= ko < |t.code| && t.code[ko] == OtherCol;
      RenderMentions(t.code, env, ko);
      Render(t.code, env)
    case WithValue(_) =>
      var kv :| 0 <= kv < |t.code| && t.code[kv] == Val;
      RenderMentions(t.code, env, kv);
      Render(t.code, env)
    case WithValues(_, _) =>
      var k1 :| 0 <= k1 < |t.code| && t.code[k1] == Val1;
      var k2 :| 0 <= k2 < |t.code| && t.code[k2] == Val2;
      RenderMentions(t.code, env, k1);
      RenderMentions(t.code, env, k2);
      Render(t.code, env)
    case Plain => Render(t.code, env)
  }

  /** `preview_cols`' names: the question's column, then its partner or up
      to two more non-identifier columns. */
  function PreviewHeader(d: Dataset, ps: seq<Profile>, ci: nat, other: Option<nat>): (header: seq<string>)
    requires Shaped(d) && |ps| == |d.table.columns| && ci < |ps|
    requires other.Some? ==> other.value < |ps| && other.value != ci
    ensures 1 <= |header| <= 3 && NoDup(header)
    ensures header[0] == d.table.columns[ci].name
    ensures other.Some? ==> |header| >= 2 && header[1] == d.table.columns[other.value].name
    ensures |header| == |PreviewColumns(ps, ci, other)|
    ensures forall k :: 0 <= k < |header| ==> PreviewedColumn(d, ps, ci, other, PreviewColumns(ps, ci, other)[k], header[k])
  {
    var cols := PreviewColumns(ps, ci, other);
    NamesAtNoDup(d.table, cols);
    NamesAt(d.table, cols)
  }

  /** Every value a literal was drawn from appears in the rendered code. */
  lemma BoundValuesShown(t: Template, p: Profile, s: ColumnStats, b: Binding, values: seq<Value>, col: string)
    requires Usable(t) && Fits(t, b)
    requires t.requiredOther.None? ==> BoundFrom(t, p, s, b, values)
    requires t.requiredOther.Some? ==> values == []
    ensures forall v :: v in values ==> Contains(RenderCode(t, col, b), Show(v))
  {
    if t.requiredOther.None? && t.literal == TwoValues {
      assert values == [values[0], values[1]];
    }
  }

  /** The preview of a question: its header over the first five rows. */
  function PreviewOf(d: Dataset, ps: seq<Profile>, ci: nat, other: Option<nat>): (pv: Preview)
    requires Shaped(d) && |ps| == |d.table.columns| && ci < |ps|
    requires other.Some? ==> other.value < |ps| && other.value != ci
    ensures pv.header == PreviewHeader(d, ps, ci, other)
    ensures |pv.rows| == if d.table.rowCount < PreviewRows then d.table.rowCount else PreviewRows
    ensures forall r :: 0 <= r < |pv.rows| ==> |pv.rows[r]| == |pv.header|
    ensures forall r, k :: 0 <= r < |pv.rows| && 0 <= k < |pv.header| ==>
      pv.rows[r][k] == d.table.columns[PreviewColumns(ps, ci, other)[k]].cells[r]
  {
    var cols := PreviewColumns(ps, ci, other);
    var rows := HeadRows(d.table, cols, PreviewRows);
    Preview(PreviewHeader(d, ps, ci, other), rows)
  }

  /** `name` is column `j`, which is the question's column, its partner, or
      a non-identifier column. */
  predicate PreviewedColumn(d: Dataset, ps: seq<Profile>, ci: nat, other: Option<nat>, j: nat, name: string)
    requires |ps| == |d.table.columns|
  {
    && j < |ps| && name == d.table.columns[j].name
    && (j == ci || (other.Some? && j == other.value) || IsIdentifier !in ps[j].flags)
  }

  /** `{col: create_column_description(col, ...) for col in preview_cols}`. */
  function Descriptions(header: seq<string>): (m: map<string, string>)
    ensures forall n :: n in m <==> n in header
    ensures forall n :: n in m ==> m[n] == DescribeColumn(n) && m[n] in Labels
  {
    map n | n in header :: DescribeColumn(n)
  }

  /** The question dictionary the loop body appends for a choice: its id,
      concepts and difficulty come from the template, and its code names its
      column, its partner and every value bound into it. */
  function MakeQuestion(d: Dataset, ps: seq<Profile>, ts: seq<Template>, entity: string, c: Choice): (q: Question)
    requires Ctx(d, ps, ts) && Shaped(d) && UsableCatalog(ts) && Sound(d, ps, ts, c)
    ensures q.origin == c && q.dataset == d.name && q.explanation.None?
    ensures q.id == QuestionId(d.name, ts[c.template].id, c.serial)
    ensures q.concepts == ts[c.template].concepts && q.difficulty == ts[c.template].difficulty
    ensures Contains(q.code, d.table.columns[c.column].name)
    ensures c.other.Some? ==> Contains(q.code, d.table.columns[c.other.value].name)
    ensures forall v :: v in c.values ==> Contains(q.code, Show(v))
    ensures |q.preview.header| >= 1 && q.preview.header[0] == d.table.columns[c.column].name
    ensures forall n :: n in q.descriptions <==> n in q.preview.header
  {
    var t := ts[c.template];
    var col := d.table.columns[c.column].name;
    assert Usable(t);
    var pv := PreviewOf(d, ps, c.column, c.other);
    var code := RenderCode(t, col, c.binding);
    BoundValuesShown(t, ps[c.column], d.stats[c.column], c.binding, c.values, col);
    Question(
      QuestionId(d.name, t.id, c.serial),
      d.name,
      pv,
      Descriptions(pv.header),
      if c.other.Some? then "Analyzing " + entity + " data by categories." else "Working with " + entity + " data.",
      Render(t.question, QuestionArgs(t, entity, col, c.binding)),
      code,
      "Computed result",
      t.difficulty,
      t.concepts,
      if c.other.Some? then "Use " + Join(" and ", t.concepts) + " to solve this"
      else "Use " + t.concepts[0] + " to solve this",
      None,
      c)
  }

  /** The dictionaries of a sequence of sound choices, in order. */
  function Build(d: Dataset, ps: seq<Profile>, ts: seq<Template>, entity: string, cs: seq<Choice>): (qs: seq<Question>)
    requires Ctx(d, ps, ts) && Shaped(d) && UsableCatalog(ts) && AllSound(d, ps, ts, cs)
    ensures |qs| == |cs|
    ensures forall k :: 0 <= k < |qs| ==> qs[k] == MakeQuestion(d, ps, ts, entity, cs[k])
  {
    seq(|cs|, k requires 0 <= k < |cs| => MakeQuestion(d, ps, ts, entity, cs[k]))
  }

  /** Questions built from choices with distinct counters have distinct ids. */
  lemma BuildIdsDistinct(d: Dataset, ps: seq<Profile>, ts: seq<Template>, entity: string, cs: seq<Choice>)
    requires Ctx(d, ps, ts) && Shaped(d) && UsableCatalog(ts) && AllSound(d, ps, ts, cs)
    requires forall k, l :: 0 <= k < l < |cs| ==> cs[k].serial != cs[l].serial
    ensures forall k, l :: 0 <= k < l < |cs| ==>
      Build(d, ps, ts, entity, cs)[k].id != Build(d, ps, ts, entity, cs)[l].id
  {
    var qs := Build(d, ps, ts, entity, cs);
    forall k, l | 0 <= k < l < |cs|
      ensures qs[k].id != qs[l].id
    {
      QuestionIdInjective(d.name, ts[cs[k].template].id, ts[cs[l].template].id, cs[k].serial, cs[l].serial);
    }
  }

  /** `generate_questions_for_dataset(csv_path, dataset_name)`. A table with
      columns but no rows makes `analyze_column` divide by zero (`None`);
      otherwise the questions are numbered from 1 in loop order, their ids
      are distinct, and every one comes from a sound choice. */
  function GenerateForDataset(d: Dataset, ts: seq<Template>, pick: (nat, nat, nat) -> nat): (r: Option<seq<Question>>)
    requires Shaped(d) && UsableCatalog(ts)
    ensures r.None? <==> |d.table.columns| > 0 && d.table.rowCount == 0
    ensures r.Some? ==> forall k :: 0 <= k < |r.value| ==>
      && r.value[k].origin.serial == k + 1
      && r.value[k].dataset == d.name
      && r.value[k].explanation.None?
    ensures r.Some? ==> forall k :: 0 <= k < |r.value| ==>
      Sound(d, Profiles(d.table), ts, r.value[k].origin)
    ensures r.Some? ==> forall k, l :: 0 <= k < l < |r.value| ==> r.value[k].id != r.value[l].id
  {
    if |d.table.columns| > 0 && d.table.rowCount == 0 then None
    else
      var ps := Profiles(d.table);
      var cs := SynthColumns(d, ps, ts, pick, 0, 1);
      SynthColumnsSound(d, ps, ts, pick, 0, 1);
      BuildIdsDistinct(d, ps, ts, EntityType(d.name), cs);
      Some(Build(d, ps, ts, EntityType(d.name), cs))
  }

  /** The questions of a dataset with rows are built from the loop's
      choices, one question per choice, in order. */
  lemma GenerateOrigins(d: Dataset, ts: seq<Template>, pick: (nat, nat, nat) -> nat)
    requires Shaped(d) && UsableCatalog(ts) && d.table.rowCount > 0
    ensures GenerateForDataset(d, ts, pick).Some?
    ensures var cs := SynthColumns(d, Profiles(d.table), ts, pick, 0, 1);
      && |GenerateForDataset(d, ts, pick).value| == |cs|
      && forall k :: 0 <= k < |cs| ==> GenerateForDataset(d, ts, pick).value[k].origin == cs[k]
  {
    var ps := Profiles(d.table);
    var cs := SynthColumns(d, ps, ts, pick, 0, 1);
    SynthColumnsSound(d, ps, ts, pick, 0, 1);
    assert GenerateForDataset(d, ts, pick).value == Build(d, ps, ts, EntityType(d.name), cs);
  }

  /** Every non-identifier column of a loaded dataset gets a question from
      every single-column template whose flags it meets and whose literal it
      can bind. */
  lemma GenerateCoversTemplates(d: Dataset, ts: seq<Template>, pick: (nat, nat, nat) -> nat, cj: nat, tj: nat)
    requires Shaped(d) && UsableCatalog(ts) && d.table.rowCount > 0
    requires cj < |d.table.columns| && tj < |ts| && ts[tj].requiredOther.None?
    requires IsIdentifier !in Profiles(d.table)[cj].flags
    requires AllHold(Profiles(d.table)[cj], ts[tj].required)
    requires BindLiteral(ts[tj], Profiles(d.table)[cj], d.stats[cj], pick, cj, tj).Some?
    ensures GenerateForDataset(d, ts, pick).Some?
    ensures exists k :: 0 <= k < |GenerateForDataset(d, ts, pick).value|
                     && Applies(GenerateForDataset(d, ts, pick).value[k].origin, cj, tj)
  {
    var ps := Profiles(d.table);
    var cs := SynthColumns(d, ps, ts, pick, 0, 1);
    SynthColumnsCovers(d, ps, ts, pick, cj, tj, 1);
    var k :| 0 <= k < |cs| && Meets(cs[k], Applying(cj, tj));
    GenerateOrigins(d, ts, pick);
    assert GenerateForDataset(d, ts, pick).value[k].origin == cs[k];
  }

  /** Under every two-column template a non-identifier column of a loaded
      dataset meets, each partner column gets its paired question, unless
      that template's partner loop stopped on the multiple-of-5 `break` first. */
  lemma GeneratePairsCover(d: Dataset, ts: seq<Template>, pick: (nat, nat, nat) -> nat, ci: nat, ti: nat, j: nat)
    requires Shaped(d) && UsableCatalog(ts) && d.table.rowCount > 0
    requires ci < |d.table.columns| && j < |d.table.columns| && ti < |ts| && ts[ti].requiredOther.Some?
    requires IsIdentifier !in Profiles(d.table)[ci].flags
    requires AllHold(Profiles(d.table)[ci], ts[ti].required)
    requires Partner(Profiles(d.table), ts[ti], ci, j)
    ensures GenerateForDataset(d, ts, pick).Some?
    ensures exists k :: 0 <= k < |GenerateForDataset(d, ts, pick).value|
                     && PairsOrStops(GenerateForDataset(d, ts, pick).value[k].origin, ci, ti, j)
  {
    var ps := Profiles(d.table);
    var cs := SynthColumns(d, ps, ts, pick, 0, 1);
    SynthColumnsPairs(d, ps, ts, pick, ci, ti, j, 1);
    var k :| 0 <= k < |cs| && Meets(cs[k], Pairing(ci, ti, j));
    GenerateOrigins(d, ts, pick);
    assert GenerateForDataset(d, ts, pick).value[k].origin == cs[k];
  }

  /** `add_explanations(questions)`: every question gets the explanation of
      its concepts, and nothing else about it changes. */
  function AddExplanations(qs: seq<Question>): (r: seq<Question>)
    ensures |r| == |qs|
    ensures forall k :: 0 <= k < |r| ==> r[k].explanation == Some(Explain(qs[k].concepts))
    ensures forall k :: 0 <= k < |r| ==> r[k].(explanation := qs[k].explanation) == qs[k]
  {
    seq(|qs|, k requires 0 <= k < |qs| => qs[k].(explanation := Some(Explain(qs[k].concepts))))
  }

  /** The datasets `main` processes, in order. */
  const MainDatasets: seq<string> := [
    "powerplants.csv", "motorcycles.csv", "foods.csv", "grammys.csv", "race-places.csv",
    "tickets-tiny.csv", "crops.csv", "wreckers.csv", "overflows.csv", "forces.csv"]

  /** Every dataset `main` processes has its own entity noun. */
  lemma MainDatasetsNamed()
    ensures forall k :: 0 <= k < |MainDatasets| ==> EntityType(MainDatasets[k]) != "record"
  {
  }

  /** A dataset file as `main` finds it: missing (`os.path.exists` is
      false), failing to load, or loaded. */
  datatype SourceFile = NotFound | Unreadable | Loaded(data: Dataset)

  /** The explained questions of one loaded dataset; a dataset whose
      generation raises contributes none (`main`'s `except`). */
  function DatasetQuestions(d: Dataset, ts: seq<Template>, pick: (nat, nat, nat) -> nat): (r: seq<Question>)
    requires Shaped(d) && UsableCatalog(ts)
    ensures forall k :: 0 <= k < |r| ==> r[k].dataset == d.name && r[k].explanation == Some(Explain(r[k].concepts))
    ensures |r| == 0 <==> GenerateForDataset(d, ts, pick).None? || |GenerateForDataset(d, ts, pick).value| == 0
  {
    match GenerateForDataset(d, ts, pick)
    case None => []
    case Some(qs) => Explained(d.name, qs)
  }

  /** `add_explanations` on the questions of dataset `name`. */
  function Explained(name: string, qs: seq<Question>): (r: seq<Question>)
    requires forall k :: 0 <= k < |qs| ==> qs[k].dataset == name
    ensures |r| == |qs|
    ensures forall k :: 0 <= k < |r| ==> r[k].dataset == name && r[k].explanation == Some(Explain(r[k].concepts))
  {
    var r := AddExplanations(qs);
    assert forall k :: 0 <= k < |r| ==> r[k].dataset == qs[k].dataset && r[k].concepts == qs[k].concepts;
    r
  }

  /** The questions one file contributes to the pool: none when it is
      missing or fails to load. */
  function FileQuestions(f: SourceFile, ts: seq<Template>, pick: (nat, nat, nat) -> nat): (r: seq<Question>)
    requires f.Loaded? ==> Shaped(f.data)
    requires UsableCatalog(ts)
    ensures f.Loaded? ==> r == DatasetQuestions(f.data, ts, pick)
    ensures !f.Loaded? ==> r == []
  {
    if f.Loaded? then DatasetQuestions(f.data, ts, pick) else []
  }

  /** Each file's contribution, file by file. */
  function FileParts(files: seq<SourceFile>, ts: seq<Template>, pick: (nat, nat, nat, nat) -> nat): (r: seq<seq<Question>>)
    requires forall j :: 0 <= j < |files| && files[j].Loaded? ==> Shaped(files[j].data)
    requires UsableCatalog(ts)
    ensures |r| == |files|
    ensures forall j :: 0 <= j < |files| ==> r[j] == FileQuestions(files[j], ts, FilePick(pick, j))
  {
    seq(|files|, j requires 0 <= j < |files| => FileQuestions(files[j], ts, FilePick(pick, j)))
  }

  /** The pool `main` collects, before `random.shuffle`: a file that is
      missing or fails to load contributes nothing, and every pooled
      question is explained and comes from a loaded file. */
  function PoolFrom(files: seq<SourceFile>, ts: seq<Template>, pick: (nat, nat, nat, nat) -> nat): (r: seq<Question>)
    requires forall j :: 0 <= j < |files| && files[j].Loaded? ==> Shaped(files[j].data)
    requires UsableCatalog(ts)
    ensures forall k :: 0 <= k < |r| ==> r[k].explanation == Some(Explain(r[k].concepts))
    ensures forall k :: 0 <= k < |r| ==> r[k].dataset in LoadedNames(files)
  {
    PooledExplained(files, ts, pick);
    Concat(FileParts(files, ts, pick), 0)
  }

  lemma PooledExplained(files: seq<SourceFile>, ts: seq<Template>, pick: (nat, nat, nat, nat) -> nat)
    requires forall j :: 0 <= j < |files| && files[j].Loaded? ==> Shaped(files[j].data)
    requires UsableCatalog(ts)
    ensures forall q :: q in Concat(FileParts(files, ts, pick), 0) ==>
      q.explanation == Some(Explain(q.concepts)) && q.dataset in LoadedNames(files)
  {
    var parts := FileParts(files, ts, pick);
    var r := Concat(parts, 0);
    forall q | q in r ensures q.explanation == Some(Explain(q.concepts)) && q.dataset in LoadedNames(files) {
      var k :| 0 <= k < |r| && r[k] == q;
      var j :| 0 <= j < |parts| && q in parts[j];
      FileQuestionExplained(files, ts, pick, j, q);
    }
  }

  /** A question in file `j`'s part is explained and names a loaded dataset. */
  lemma FileQuestionExplained(files: seq<SourceFile>, ts: seq<Template>, pick: (nat, nat, nat, nat) -> nat, j: nat, q: Question)
    requires forall j :: 0 <= j < |files| && files[j].Loaded? ==> Shaped(files[j].data)
    requires UsableCatalog(ts) && j < |files|
    requires q in FileQuestions(files[j], ts, FilePick(pick, j))
    ensures files[j].Loaded?
    ensures q.explanation == Some(Explain(q.concepts)) && q.dataset in LoadedNames(files)
  {
    var qs := DatasetQuestions(files[j].data, ts, FilePick(pick, j));
    var m :| 0 <= m < |qs| && qs[m] == q;
    assert q.dataset == files[j].data.name;
  }

  /** The names of the datasets that loaded. */
  function LoadedNames(files: seq<SourceFile>): set<string> {
    set j | 0 <= j < |files| && files[j].Loaded? :: files[j].data.name
  }

  /** The random choices made while generating questions for file `i`. */
  function FilePick(pick: (nat, nat, nat, nat) -> nat, i: nat): (nat, nat, nat) -> nat {
    (c, t, k) => pick(i, c, t, k)
  }

  /** Nothing generated for a loaded file is lost from the pool. */
  lemma PoolKeepsDataset(files: seq<SourceFile>, j: nat, ts: seq<Template>,
                         pick: (nat, nat, nat, nat) -> nat, q: Question)
    requires forall j :: 0 <= j < |files| && files[j].Loaded? ==> Shaped(files[j].data)
    requires UsableCatalog(ts) && j < |files| && files[j].Loaded?
    requires q in DatasetQuestions(files[j].data, ts, FilePick(pick, j))
    ensures q in PoolFrom(files, ts, pick)
  {
    ConcatKeeps(FileParts(files, ts, pick), 0, j, q);
  }

  /** `main` before the shuffle: the pool of explained questions over the
      files, with the script's own template catalog. */
  function GenerationPool(files: seq<SourceFile>, pick: (nat, nat, nat, nat) -> nat): (r: seq<Question>)
    requires forall j :: 0 <= j < |files| && files[j].Loaded? ==> Shaped(files[j].data)
    ensures forall k :: 0 <= k < |r| ==> r[k].explanation == Some(Explain(r[k].concepts))
    ensures forall k :: 0 <= k < |r| ==> r[k].dataset in LoadedNames(files)
  {
    CatalogUsable();
    PoolFrom(files, Catalog(), pick)
  }
}
