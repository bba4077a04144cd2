/** Question and code templates. A Python template string such as
    `'What is the average {column}?'` is kept already split into literal
    text and named placeholders; `str.format` fills every placeholder from
    the keyword arguments it is given. */
module Templates {
  import opened Wrappers
  import opened Text
  import opened Capabilities

  /** The placeholder names the templates use. */
  datatype Hole =
    | EntityHole | ColumnHole | OtherColumnHole
    | ValueHole | Value1Hole | Value2Hole | SubstringHole

  datatype Piece = Lit(text: string) | Slot(hole: Hole)

  type Pattern = seq<Piece>

  /** Shorthands for the placeholders, as the catalogs spell them. */
  const Entity := Slot(EntityHole)
  const Col := Slot(ColumnHole)
  const OtherCol := Slot(OtherColumnHole)
  const Val := Slot(ValueHole)
  const Val1 := Slot(Value1Hole)
  const Val2 := Slot(Value2Hole)
  const Sub := Slot(SubstringHole)

  /** Every placeholder from position `i` on is one of `keys`. */
  predicate FillableFrom(p: Pattern, i: nat, keys: set<Hole>)
    requires i <= |p|
    decreases |p| - i
  {
    i == |p| || ((p[i].Lit? || p[i].hole in keys) && FillableFrom(p, i + 1, keys))
  }

  /** `pattern.format(**env)` succeeds when `env` has these keys: every
      placeholder is supplied (a missing one makes `str.format` raise `KeyError`). */
  predicate Fillable(p: Pattern, keys: set<Hole>) {
    FillableFrom(p, 0, keys)
  }

  lemma {:induction false} FillableFromIndex(p: Pattern, i: nat, keys: set<Hole>, k: nat)
    requires i <= k < |p| && p[k].Slot? && FillableFrom(p, i, keys)
    ensures p[k].hole in keys
    decreases k - i
  {
    if i < k {
      FillableFromIndex(p, i + 1, keys, k);
    }
  }

  /** The text of pieces `i..` with every placeholder filled from `env`. */
  function RenderFrom(p: Pattern, i: nat, env: map<Hole, string>): string
    requires i <= |p| && FillableFrom(p, i, env.Keys)
    decreases |p| - i
  {
    if i == |p| then ""
    else
      (match p[i]
       case Lit(s) => s
       case Slot(h) => env[h])
      + RenderFrom(p, i + 1, env)
  }

  /** `pattern.format(**env)`. */
  function Render(p: Pattern, env: map<Hole, string>): string
    requires Fillable(p, env.Keys)
  {
    RenderFrom(p, 0, env)
  }

  lemma {:induction false} RenderFromMentions(p: Pattern, i: nat, env: map<Hole, string>, k: nat)
    requires i <= k < |p| && p[k].Slot?
    requires FillableFrom(p, i, env.Keys)
    ensures p[k].hole in env.Keys
    ensures Contains(RenderFrom(p, i, env), env[p[k].hole])
    decreases k - i
  {
    FillableFromIndex(p, i, env.Keys, k);
    var v := env[p[k].hole];
    var head := match p[i] case Lit(s) => s case Slot(h) => env[h];
    if i == k {
      assert StartsWith(head + RenderFrom(p, i + 1, env), v);
    } else {
      RenderFromMentions(p, i + 1, env, k);
      ContainsAfter(head, RenderFrom(p, i + 1, env), v);
    }
  }

  /** Every supplied value a pattern mentions appears in its rendering: the
      column name, the sampled literal and the other column are all
      visible in the question and code they were bound into. */
  lemma RenderMentions(p: Pattern, env: map<Hole, string>, k: nat)
    requires Fillable(p, env.Keys)
    requires k < |p| && p[k].Slot?
    ensures p[k].hole in env.Keys
    ensures Contains(Render(p, env), env[p[k].hole])
  {
    RenderFromMentions(p, 0, env, k);
  }

  /** Which sampled literal a single-column template binds. */
  datatype Literal =
    | NoLiteral          // only entity and column names
    | OneValue           // 'needs_value'
    | NumericThreshold   // 'needs_numeric_value'
    | TwoValues          // 'needs_two_values'
    | SubstringOfSample  // 'needs_substring'

  /** One catalog entry. `requiredOther` (`requires_other`) is present exactly for the
      two-column (group-by) templates; `concepts` is empty for the question
      bank catalog, which has none. */
  datatype Template = Template(
    id: string,
    required: seq<Requirement>,
    requiredOther: Option<seq<Requirement>>,
    question: Pattern,
    code: Pattern,
    difficulty: nat,
    literal: Literal,
    valueInQuestion: bool,
    concepts: seq<string>)

  /** Template ids are distinct across a catalog. */
  predicate IdsDistinct(ts: seq<Template>) {
    forall i, j :: 0 <= i < j < |ts| ==> ts[i].id != ts[j].id
  }

  /** The ids of the templates, in catalog order. */
  function Ids(ts: seq<Template>): (r: seq<string>)
    ensures |r| == |ts|
    ensures forall i :: 0 <= i < |ts| ==> r[i] == ts[i].id
  {
    seq(|ts|, i requires 0 <= i < |ts| => ts[i].id)
  }

  /** Distinct ids in order make a catalog's ids distinct. */
  lemma IdsNoDup(ts: seq<Template>)
    requires NoDup(Ids(ts))
    ensures IdsDistinct(ts)
  {
    forall i, j | 0 <= i < j < |ts| ensures ts[i].id != ts[j].id {
      assert Ids(ts)[i] != Ids(ts)[j];
    }
  }
}
