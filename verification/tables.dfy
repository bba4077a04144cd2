/** The in-memory table a dataset is loaded into: named columns of cells,
    each cell a number, a string or missing (NaN). Numbers carry the text
    Python prints for them; their arithmetic is never needed here. */
module Tables {
  import opened Text

  datatype Value = Num(shown: string) | Str(text: string)

  /** `str(v)`. */
  function Show(v: Value): string {
    match v
    case Num(s) => s
    case Str(s) => s
  }

  datatype Cell = Missing | Present(value: Value)

  /** The column kind `pd.api.types.is_numeric_dtype` reports. */
  datatype Kind = Numeric | Categorical

  datatype Column = Column(name: string, kind: Kind, cells: seq<Cell>)

  datatype Table = Table(columns: seq<Column>, rowCount: nat)

  /** `list(df.columns)`. */
  function Names(t: Table): (r: seq<string>)
    ensures |r| == |t.columns|
    ensures forall i :: 0 <= i < |r| ==> r[i] == t.columns[i].name
  {
    seq(|t.columns|, i requires 0 <= i < |t.columns| => t.columns[i].name)
  }

  /** Every column has one cell per row, and column names are distinct
      (`read_csv` renames repeated headers). */
  predicate WellFormed(t: Table) {
    && (forall i :: 0 <= i < |t.columns| ==> |t.columns[i].cells| == t.rowCount)
    && NoDup(Names(t))
  }

  /** `isnull().sum()`. */
  function NullCount(cells: seq<Cell>): (r: nat)
    ensures r <= |cells|
    decreases |cells|
  {
    if |cells| == 0 then 0
    else NullCount(cells[..|cells| - 1]) + (if cells[|cells| - 1].Missing? then 1 else 0)
  }

  /** `dropna().tolist()`: the present values in table order. */
  function NonMissing(cells: seq<Cell>): (r: seq<Value>)
    ensures |r| + NullCount(cells) == |cells|
    decreases |cells|
  {
    if |cells| == 0 then []
    else
      var last := cells[|cells| - 1];
      NonMissing(cells[..|cells| - 1]) + (if last.Present? then [last.value] else [])
  }

  /** The present values are exactly the values of the present cells. */
  lemma {:induction false} NonMissingMembers(cells: seq<Cell>, v: Value)
    ensures v in NonMissing(cells) <==> Present(v) in cells
    decreases |cells|
  {
    if |cells| > 0 {
      var init := cells[..|cells| - 1];
      NonMissingMembers(init, v);
      assert cells == init + [cells[|cells| - 1]];
    }
  }

  /** Dropping missing cells distributes over concatenation: together with
      its one-cell cases this pins `NonMissing` down as the order-preserving filter. */
  lemma {:induction false} NonMissingAppend(a: seq<Cell>, b: seq<Cell>)
    ensures NonMissing(a + b) == NonMissing(a) + NonMissing(b)
    decreases |b|
  {
    if |b| == 0 {
      assert a + b == a;
    } else {
      var b' := b[..|b| - 1];
      var c := b[|b| - 1];
      var ab := a + b;
      var tail: seq<Value> := if c.Present? then [c.value] else [];
      NonMissingAppend(a, b');
      assert ab[..|ab| - 1] == a + b';
      assert ab[|ab| - 1] == c;
      assert NonMissing(ab) == NonMissing(a + b') + tail;
      assert NonMissing(b) == NonMissing(b') + tail;
    }
  }

  /** How often `v` occurs in the column (an entry of `value_counts()`). */
  function Occurrences(cells: seq<Cell>, v: Value): (r: nat)
    ensures r <= |cells|
    ensures r > 0 <==> Present(v) in cells
    decreases |cells|
  {
    if |cells| == 0 then 0
    else
      var init := cells[..|cells| - 1];
      assert cells == init + [cells[|cells| - 1]];
      Occurrences(init, v) + (if cells[|cells| - 1] == Present(v) then 1 else 0)
  }

  /** The distinct present values of a column. */
  function DistinctValues(cells: seq<Cell>): set<Value> {
    set i | 0 <= i < |cells| && cells[i].Present? :: cells[i].value
  }

  /** `nunique()`. */
  function UniqueCount(cells: seq<Cell>): nat {
    |DistinctValues(cells)|
  }

  /** A column has no more distinct values than present cells, so the unique
      ratio `nunique() / len(df)` never exceeds 1. */
  lemma {:induction false} UniqueCountBound(cells: seq<Cell>)
    ensures UniqueCount(cells) + NullCount(cells) <= |cells|
    decreases |cells|
  {
    if |cells| > 0 {
      var init := cells[..|cells| - 1];
      var last := cells[|cells| - 1];
      UniqueCountBound(init);
      if last.Present? {
        assert DistinctValues(cells) <= DistinctValues(init) + {last.value} by {
          forall v | v in DistinctValues(cells)
            ensures v in DistinctValues(init) + {last.value}
          {
            var i :| 0 <= i < |cells| && cells[i].Present? && cells[i].value == v;
            if i < |cells| - 1 {
              assert init[i] == cells[i];
            }
          }
        }
        assert cells[..|cells| - 1] == init;
        assert NullCount(cells) == NullCount(init);
        SubsetCard(DistinctValues(cells), DistinctValues(init) + {last.value});
      } else {
        assert cells[..|cells| - 1] == init;
        assert NullCount(cells) == NullCount(init) + 1;
        SubsetCard(DistinctValues(cells), DistinctValues(init));
        assert DistinctValues(cells) <= DistinctValues(init) by {
          forall v | v in DistinctValues(cells)
            ensures v in DistinctValues(init)
          {
            var i :| 0 <= i < |cells| && cells[i].Present? && cells[i].value == v;
            assert init[i] == cells[i];
          }
        }
      }
    }
  }

  lemma SubsetCard<T>(a: set<T>, b: set<T>)
    requires a <= b
    ensures |a| <= |b|
  {
    assert b == a + (b - a);
  }

  /** The names of the selected columns, in selection order. */
  function NamesAt(t: Table, idx: seq<nat>): (r: seq<string>)
    requires forall k :: 0 <= k < |idx| ==> idx[k] < |t.columns|
    ensures |r| == |idx|
    ensures forall k :: 0 <= k < |idx| ==> r[k] == t.columns[idx[k]].name
  {
    seq(|idx|, k requires 0 <= k < |idx| => t.columns[idx[k]].name)
  }

  /** Distinct selections of distinctly named columns have distinct names. */
  lemma NamesAtNoDup(t: Table, idx: seq<nat>)
    requires WellFormed(t)
    requires forall k :: 0 <= k < |idx| ==> idx[k] < |t.columns|
    requires NoDup(idx)
    ensures NoDup(NamesAt(t, idx))
  {
    var names := NamesAt(t, idx);
    forall i, j | 0 <= i < j < |names|
      ensures names[i] != names[j]
    {
      assert Names(t)[idx[i]] == names[i] && Names(t)[idx[j]] == names[j];
      if idx[i] < idx[j] {
        assert Names(t)[idx[i]] != Names(t)[idx[j]];
      } else {
        assert Names(t)[idx[j]] != Names(t)[idx[i]];
      }
    }
  }

  /** `df[cols].head(n).values.tolist()`: the first `n` rows restricted to the
      selected columns, in selection order. */
  function HeadRows(t: Table, idx: seq<nat>, n: nat): (rows: seq<seq<Cell>>)
    requires WellFormed(t)
    requires forall k :: 0 <= k < |idx| ==> idx[k] < |t.columns|
    ensures |rows| == if t.rowCount < n then t.rowCount else n
    ensures forall r :: 0 <= r < |rows| ==> |rows[r]| == |idx|
    ensures forall r, k :: 0 <= r < |rows| && 0 <= k < |idx| ==> rows[r][k] == t.columns[idx[k]].cells[r]
  {
    var m := if t.rowCount < n then t.rowCount else n;
    seq(m, r requires 0 <= r < m =>
      seq(|idx|, k requires 0 <= k < |idx| => t.columns[idx[k]].cells[r]))
  }
}
