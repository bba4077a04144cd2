/** String and list helpers with the meaning Python gives them in the
    generator and reviewer scripts: the `in` substring test, `str.lower`,
    `str.replace(pat, '')`, `str.rstrip(c)`, `str.join` and the
    order-preserving de-duplication `list(dict.fromkeys(xs))`. */
module Text {
  import opened Wrappers

  /** `p` is a prefix of `s`. */
  predicate StartsWith(s: string, p: string) {
    |p| <= |s| && s[..|p|] == p
  }

  /** Python's `pat in s`: `pat` occurs somewhere in `s` (the empty string occurs everywhere). */
  predicate Contains(s: string, pat: string)
    decreases |s|
  {
    StartsWith(s, pat) || (|s| > 0 && Contains(s[1..], pat))
  }

  /** `pat` occurs in `s` at position `i`. */
  ghost predicate OccursAt(s: string, pat: string, i: int) {
    0 <= i && i + |pat| <= |s| && s[i..i + |pat|] == pat
  }

  /** The scanning definition of `Contains` agrees with the positional one. */
  lemma {:induction false} ContainsIff(s: string, pat: string)
    ensures Contains(s, pat) <==> exists i :: OccursAt(s, pat, i)
    decreases |s|
  {
    if |s| > 0 {
      ContainsIff(s[1..], pat);
    }
    if Contains(s, pat) {
      if StartsWith(s, pat) {
        assert OccursAt(s, pat, 0);
      } else {
        var j :| OccursAt(s[1..], pat, j);
        assert s[1..][j..j + |pat|] == s[j + 1..j + 1 + |pat|];
        assert OccursAt(s, pat, j + 1);
      }
    }
    if exists i :: OccursAt(s, pat, i) {
      var i :| OccursAt(s, pat, i);
      if i > 0 {
        assert s[1..][i - 1..i - 1 + |pat|] == s[i..i + |pat|];
        assert OccursAt(s[1..], pat, i - 1);
      }
    }
  }

  /** A substring of a suffix is a substring of the whole. */
  lemma ContainsOfTail(s: string, pat: string)
    requires |s| > 0 && Contains(s[1..], pat)
    ensures Contains(s, pat)
  {
  }

  /** A pattern holding a character that `s` lacks does not occur in `s`. */
  lemma {:induction false} MissingCharNotContained(s: string, pat: string, c: char)
    requires c in pat && c !in s
    ensures !Contains(s, pat)
    decreases |s|
  {
    if |s| > 0 {
      MissingCharNotContained(s[1..], pat, c);
    }
  }

  /** A substring of the second part of a concatenation is a substring of the whole. */
  lemma {:induction false} ContainsAfter(head: string, tail: string, pat: string)
    requires Contains(tail, pat)
    ensures Contains(head + tail, pat)
    decreases |head|
  {
    if |head| > 0 {
      ContainsAfter(head[1..], tail, pat);
      assert (head + tail)[1..] == head[1..] + tail;
    } else {
      assert head + tail == tail;
    }
  }

  /** ASCII lower-casing of one character. */
  function LowerChar(c: char): char {
    if 'A' <= c <= 'Z' then (c as int - 'A' as int + 'a' as int) as char else c
  }

  /** Python's `str.lower()`, restricted to ASCII letters. */
  function Lower(s: string): (r: string)
    ensures |r| == |s|
    ensures forall i :: 0 <= i < |s| ==> r[i] == LowerChar(s[i])
  {
    seq(|s|, i requires 0 <= i < |s| => LowerChar(s[i]))
  }

  /** Python's `s.replace(pat, '')`: every occurrence found by a left-to-right
      scan is removed, and scanning resumes after it. */
  function RemoveAll(s: string, pat: string): (r: string)
    requires |pat| > 0
    ensures |r| <= |s|
    decreases |s|
  {
    if |s| < |pat| then s
    else if s[..|pat|] == pat then RemoveAll(s[|pat|..], pat)
    else [s[0]] + RemoveAll(s[1..], pat)
  }

  /** Removing a pattern that does not occur changes nothing. */
  lemma {:induction false} RemoveAllAbsent(s: string, pat: string)
    requires |pat| > 0 && !Contains(s, pat)
    ensures RemoveAll(s, pat) == s
    decreases |s|
  {
    if |s| >= |pat| {
      assert s[..|pat|] != pat;
      RemoveAllAbsent(s[1..], pat);
      assert [s[0]] + s[1..] == s;
    }
  }

  /** Removing ".csv" from a name of the form `x + ".csv"` gives back `x`
      whenever `x` itself does not contain ".csv" (".csv" cannot overlap itself). */
  lemma {:induction false} RemoveCsvSuffix(x: string)
    requires !Contains(x, ".csv")
    ensures RemoveAll(x + ".csv", ".csv") == x
    decreases |x|
  {
    var s := x + ".csv";
    if |x| == 0 {
      assert s == ".csv";
      assert s[4..] == [];
    } else {
      assert s[..4] != ".csv" by {
        if |x| >= 4 {
          assert s[..4] == x[..4];
          assert !StartsWith(x, ".csv");
        } else if |x| == 1 {
          assert s[1] == '.';
        } else if |x| == 2 {
          assert s[2] == '.';
        } else {
          assert s[3] == '.';
        }
      }
      assert !Contains(x[1..], ".csv") by {
        if Contains(x[1..], ".csv") {
          ContainsOfTail(x, ".csv");
        }
      }
      RemoveCsvSuffix(x[1..]);
      assert s[1..] == x[1..] + ".csv";
      assert [x[0]] + x[1..] == x;
    }
  }

  /** Python's `s.rstrip(c)` for a single character `c`. */
  function RStrip(s: string, c: char): (r: string)
    ensures StartsWith(s, r)
    ensures |r| == 0 || r[|r| - 1] != c
    ensures forall i :: |r| <= i < |s| ==> s[i] == c
    decreases |s|
  {
    if |s| > 0 && s[|s| - 1] == c then RStrip(s[..|s| - 1], c) else s
  }

  /** Python's `sep.join(xs)`. */
  function Join(sep: string, xs: seq<string>): string
    decreases |xs|
  {
    if |xs| == 0 then ""
    else if |xs| == 1 then xs[0]
    else xs[0] + sep + Join(sep, xs[1..])
  }

  /** `xs[:n]`. */
  function Take<T>(xs: seq<T>, n: nat): (r: seq<T>)
    ensures |r| == if |xs| < n then |xs| else n
    ensures r == xs[..|r|]
  {
    if |xs| < n then xs else xs[..n]
  }

  /** No element occurs twice. */
  predicate NoDup<T(==)>(xs: seq<T>) {
    forall i, j :: 0 <= i < j < |xs| ==> xs[i] != xs[j]
  }

  /** Python's `list(dict.fromkeys(xs))`: the first occurrence of each element, in order. */
  function Dedup<T(==,!new)>(xs: seq<T>): (r: seq<T>)
    ensures NoDup(r)
    ensures forall x :: x in r <==> x in xs
    ensures |r| <= |xs|
    ensures |xs| > 0 ==> |r| > 0 && r[0] == xs[0]
    decreases |xs|
  {
    if |xs| == 0 then []
    else
      var init := Dedup(xs[..|xs| - 1]);
      var last := xs[|xs| - 1];
      assert xs == xs[..|xs| - 1] + [last];
      if last in init then init else init + [last]
  }

  /** A duplicate-free prefix survives de-duplication unchanged. */
  lemma {:induction false} DedupKeepsPrefix<T(!new)>(p: seq<T>, q: seq<T>)
    requires NoDup(p)
    ensures |p| <= |Dedup(p + q)| && Dedup(p + q)[..|p|] == p
    decreases |q|, |p|
  {
    if |q| == 0 {
      assert p + q == p;
      if |p| > 0 {
        var init := p[..|p| - 1];
        DedupKeepsPrefix(init, []);
        assert init + [] == init;
        assert p[|p| - 1] !in init;
        assert p == init + [p[|p| - 1]];
      }
    } else {
      var q' := q[..|q| - 1];
      DedupKeepsPrefix(p, q');
      assert (p + q)[..|p + q| - 1] == p + q';
    }
  }

  /** The position of the first occurrence of `x` in `xs`. */
  function FirstIndex<T(==)>(xs: seq<T>, x: T): (i: nat)
    requires x in xs
    ensures i < |xs| && xs[i] == x && x !in xs[..i]
  {
    if xs[0] == x then 0
    else
      var i := 1 + FirstIndex(xs[1..], x);
      assert xs[..i] == [xs[0]] + xs[1..][..i - 1];
      i
  }

  /** An element of the prefix is first found in the prefix. */
  lemma FirstIndexPrefix<T>(p: seq<T>, q: seq<T>, x: T)
    requires x in p
    ensures FirstIndex(p + q, x) == FirstIndex(p, x)
  {
    var i, k := FirstIndex(p + q, x), FirstIndex(p, x);
    assert (p + q)[k] == x;
  }

  /** Every element of `r` occurs in `xs`, and of any two elements of `r`
      the earlier one occurs first in `xs`. */
  predicate InFirstOrder<T(==)>(xs: seq<T>, r: seq<T>) {
    && (forall k :: 0 <= k < |r| ==> r[k] in xs)
    && (forall i, j :: 0 <= i < j < |r| ==> FirstIndex(xs, r[i]) < FirstIndex(xs, r[j]))
  }

  /** `dict.fromkeys` keeps elements in the order they first occur. */
  lemma {:induction false} DedupInOrder<T(!new)>(xs: seq<T>)
    ensures InFirstOrder(xs, Dedup(xs))
    decreases |xs|
  {
    if |xs| > 0 {
      var p := xs[..|xs| - 1];
      var last := xs[|xs| - 1];
      var init := Dedup(p);
      assert xs == p + [last];
      DedupInOrder(p);
      forall y | y in init ensures FirstIndex(xs, y) == FirstIndex(p, y) {
        FirstIndexPrefix(p, [last], y);
      }
      if last !in init {
        assert last !in p;
        assert FirstIndex(xs, last) == |p|;
      }
    }
  }

  /** Dedup is the only duplicate-free sequence of the members of `xs` in
      first-occurrence order. */
  lemma DedupUnique<T(!new)>(xs: seq<T>, r: seq<T>)
    requires NoDup(r) && InFirstOrder(xs, r)
    requires forall x :: x in xs ==> x in r
    ensures r == Dedup(xs)
  {
    DedupInOrder(xs);
    SameOrderedEqual(xs, r, Dedup(xs));
  }

  /** Two duplicate-free sequences with the same members, both in
      first-occurrence order of `xs`, are equal. */
  lemma {:induction false} SameOrderedEqual<T(!new)>(xs: seq<T>, r: seq<T>, s: seq<T>)
    requires NoDup(r) && NoDup(s) && InFirstOrder(xs, r) && InFirstOrder(xs, s)
    requires forall x :: x in r <==> x in s
    ensures r == s
    decreases |r|
  {
    SameMembersEmpty(r, s);
    if |r| > 0 {
      OrderedHeads(xs, r, s);
      forall x ensures x in r[1..] <==> x in s[1..] {
        if x in r[1..] {
          var k :| 1 <= k < |r| && r[k] == x;
          assert x in r;
          var m :| 0 <= m < |s| && s[m] == x;
          assert m != 0 && s[1..][m - 1] == x;
        }
        if x in s[1..] {
          var k :| 1 <= k < |s| && s[k] == x;
          assert x in s;
          var m :| 0 <= m < |r| && r[m] == x;
          assert m != 0 && r[1..][m - 1] == x;
        }
      }
      SameOrderedEqual(xs, r[1..], s[1..]);
    }
  }

  /** Of two such sequences, both start with the member that occurs first in `xs`. */
  lemma OrderedHeads<T(!new)>(xs: seq<T>, r: seq<T>, s: seq<T>)
    requires InFirstOrder(xs, r) && InFirstOrder(xs, s) && |r| > 0 && |s| > 0
    requires forall x :: x in r <==> x in s
    ensures r[0] == s[0]
  {
    assert r[0] in s && s[0] in r;
    HeadFirst(xs, r, s[0]);
    HeadFirst(xs, s, r[0]);
  }

  /** The head of a sequence in first-occurrence order occurs first in `xs`. */
  lemma HeadFirst<T(!new)>(xs: seq<T>, r: seq<T>, x: T)
    requires InFirstOrder(xs, r) && x in r
    ensures FirstIndex(xs, r[0]) <= FirstIndex(xs, x)
  {
    var k :| 0 <= k < |r| && r[k] == x;
  }

  /** Sequences with the same members are empty together. */
  lemma SameMembersEmpty<T>(r: seq<T>, s: seq<T>)
    requires forall x :: x in r <==> x in s
    ensures |r| == 0 <==> |s| == 0
  {
    if |s| > 0 {
      assert s[0] in s;
    }
    if |r| > 0 {
      assert r[0] in r;
    }
  }

  /** The parts `parts[i..]` joined in order, as repeated `list.extend` does. */
  function Concat<T>(parts: seq<seq<T>>, i: nat): (r: seq<T>)
    ensures forall k :: 0 <= k < |r| ==> exists j :: i <= j < |parts| && r[k] in parts[j]
    decreases |parts| - i
  {
    if i >= |parts| then []
    else
      var rest := Concat(parts, i + 1);
      assert forall k :: 0 <= k < |rest| ==> exists j :: i <= j < |parts| && rest[k] in parts[j];
      parts[i] + rest
  }

  /** One step of the join: part `i`, then the parts after it. */
  lemma ConcatStep<T>(parts: seq<seq<T>>, i: nat)
    requires i < |parts|
    ensures Concat(parts, i) == parts[i] + Concat(parts, i + 1)
  {
  }

  /** Joining loses nothing: a member of part `j` is in the join from `i <= j`. */
  lemma {:induction false} ConcatKeeps<T>(parts: seq<seq<T>>, i: nat, j: nat, x: T)
    requires i <= j < |parts| && x in parts[j]
    ensures x in Concat(parts, i)
    decreases j - i
  {
    if i < j {
      ConcatKeeps(parts, i + 1, j, x);
    }
  }

  /** The total length of parts `i..j-1`. */
  function LengthBefore<T>(parts: seq<seq<T>>, i: nat, j: nat): nat
    requires i <= j <= |parts|
    decreases j - i
  {
    if i == j then 0 else |parts[i]| + LengthBefore(parts, i + 1, j)
  }

  /** Part `j` sits in the join as one block, right after the parts before
      it, and the join is exactly as long as the parts together. */
  lemma {:induction false} ConcatPlaces<T>(parts: seq<seq<T>>, i: nat, j: nat)
    requires i <= j < |parts|
    ensures LengthBefore(parts, i, j) + |parts[j]| <= |Concat(parts, i)|
    ensures Concat(parts, i)[LengthBefore(parts, i, j)..LengthBefore(parts, i, j) + |parts[j]|] == parts[j]
    decreases j - i
  {
    var r := Concat(parts, i);
    var rest := Concat(parts, i + 1);
    assert r == parts[i] + rest;
    if i < j {
      ConcatPlaces(parts, i + 1, j);
      var at := LengthBefore(parts, i + 1, j);
      assert r[|parts[i]| + at..|parts[i]| + at + |parts[j]|] == rest[at..at + |parts[j]|];
    } else {
      assert r[..|parts[j]|] == parts[j];
    }
  }

  /** The join is as long as the parts together. */
  lemma {:induction false} ConcatLength<T>(parts: seq<seq<T>>, i: nat)
    requires i <= |parts|
    ensures |Concat(parts, i)| == LengthBefore(parts, i, |parts|)
    decreases |parts| - i
  {
    if i < |parts| {
      ConcatLength(parts, i + 1);
    }
  }

  /** The parts from `i` on joined in order, or `None` when one of them is
      `None`: a loop of `list.extend` calls that stops on an exception. */
  function JoinAll<T>(parts: seq<Option<seq<T>>>, i: nat): (r: Option<seq<T>>)
    ensures r.None? <==> exists j :: i <= j < |parts| && parts[j].None?
    decreases |parts| - i
  {
    if i >= |parts| then Some([])
    else
      var rest := JoinAll(parts, i + 1);
      if parts[i].None? || rest.None? then None
      else Some(parts[i].value + rest.value)
  }

  /** When no part is missing, the join is the parts' values joined in order. */
  lemma {:induction false} JoinAllConcat<T>(parts: seq<Option<seq<T>>>, blocks: seq<seq<T>>, i: nat)
    requires |blocks| == |parts| && i <= |parts| && JoinAll(parts, i).Some?
    requires forall j :: 0 <= j < |parts| ==> blocks[j] == parts[j].GetOr([])
    ensures JoinAll(parts, i).value == Concat(blocks, i)
    decreases |parts| - i
  {
    if i < |parts| {
      JoinAllConcat(parts, blocks, i + 1);
      ConcatStep(blocks, i);
    }
  }
}
