/** The column analysis record both generators build: statistics of the
    column plus its capability flags. The Python analysis is a dictionary
    whose absent flags read as `False` through `analysis.get(flag, False)`;
    here the record keeps the set of flags that are true, so an absent
    flag and a false flag are the same thing. */
module Capabilities {
  import opened Text
  import opened Tables

  datatype Capability =
    | IsNumeric | IsCategorical | IsIdentifier
    | CanSum | CanMean | CanSort | CanRank
    | CanGroupBy | CanValueCount | CanFilter

  /** A key of a template's `requires` / `requires_other` list. `AnyColumn` is
      the string 'any', which no analysis has as a key. */
  datatype Requirement = Flag(cap: Capability) | AnyColumn

  datatype Profile = Profile(
    name: string,
    kind: Kind,
    uniqueCount: nat,
    nullCount: nat,
    samples: seq<Value>,
    flags: set<Capability>)

  /** `analysis.get(req, False)`. */
  predicate Holds(p: Profile, req: Requirement) {
    match req
    case Flag(c) => c in p.flags
    case AnyColumn => false
  }

  /** `all(analysis.get(req, False) for req in reqs)`. */
  predicate AllHold(p: Profile, reqs: seq<Requirement>) {
    forall i :: 0 <= i < |reqs| ==> Holds(p, reqs[i])
  }

  /** `any(analysis.get(req, False) for req in reqs)`. */
  predicate AnyHolds(p: Profile, reqs: seq<Requirement>) {
    exists i :: 0 <= i < |reqs| && Holds(p, reqs[i])
  }

  /** The name test of the identifier rule: the lower-cased name contains "id" or "number". */
  predicate IdentifierName(name: string) {
    Contains(Lower(name), "id") || Contains(Lower(name), "number")
  }

  /** `unique_count / total_rows > 0.9`, cross-multiplied. */
  predicate MostlyUnique(uniqueCount: nat, rows: nat) {
    10 * uniqueCount > 9 * rows
  }

  /** `unique_count / total_rows < 0.5`, cross-multiplied. */
  predicate FewDistinct(uniqueCount: nat, rows: nat) {
    2 * uniqueCount < rows
  }

  /** `sample_values`: the first `limit` present values, in table order. */
  function Samples(cells: seq<Cell>, limit: nat): (r: seq<Value>)
    ensures |r| == if |NonMissing(cells)| < limit then |NonMissing(cells)| else limit
    ensures forall i :: 0 <= i < |r| ==> r[i] == NonMissing(cells)[i]
  {
    var present := NonMissing(cells);
    if |present| < limit then present else present[..limit]
  }
}
