/** Small shared vocabulary of the ledger model: optional values, the two
    exceptional failures of the bank, duplicate-free sequences and the
    first-match search that the ledger uses for every lookup. */
module Common {

  /** A value that may be absent; `None` plays the part of `undefined`/`null`. */
  datatype Option<+T> = None | Some(value: T)

  /** The failures the ledger raises as exceptions rather than reporting
      through a boolean result. */
  datatype Error =
    | MissingRequiredField   // a branch name lookup was given an empty name
    | BranchNotFound         // a branch that the bank does not hold was listed

  /** Either a value or one of the exceptional failures. */
  datatype Result<+T> = Ok(value: T) | Err(error: Error)

  /** No element occurs twice: the shape of a list that is only ever extended
      after an identity membership test. */
  predicate Distinct<T(==)>(xs: seq<T>) {
    forall i, j :: 0 <= i < j < |xs| ==> xs[i] != xs[j]
  }

  lemma DistinctAppend<T>(xs: seq<T>, x: T)
    requires Distinct(xs)
    requires x !in xs
    ensures Distinct(xs + [x])
  {
  }

  /** The position of the first element of `xs` that satisfies `p`, scanning in
      order, or `None` when no element does (the search of `Array.find`). */
  function FirstMatch<T>(xs: seq<T>, p: T -> bool): (r: Option<nat>)
    ensures r.Some? ==> r.value < |xs| && p(xs[r.value])
    ensures r.Some? ==> forall j :: 0 <= j < r.value ==> !p(xs[j])
    ensures r.None? ==> forall j :: 0 <= j < |xs| ==> !p(xs[j])
    decreases |xs|
  {
    if |xs| == 0 then None
    else if p(xs[0]) then Some(0)
    else
      match FirstMatch(xs[1..], p)
      case None => None
      case Some(k) => Some(k + 1)
  }
}
