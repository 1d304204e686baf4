/** Small value types shared by the whole model. */
module Basics {

  /** A JavaScript value that may be missing: `Undefined` stands for both
      `undefined` and `null`, which the generator never tells apart. */
  datatype Option<+T> = Undefined | Some(value: T)

  /** The ways a team build can stop without a team. */
  datatype Error =
    | NoSpeciesFound  // generatePokemon ran out of species keys ("No species found")
    | RetryLimit      // the move retry loop used up its draws (the source would keep drawing)
    | UndefinedSet    // the production shuffle took an entry past the end of the team

  /** Failure-compatible result, so that `:-` propagates an `Error`. */
  datatype Result<+T> = Ok(value: T) | Err(error: Error) {
    predicate IsFailure() { Err? }

    function PropagateFailure<U>(): Result<U>
      requires Err?
    {
      Err(error)
    }

    function Extract(): T
      requires Ok?
    {
      value
    }
  }

  /** No value occurs twice in `s`. */
  ghost predicate Distinct<T>(s: seq<T>) {
    forall i, j :: 0 <= i < j < |s| ==> s[i] != s[j]
  }

  /** Appending a value not in `s` keeps it free of repeats. */
  lemma DistinctAppend<T>(s: seq<T>, x: T)
    requires Distinct(s) && x !in s
    ensures Distinct(s + [x])
  {
    var t := s + [x];
    forall i, j | 0 <= i < j < |t|
      ensures t[i] != t[j]
    {
      if j == |s| {
        assert t[i] == s[i];
      }
    }
  }

  /** JavaScript's `s.startsWith(prefix)`. */
  predicate StartsWith(s: string, prefix: string) {
    |prefix| <= |s| && s[..|prefix|] == prefix
  }

  function Min(a: nat, b: nat): nat {
    if a <= b then a else b
  }

  /** Models `Math.floor(Math.random() * n)` for a positive `n`: any index below `n`. */
  method RandomBelow(n: nat) returns (k: nat)
    requires n > 0
    ensures k < n
  {
    k :| k < n;
  }
}
