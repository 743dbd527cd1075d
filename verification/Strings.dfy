/** Searching in strings. */
module Strings {
  import opened Options

  /** `String.prototype.trim` and `toLowerCase`, which are not modelled further. */
  datatype Folding = Folding(trim: string -> string, lower: string -> string)

  predicate OccursAt(t: string, q: string, i: nat) {
    i + |q| <= |t| && t[i..i + |q|] == q
  }

  /** The first place at or after `from` where `q` occurs. */
  function IndexOf(t: string, q: string, from: nat): (r: Option<nat>)
    ensures r.Some? ==> from <= r.value && OccursAt(t, q, r.value) && forall i :: from <= i < r.value ==> !OccursAt(t, q, i)
    ensures r.None? ==> forall i :: from <= i ==> !OccursAt(t, q, i)
    decreases |t| - from
  {
    if from + |q| > |t| then None else if OccursAt(t, q, from) then Some(from) else IndexOf(t, q, from + 1)
  }

  predicate Includes(t: string, q: string) {
    IndexOf(t, q, 0).Some?
  }

  /** The text has the word somewhere. */
  ghost predicate Occurs(t: string, q: string) {
    exists i: nat :: OccursAt(t, q, i)
  }

  /** `includes` is about occurrences. */
  lemma IncludesExactly(t: string, q: string)
    ensures Includes(t, q) <==> Occurs(t, q)
  {
  }
}
