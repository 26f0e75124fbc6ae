/** Mutations: rewrites of a whole view. The Mutation interface itself and
    its Apply and Combine are not part of this model; a mutation is taken to
    be a total function on views, and combining two means applying the left
    one first. */
module Mutations {
  import opened Sources

  type Mutation = Source -> Source

  /** Apply a, then b. */
  function Then(a: Mutation, b: Mutation): (m: Mutation)
    ensures forall s :: m(s) == b(a(s))
  {
    s => b(a(s))
  }
}
