/** Sealed facts. A fact about x written `forall q {:trigger Open(q)} :: Open(q) && q == x ==> P(q)`
is logically just P(x), but the solver looks inside only where a proof mentions Open(x). */
module Seals {
  ghost predicate Open<T>(x: T) { true }
}
