/** Type qualifiers. */
module Qualifiers {
  datatype Quals = Quals(isConst: bool, isVolatile: bool)

  const NO_QUALS := Quals(false, false)

  function Union(a: Quals, b: Quals): Quals {
    Quals(a.isConst || b.isConst, a.isVolatile || b.isVolatile)
  }

  /** Every qualifier of a is one of b. */
  predicate Within(a: Quals, b: Quals) {
    (a.isConst ==> b.isConst) && (a.isVolatile ==> b.isVolatile)
  }
}
