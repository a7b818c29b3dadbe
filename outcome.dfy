/** programs/solora-pyth-price/src/state/outcome.rs, with the variant
    `Same` that settle_event assigns but the enum does not declare. */
module Outcomes {
  datatype Outcome = Undrawn | Invalid | Up | Down | Same

  /** The two outcomes that move money from one pool to the other. */
  predicate IsDirection(o: Outcome) {
    o == Up || o == Down
  }
}
