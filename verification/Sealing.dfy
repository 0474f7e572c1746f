/** A way to pass a large property on as a whole.  A predicate whose parts stand behind
    `forall s: Seal :: Open(s) ==> ...` shows them to a proof only after it has mentioned Open. */
module Sealing {
  datatype Seal = Seal

  /** Always true. */
  predicate Open(s: Seal) { true }
}
