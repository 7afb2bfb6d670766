/** The interest masks of the selector (headers/selector.h, src/selector.c). */
module Interests {
  import opened Base

  /** An `fd_interest` value, or the OR of its two flags. */
  type Interest = i: int | i == 0 || i == 1 || i == 4 || i == 5 witness 0

  const OP_NOOP: Interest := 0
  const OP_READ: Interest := 1
  const OP_WRITE: Interest := 4
  const OP_BOTH: Interest := 5

  /** The mask tests `interest & OP_READ` and `interest & OP_WRITE`. */
  predicate HasRead(i: Interest)
    ensures HasRead(i) <==> i == 1 || i == 5
  {
    i % 2 == 1
  }

  predicate HasWrite(i: Interest)
    ensures HasWrite(i) <==> i == 4 || i == 5
  {
    i / 4 % 2 == 1
  }

  datatype Op = Reading | Writing

  predicate Has(i: Interest, op: Op) {
    if op == Reading then HasRead(i) else HasWrite(i)
  }

  /** The mask as a set. */
  function Ops(i: Interest): set<Op> {
    (if HasRead(i) then {Reading} else {}) + (if HasWrite(i) then {Writing} else {})
  }

  /** selector_set_interest_additive, branch by branch. */
  function Additive(have: Interest, add: Interest): Interest {
    if have == OP_NOOP then add
    else if (have == OP_READ && add == OP_WRITE) || (have == OP_WRITE && add == OP_READ) then OP_BOTH
    else have
  }

  /** selector_set_interest_reduction, branch by branch. */
  function Reduction(have: Interest, drop: Interest): Interest {
    if have == OP_BOTH then
      if drop == OP_READ then OP_WRITE else if drop == OP_WRITE then OP_READ else have
    else if (have == OP_READ && drop == OP_READ) || (have == OP_WRITE && drop == OP_WRITE) then OP_NOOP
    else have
  }

  /** The union the documentation promises; it fails only when both flags are added to one. */
  lemma AdditiveIsUnion(have: Interest, add: Interest)
    ensures Ops(Additive(have, add)) == Ops(have) + Ops(add)
            <==> !(add == OP_BOTH && (have == OP_READ || have == OP_WRITE))
  {
  }

  /** Likewise the difference fails only when both flags are dropped at once from a non-empty mask. */
  lemma ReductionIsDifference(have: Interest, drop: Interest)
    ensures Ops(Reduction(have, drop)) == Ops(have) - Ops(drop) <==> !(drop == OP_BOTH && have != OP_NOOP)
  {
  }
}
