/** The semantics of a `bitflags` type whose constants are single bits: a value is the set of
    bit indices that are on. Only `empty`, `insert`, `remove`, `set` and `contains` are used. */
module Bitflags {

  type FlagSet = set<nat>

  const Empty: FlagSet := {}

  predicate Contains(flags: FlagSet, bit: nat)
  {
    bit in flags
  }

  function Insert(flags: FlagSet, bit: nat): (r: FlagSet)
    ensures Contains(r, bit)
    ensures forall b :: b != bit ==> (Contains(r, b) <==> Contains(flags, b))
  {
    flags + {bit}
  }

  function Remove(flags: FlagSet, bit: nat): (r: FlagSet)
    ensures !Contains(r, bit)
    ensures forall b :: b != bit ==> (Contains(r, b) <==> Contains(flags, b))
  {
    flags - {bit}
  }

  /** `flags.set(flag, value)`: afterwards the flag is on exactly when `value` is, and no other
      bit has moved. */
  function Set(flags: FlagSet, bit: nat, value: bool): (r: FlagSet)
    ensures Contains(r, bit) <==> value
    ensures forall b :: b != bit ==> (Contains(r, b) <==> Contains(flags, b))
  {
    if value then Insert(flags, bit) else Remove(flags, bit)
  }

  /** 2^i, the value of the constant `1 << i`. */
  function Pow2(i: nat): (r: nat)
    ensures r >= 1
  {
    if i == 0 then 1 else 2 * Pow2(i - 1)
  }

  lemma {:induction false} Pow2StrictlyIncreasing(i: nat, j: nat)
    requires i < j
    ensures Pow2(i) < Pow2(j)
  {
    if i + 1 < j {
      Pow2StrictlyIncreasing(i, j - 1);
    }
  }

  /** Distinct bit indices give distinct constants. */
  lemma Pow2Injective(i: nat, j: nat)
    requires i != j
    ensures Pow2(i) != Pow2(j)
  {
    if i < j { Pow2StrictlyIncreasing(i, j); } else { Pow2StrictlyIncreasing(j, i); }
  }
}
