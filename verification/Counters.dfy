/**
 * A counter in a stored document that is incremented by load, `+= 1`, save. The save writes the
 * loaded value plus one, whatever has been stored since.
 */
module Counters {
  /** History: the increments so far, and whether any save came after another one that its own load had not seen. */
  datatype Counter = Counter(value: nat, saves: nat, overlapped: bool)

  datatype Reading = Reading(value: nat, saves: nat)

  function Load(c: Counter): Reading {
    Reading(c.value, c.saves)
  }

  function Save(c: Counter, r: Reading): Counter {
    Counter(r.value + 1, c.saves + 1, c.overlapped || r.saves != c.saves)
  }

  /** The counter is exact precisely while no two load-to-save sections have overlapped. */
  ghost predicate Exact(c: Counter) {
    c.value <= c.saves && (c.value == c.saves <==> !c.overlapped)
  }

  ghost predicate Current(c: Counter, r: Reading) {
    r.value <= r.saves <= c.saves && (r.saves == c.saves ==> r.value == c.value)
  }

  lemma SaveExact(c: Counter, r: Reading, other: Reading)
    requires Exact(c) && Current(c, r) && Current(c, other)
    ensures Exact(Save(c, r)) && Current(Save(c, r), other)
  {
  }
}
