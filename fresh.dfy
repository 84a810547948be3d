/** anon(): fresh names from a process-wide counter. */
module Fresh {
  import opened Decimal

  /** "anon%d" % n. */
  function AnonName(n: nat): string {
    "anon" + NatToString(n)
  }

  lemma AnonNameInjective(m: nat, n: nat)
    requires AnonName(m) == AnonName(n)
    ensures m == n
  {
    assert NatToString(m) == AnonName(m)[4..];
    assert NatToString(n) == AnonName(n)[4..];
    NatToStringInjective(m, n);
  }

  /** The global anonctr: one cell, shared by reference by every evaluator. */
  class AnonCounter {
    var ctr: nat

    constructor ()
      ensures ctr == 0
    {
      ctr := 0;
    }

    /** Increments the counter, then names the new value: the first name is anon1. */
    method Anon() returns (name: string)
      modifies this
      ensures ctr == old(ctr) + 1
      ensures name == AnonName(ctr)
    {
      ctr := ctr + 1;
      name := AnonName(ctr);
    }
  }

  /** Names drawn at two different counter values differ, so every name anon() returns is new. */
  lemma AnonNamesDistinct(m: nat, n: nat)
    requires m != n
    ensures AnonName(m) != AnonName(n)
  {
    if AnonName(m) == AnonName(n) {
      AnonNameInjective(m, n);
    }
  }
}
