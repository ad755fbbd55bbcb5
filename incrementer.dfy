/**
 * `IncrementerSingleton`: a process-wide counter that hands out piece ids.
 * The static singleton is an explicit holder object that callers pass around.
 */
module Counter {
  import opened JavaInt

  /** The value `++i` stores: one more, wrapping like a Java `int`. */
  function Next(i: int): (r: int)
    ensures IsInt(r)
    ensures IsInt(i) && i < INT_MAX ==> r == i + 1
    ensures i == INT_MAX ==> r == INT_MIN
  {
    Wrap(i + 1)
  }

  /** The counter's value after `k` increments starting from `i`. */
  function Iterate(i: int, k: nat): int
  {
    if k == 0 then i else Next(Iterate(i, k - 1))
  }

  lemma IterateStep(i: int, k: nat)
    ensures Iterate(i, k + 1) == Next(Iterate(i, k))
  {
  }

  /** `a` increments followed by `b` more are `a + b` increments. */
  lemma {:induction false} IterateAdd(i: int, a: nat, b: nat)
    ensures Iterate(Iterate(i, a), b) == Iterate(i, a + b)
  {
    if b > 0 {
      IterateAdd(i, a, b - 1);
    }
  }

  /**
   * As long as no overflow happens, `k` increments raise the counter by
   * exactly `k`: successive ids strictly increase.
   */
  lemma {:induction false} IterateAdds(i: int, k: nat)
    requires IsInt(i) && i + k <= INT_MAX
    ensures Iterate(i, k) == i + k
  {
    if k > 0 {
      IterateAdds(i, k - 1);
    }
  }

  lemma IterateIncreases(i: int, j: nat, k: nat)
    requires IsInt(i) && j < k && i + k <= INT_MAX
    ensures Iterate(i, j) < Iterate(i, k)
  {
    IterateAdds(i, j);
    IterateAdds(i, k);
  }

  class Incrementer {
    /** The last value handed out (0 before the first). */
    var i: int

    predicate Valid()
      reads this
    {
      IsInt(i)
    }

    constructor ()
      ensures Valid() && i == 0
    {
      i := 0;
    }

    /** `increment`: `++i`, returning the new value. */
    method Increment() returns (v: int)
      requires Valid()
      modifies this
      ensures Valid()
      ensures i == Next(old(i)) && v == i
      ensures old(i) < INT_MAX ==> v == old(i) + 1
    {
      i := Next(i);
      v := i;
    }

    /** `getValue`: the last value handed out. */
    method GetValue() returns (v: int)
      requires Valid()
      ensures IsInt(v) && v == i
    {
      v := i;
    }
  }

  /** The static `instance` field of `IncrementerSingleton`, created on first use. */
  class IncrementerHolder {
    var instance: Incrementer?

    /** Once created, the counter is a valid `int` counter. */
    predicate Valid()
      reads this, instance
    {
      instance != null ==> instance.Valid()
    }

    constructor ()
      ensures Valid() && instance == null
    {
      instance := null;
    }

    /** `getInstance`: the existing counter, or a new one at 0 on the first call. */
    method GetInstance() returns (c: Incrementer)
      requires Valid()
      modifies this
      ensures Valid() && c.Valid()
      ensures instance == c
      ensures old(instance) != null ==> c == old(instance)
      ensures old(instance) == null ==> fresh(c) && c.Valid() && c.i == 0
    {
      if instance == null {
        instance := new Incrementer();
      }
      c := instance;
    }
  }
}
