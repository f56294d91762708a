/** Line statistics: three unsigned 64-bit counters (total, included,
    excluded) that only ever grow by one. `fetch_add` on a 64-bit counter wraps
    around to 0 past its maximum, and the model keeps that wrap-around. The
    relaxed atomics only make the counters safe to share between threads; one
    increment here is one plain update of its field. */
module Statistics {

  const U64_MODULUS: int := 0x1_0000_0000_0000_0000

  newtype u64 = x: int | 0 <= x < 0x1_0000_0000_0000_0000

  const U64_MAX: u64 := 0xFFFF_FFFF_FFFF_FFFF

  /** What `fetch_add(1)` leaves in a 64-bit counter: one more, modulo 2^64. */
  function WrappingIncrement(x: u64): (r: u64)
    ensures x < U64_MAX ==> r as int == x as int + 1 && r > x
    ensures x == U64_MAX ==> r == 0
  {
    ((x as int + 1) % U64_MODULUS) as u64
  }

  /** The three counters as one value, in the order `snapshot` returns them. */
  datatype Counters = Counters(total: u64, included: u64, excluded: u64)

  /** Which counter an increment is applied to. */
  datatype Counter = TotalCounter | IncludedCounter | ExcludedCounter

  /** The counters after one increment of `which`. */
  function Apply(c: Counters, which: Counter): (r: Counters)
  {
    match which
    case TotalCounter => c.(total := WrappingIncrement(c.total))
    case IncludedCounter => c.(included := WrappingIncrement(c.included))
    case ExcludedCounter => c.(excluded := WrappingIncrement(c.excluded))
  }

  /** The counters after a run of increments, applied in order. */
  function Run(c: Counters, ops: seq<Counter>): (r: Counters)
    decreases |ops|
  {
    if ops == [] then c else Run(Apply(c, ops[0]), ops[1..])
  }

  /** How many increments of the run go to `which`. */
  function Count(ops: seq<Counter>, which: Counter): (n: nat)
    ensures n <= |ops|
  {
    if ops == [] then 0 else (if ops[0] == which then 1 else 0) + Count(ops[1..], which)
  }

  /** None of the three counters passes 2^64 - 1 during the run. */
  predicate NoWrap(c: Counters, ops: seq<Counter>)
  {
    && c.total as int + Count(ops, TotalCounter) < U64_MODULUS
    && c.included as int + Count(ops, IncludedCounter) < U64_MODULUS
    && c.excluded as int + Count(ops, ExcludedCounter) < U64_MODULUS
  }

  /** Without wrap-around, each counter ends up exactly as many steps higher as
      the run has increments of it. */
  lemma {:induction false} RunCounts(c: Counters, ops: seq<Counter>)
    requires NoWrap(c, ops)
    ensures Run(c, ops).total as int == c.total as int + Count(ops, TotalCounter)
    ensures Run(c, ops).included as int == c.included as int + Count(ops, IncludedCounter)
    ensures Run(c, ops).excluded as int == c.excluded as int + Count(ops, ExcludedCounter)
    decreases |ops|
  {
    if ops != [] {
      RunCounts(Apply(c, ops[0]), ops[1..]);
    }
  }

  /** Counters never decrease between two observations, as long as none of
      them wraps around in between. */
  lemma RunMonotone(c: Counters, ops: seq<Counter>)
    requires NoWrap(c, ops)
    ensures c.total <= Run(c, ops).total
    ensures c.included <= Run(c, ops).included
    ensures c.excluded <= Run(c, ops).excluded
  {
    RunCounts(c, ops);
  }

  /** The process-wide statistics. */
  class Stats {
    var total: u64
    var included: u64
    var excluded: u64

    /** The counters as a value. */
    function Value(): (c: Counters)
      reads this
    {
      Counters(total, included, excluded)
    }

    /** `Stats::new`: every counter starts at 0. */
    constructor ()
      ensures total == 0 && included == 0 && excluded == 0
    {
      total, included, excluded := 0, 0, 0;
    }

    /** `inc_total`: one more line seen; the other counters are untouched. */
    method IncTotal()
      modifies this
      ensures total == WrappingIncrement(old(total))
      ensures included == old(included) && excluded == old(excluded)
      ensures Value() == Apply(old(Value()), TotalCounter)
    {
      total := WrappingIncrement(total);
    }

    /** `inc_included`: one more line printed; the other counters are untouched. */
    method IncIncluded()
      modifies this
      ensures included == WrappingIncrement(old(included))
      ensures total == old(total) && excluded == old(excluded)
      ensures Value() == Apply(old(Value()), IncludedCounter)
    {
      included := WrappingIncrement(included);
    }

    /** `inc_excluded`: one more line excluded; the other counters are untouched. */
    method IncExcluded()
      modifies this
      ensures excluded == WrappingIncrement(old(excluded))
      ensures total == old(total) && included == old(included)
      ensures Value() == Apply(old(Value()), ExcludedCounter)
    {
      excluded := WrappingIncrement(excluded);
    }

    /** `snapshot`: the counters as (total, included, excluded); reads only. */
    method Snapshot() returns (s: (u64, u64, u64))
      ensures s == (total, included, excluded)
    {
      s := (total, included, excluded);
    }
  }
}
