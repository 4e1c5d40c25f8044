/** What the model assumes of Python's `random.sample`: nothing but its contract. */
module PyRandom {

  /** `chosen` could be `random.sample(population, k)`: k elements drawn from
      distinct positions of the population, in any order. */
  predicate IsSample<T(==)>(chosen: seq<T>, population: seq<T>, k: nat) {
    |chosen| == k && multiset(chosen) <= multiset(population)
  }

  /** A sample of any size up to the population's exists (so a choice can be made). */
  lemma SampleExists<T>(population: seq<T>, k: nat)
    requires k <= |population|
    ensures IsSample(population[..k], population, k)
  {
    assert population == population[..k] + population[k..];
  }

  /** The truncation both comment collectors apply: a list longer than `n` is
      replaced by a sample of size `n`, a shorter one is kept whole. */
  predicate IsTruncation<T(==)>(kept: seq<T>, all: seq<T>, n: nat) {
    if |all| > n then IsSample(kept, all, n) else kept == all
  }
}
