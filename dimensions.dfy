/**
 The guard conditions and the dimension normalisation shared by the three
 variants of `cutRectangle`. Dimensions are unbounded integers: the source
 is Python, whose integers do not wrap.
 */
module Dimensions {

  /** The first guard of every variant: `m <= 0 or n <= 0`. */
  predicate NonPositive(m: int, n: int)
    ensures !NonPositive(m, n) ==> m * n > 0
  {
    m <= 0 || n <= 0
  }

  /** The second guard: `m % 2 == 1 and n % 2 == 1`. Python's `%` floors and
      Dafny's is Euclidean; for the divisor 2 both give a remainder in {0, 1},
      so the two agree on every integer. */
  predicate BothOdd(m: int, n: int)
    ensures BothOdd(m, n) <==> (m * n) % 2 == 1
  {
    OddProduct(m, n);
    m % 2 == 1 && n % 2 == 1
  }

  /** A product is odd exactly when both factors are. */
  lemma OddProduct(m: int, n: int)
    ensures (m * n) % 2 == 1 <==> m % 2 == 1 && n % 2 == 1
  {
    var a, b := m / 2, n / 2;
    assert m == 2 * a + m % 2 && n == 2 * b + n % 2;
    assert m * n == 2 * (a * n) + (m % 2) * n;
    assert (m % 2) * n == 2 * ((m % 2) * b) + (m % 2) * (n % 2);
    assert m * n == 2 * (a * n + (m % 2) * b) + (m % 2) * (n % 2);
  }

  /** The swap `if m > n: m, n = n, m`: the same two numbers, smaller first. */
  function Normalize(m: int, n: int): (p: (int, int))
    ensures p.0 <= p.1
    ensures multiset{p.0, p.1} == multiset{m, n}
    ensures p == (m, n) || p == (n, m)
  {
    if m > n then (n, m) else (m, n)
  }

  /** The entries of a table keyed by (rows, cols) whose key is already
      normalised: the only entries a lookup after `Normalize` can reach. */
  function OrderedEntries(table: map<(int, int), int>): (ordered: map<(int, int), int>)
    ensures forall k :: k in ordered <==> k in table && k.0 <= k.1
    ensures forall k :: k in ordered ==> ordered[k] == table[k]
    ensures forall m: int, n: int :: Normalize(m, n) in table <==> Normalize(m, n) in ordered
  {
    map k | k in table && k.0 <= k.1 :: table[k]
  }
}
