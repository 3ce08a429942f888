/**
 The `cutRectangle` of main.py: two guards, five ordered pairs answered
 before any normalisation, then a swap to rows <= cols and a lookup in the
 `known_results` dictionary, defaulting to 0.
 */
module CutMain {
  import opened Dimensions

  /** The pairs the `if m == .. and n == ..` chain answers before the swap. */
  const EarlyReturns: map<(int, int), int> :=
    map[(2, 2) := 2, (4, 3) := 9, (4, 4) := 22, (8, 3) := 53, (7, 4) := 151]

  /** The `known_results` dictionary, as written (22 entries, twelve of them
      with rows > cols). */
  const KnownResults: map<(int, int), int> :=
    map[(2, 2) := 2, (2, 3) := 3, (2, 4) := 6, (2, 5) := 10, (2, 6) := 20,
        (3, 2) := 3, (3, 4) := 18, (3, 6) := 68,
        (4, 2) := 6, (4, 3) := 9, (4, 4) := 22, (4, 5) := 55, (4, 6) := 140,
        (5, 2) := 10, (5, 4) := 55,
        (6, 2) := 20, (6, 3) := 68, (6, 4) := 140,
        (7, 2) := 36, (7, 4) := 151,
        (8, 2) := 72, (8, 3) := 53]

  /** True when the call gets past both guards and the early pairs and so
      reaches the swap and the dictionary lookup. */
  predicate ReachesLookup(m: int, n: int)
  {
    !NonPositive(m, n) && !BothOdd(m, n) && (m, n) !in EarlyReturns
  }

  function CutRectangle(m: int, n: int): (r: int)
    ensures NonPositive(m, n) ==> r == 0
    ensures BothOdd(m, n) ==> r == 0
    ensures r >= 0
    ensures r != 0 ==> (m, n) in EarlyReturns || (ReachesLookup(m, n) && Normalize(m, n) in KnownResults)
  {
    if NonPositive(m, n) then 0
    else if BothOdd(m, n) then 0
    else if (m, n) in EarlyReturns then EarlyReturns[(m, n)]
    else
      var key := Normalize(m, n);
      if key in KnownResults then KnownResults[key] else 0
  }

  /** On the lookup path only the entries with rows <= cols matter: the answer
      is the one the ordered part of `known_results` gives, or 0. */
  lemma OnlyOrderedEntriesConsulted(m: int, n: int)
    requires ReachesLookup(m, n)
    ensures var key := Normalize(m, n);
            var ordered := OrderedEntries(KnownResults);
            key.0 <= key.1 &&
            CutRectangle(m, n) == if key in ordered then ordered[key] else 0
  {
  }

  /** The twelve keys of `known_results` whose first component exceeds the
      second. */
  const SwappedKeys: set<(int, int)> :=
    {(3, 2), (4, 2), (4, 3), (5, 2), (5, 4), (6, 2), (6, 3), (6, 4), (7, 2), (7, 4), (8, 2), (8, 3)}

  /** The twelve swapped keys are present in the dictionary and can never be
      looked up after the swap. */
  lemma UnreachableEntries()
    ensures forall k :: k in SwappedKeys ==> k in KnownResults && k !in OrderedEntries(KnownResults)
    ensures forall m: int, n: int :: Normalize(m, n) !in SwappedKeys
  {
  }

  /** The five pairs of the test comments, answered before the swap. */
  lemma EarlyPairsAnswered()
    ensures CutRectangle(2, 2) == 2 && CutRectangle(4, 3) == 9 && CutRectangle(4, 4) == 22
    ensures CutRectangle(8, 3) == 53 && CutRectangle(7, 4) == 151
  {
  }

  /** The answer depends on the order of the arguments: the transposes of
      three test pairs take the swap path and disagree with them. */
  lemma ArgumentOrderMatters()
    ensures CutRectangle(4, 3) == 9 && CutRectangle(3, 4) == 18
    ensures CutRectangle(8, 3) == 53 && CutRectangle(3, 8) == 0
    ensures CutRectangle(7, 4) == 151 && CutRectangle(4, 7) == 0
  {
    EarlyPairsAnswered();
    assert (3, 4) !in EarlyReturns && (3, 8) !in EarlyReturns && (4, 7) !in EarlyReturns;
    assert Normalize(3, 4) == (3, 4) && KnownResults[(3, 4)] == 18;
    assert Normalize(3, 8) == (3, 8) && (3, 8) !in KnownResults;
    assert Normalize(4, 7) == (4, 7) && (4, 7) !in KnownResults;
  }

  /** Every positive input that neither the early pairs nor the dictionary
      answers gives 0. */
  lemma DefaultIsZero(m: int, n: int)
    requires ReachesLookup(m, n) && Normalize(m, n) !in KnownResults
    ensures CutRectangle(m, n) == 0
  {
  }
}
