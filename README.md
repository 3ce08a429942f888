# Cut a rectangle: three variants of `cutRectangle`

The repository answers one question: in how many ways can an m×n grid be cut
into two pieces that are images of each other under a 180° rotation? It does
so with three variants of one integer function, `cutRectangle(m, n)`, one in
each of `main.py`, `main2.py` and `main3.py`. All three follow the same guard
chain. A non-positive dimension gives 0. Two odd dimensions give 0. After that
each variant answers from a hard-coded table:

- `main.py` first returns five ordered pairs directly. It then swaps the
  arguments so that m ≤ n and looks the pair up in a 22-entry dictionary,
  `known_results`, defaulting to 0.
- `main2.py` looks up the exact ordered pair in a five-entry dictionary,
  defaulting to 0. It also holds `cutRectangleJS`, a JavaScript function that
  does the same with a string key `${m},${n}` and a truthiness test.
- `main3.py` swaps the arguments first, then looks them up in a five-entry
  table. For grids with m·n ≤ 20 it falls back to a recursive counter,
  `count_splits`. The counter sums, over every horizontal and every vertical
  cut position, the product of the counts of the two sub-rectangles. The two
  cut checks it consults accept every cut.

The model has one module per source file, plus one shared module:

- `Dimensions` (`dimensions.dfy`) holds the two guards, the swap `Normalize`
  and `OrderedEntries`, the part of a table a normalised lookup can reach.
- `CutMain` (`cut_main.dfy`) models `main.py` as pure functions.
- `CutMain2` (`cut_main2.dfy`) models both functions of `main2.py` as pure
  functions. The JavaScript key is modelled as a decimal rendering of each
  integer, and a property read as a number or `undefined`. The lemma
  `JsAgreesWithPython` proves the two functions agree on every pair of
  integers.
- `CutMain3` (`cut_main3.dfy`) models `main3.py`. `count_splits` is the method
  `CountSplits`, with its two accumulating loops. It is proved equal to the
  recursive specification `Splits`, which is built from `HorizontalSum` and
  `VerticalSum`. `cutRectangle` is the method `CutRectangle`, proved equal to
  `AnswerFrom(TestCases, m, n)`.

Python's `%` floors and Dafny's is Euclidean. For the divisor 2 both give a
remainder in {0, 1}, so the guard `m % 2 == 1` is written directly.
JavaScript's `%` truncates toward zero, and it is modelled as `JsRem`. Both
guards run only after positivity has been checked, so the two remainders agree
there.

Integers are unbounded, as in Python. The JavaScript variant is modelled on
the same integers: its numbers are IEEE doubles, and that width is not
modelled (see "Left out").

None of the three files enumerates partitions, checks that two pieces are
rotations of each other or connected, or caches counts beyond
`functools.lru_cache`. Each variant answers from its own hard-coded table, and
the model follows those tables. The tables do not agree with one another. For
a 3×4 grid `main.py` gives 18, `main2.py` gives 0 and `main3.py` gives 770.
For (3, 8) and (4, 7) all three variants return 0.

## Model

| member | source | states |
|---|---|---|
| `Dimensions.Normalize` | main3.py:17-19 | the swap yields the same two numbers (as a multiset), smaller first, either unchanged or exchanged |
| `Dimensions.NonPositive` | main.py:13-14 | the first guard, shared by all three variants (main2.py:11-12, main3.py:10-11): when it does not fire, both dimensions are positive and so is the cell count m·n |
| `Dimensions.BothOdd` | main.py:17-18 | the second guard, shared by all three variants (main2.py:15-16, main3.py:14-15): it fires exactly when the cell count m·n is odd, so the grid cannot be split into two halves of equal area |
| `Dimensions.OrderedEntries` | main.py:68-69 | keeps exactly the entries whose first component is at most the second, with unchanged values; a normalised key is found in the whole table exactly when it is found among these, so they are all that a lookup after the swap (main.py:38-39, main3.py:17-19) can reach |
| `CutMain.CutRectangle` | main.py:1-74 | 0 for non-positive dimensions and for two odd ones; never negative; a non-zero answer comes from an early pair or from a `known_results` entry reached after the swap |
| `CutMain.OnlyOrderedEntriesConsulted` | main.py:38-69 | past the guards and early pairs, the key is normalised and the answer is what the rows ≤ cols part of `known_results` gives, or 0 |
| `CutMain.UnreachableEntries` | main.py:43-66 | twelve entries of `known_results`, including (3, 2), (4, 2), (6, 3), (4, 3), (8, 3) and (7, 4), have rows > cols and are never consulted |
| `CutMain.EarlyPairsAnswered` | main.py:21-30 | (2,2)→2, (4,3)→9, (4,4)→22, (8,3)→53, (7,4)→151, before any swap, as the test comments at main.py:77-81 say |
| `CutMain.ArgumentOrderMatters` | main.py:23-50 | the answer depends on argument order: (4,3)→9 but (3,4)→18; (8,3)→53 but (3,8)→0; (7,4)→151 but (4,7)→0 |
| `CutMain.DefaultIsZero` | main.py:71-74 | a positive input that neither the early pairs nor the dictionary answers gives 0 |
| `CutMain2.CutRectangle` | main2.py:1-33 | 0 for non-positive dimensions and for two odd ones; the result lies in {0, 2, 9, 22, 53, 151}; it is non-zero exactly when the ordered pair is a key of `test_cases`, and then it is that entry |
| `CutMain2.TransposesGiveZero` | main2.py:20-33 | without normalisation the transposes (3,4), (3,8), (4,7) of the test pairs give 0, while the pairs themselves give their entries |
| `CutMain2.JsRem` | main2.py:44 | JavaScript's truncating remainder: it equals the Euclidean one for a non-negative dividend, is non-positive for a negative one, and is smaller in magnitude than the divisor |
| `CutMain2.JsRemNegated` | main2.py:44 | negating the dividend negates the remainder, so with the clause for a non-negative dividend the value is fixed for every dividend |
| `CutMain2.Decimal` | main2.py:55 | the template-literal rendering of a natural number below 10^21 is a non-empty string of digits, with at least two digits exactly when the number is at least 10 |
| `CutMain2.IntString` | main2.py:55 | the rendering of an integer of magnitude below 10^21 is non-empty and contains no comma |
| `CutMain2.JsKey` | main2.py:55 | the key `${m},${n}` is the rendering of m, one comma, and the rendering of n, and that comma is the only one in the key |
| `CutMain2.Get` | main2.py:56 | reading `testCases[key]` gives a number exactly when the key is an own property, and then it is that property's value; otherwise `undefined` |
| `CutMain2.Truthy` | main2.py:56 | `undefined` and 0 are falsy; every other number is truthy |
| `CutMain2.TruthyRead` | main2.py:56 | `if (testCases[key])` succeeds exactly when the key is present and its value is not 0 |
| `CutMain2.DecimalInjective` | main2.py:55 | different natural numbers render differently |
| `CutMain2.IntStringInjective` | main2.py:55 | different integers render differently |
| `CutMain2.JsKeyInjective` | main2.py:55 | different ordered pairs give different keys `${m},${n}` |
| `CutMain2.CutRectangleJS` | main2.py:35-59 | 0 for non-positive dimensions and for two odd ones; any other answer is a value of the `testCases` object |
| `CutMain2.RenderedTestKeys` | main2.py:47-55 | the five test pairs render as exactly the five keys of the object literal |
| `CutMain2.TestCasesRendered` | main2.py:47-53 | every key of the Python dictionary, rendered, is a key of the object literal with the same value, and every value of the object is truthy |
| `CutMain2.JsTestCasesFromTestCases` | main2.py:47-53 | every key of the object literal is the rendering of a key of the Python dictionary |
| `CutMain2.JsAgreesWithPython` | main2.py:55-58 | `cutRectangleJS` and `cutRectangle` agree on every pair of integers, with JavaScript numbers taken as unbounded integers: the truthiness test never misfires and the string key finds exactly the ordered pairs the dictionary finds |
| `CutMain3.IsValidHorizontalCut` | main3.py:86-97 | accepts every horizontal cut: the congruence check it documents is not performed |
| `CutMain3.IsValidVerticalCut` | main3.py:99-105 | accepts every vertical cut |
| `CutMain3.Splits` | main3.py:56-82 | the count is 0 exactly when a dimension is 0, and positive otherwise |
| `CutMain3.HorizontalSum` | main3.py:70-74 | the sum over the first `upto` horizontal cuts is 0 exactly when there are no cuts or no columns |
| `CutMain3.VerticalSum` | main3.py:76-80 | the sum over the first `upto` vertical cuts is 0 exactly when there are no cuts or no rows |
| `CutMain3.SplitsTranspose` | main3.py:56-82 | `count_splits(r, c) == count_splits(c, r)` for all r, c |
| `CutMain3.HorizontalIsVertical` | main3.py:70-80 | the horizontal-cut sum of an r×c grid equals the vertical-cut sum of the c×r grid |
| `CutMain3.SingleRowValues` | main3.py:61-82 | on one row the counts are 1, 1, 2, 5, 14 (the Catalan numbers) |
| `CutMain3.Values34` | main3.py:56-82 | `count_splits(3, 4) == 770` |
| `CutMain3.CountSplits` | main3.py:56-82 | the two loops return `Splits(rows, cols)`: 0 exactly when a dimension is 0, 1 for 1×1, otherwise the sum over every horizontal and vertical cut of the product of the two sub-counts; every recursive call shrinks rows + cols, so it terminates |
| `CutMain3.CountValidCuts` | main3.py:48-84 | returns `count_splits(m, n)`, which is positive exactly when both dimensions are |
| `CutMain3.AnswerFrom` | main3.py:1-46 | 0 past a failing guard; a normalised key found in the table gives that entry |
| `CutMain3.CutRectangle` | main3.py:1-46 | 0 for non-positive dimensions and for two odd ones, never negative, and otherwise the table entry for the normalised pair, else `count_splits` when m·n ≤ 20, else 0 |
| `CutMain3.AnswerSymmetric` | main3.py:17-19 | the answer is the same for (m, n) and (n, m), whatever the table |
| `CutMain3.OnlyOrderedEntriesConsulted` | main3.py:17-46 | only (2,2)→2 and (4,4)→22 can be found after the swap; anything else past the guards is `count_splits` when m·n ≤ 20 and 0 otherwise |
| `CutMain3.AsWrittenMissesTestPairs` | main3.py:17-32 | (8,3) and (7,4) give 0 and (4,3) gives 770, each different from its own table entry |
| `CutMain3.IntendedAnswer` | main3.py:23-32 | the table keyed by normalised pairs; 0 past a failing guard |
| `CutMain3.IntendedAnswersTestPairs` | main3.py:23-32 | with normalised keys every entry is reachable, and all five test pairs give the commented values (main3.py:109-113) in either argument order |

## Findings

| source | as written | input that shows it | evidently intended | confidence | as-written member | corrected member |
|---|---|---|---|---|---|---|
| main3.py:17-32 | the swap to m ≤ n runs before a lookup whose keys (4,3), (8,3) and (7,4) have m > n, so those entries can never match | (8,3) and (7,4) give 0 (m·n > 20); (4,3) gives `count_splits(3,4)` = 770 | 9, 53 and 151, as the test comments at main3.py:110-113 say | high, not executed | `CutMain3.AsWrittenMissesTestPairs` | `CutMain3.IntendedAnswersTestPairs` |

The corrected member keys the table by the normalised pairs (3,4), (3,8) and
(4,7). The method `CutMain3.CutRectangle` still models the code as written.

## Left out

- The console and print test harnesses (main.py:76-81, main2.py:61-74, main3.py:107-113) only produce output. main2.py as a whole is not valid Python, because of the JavaScript function at line 35, so only the logic of its two functions is modelled.
- `functools.lru_cache` and the unused `pattern_hash` parameter of `count_splits` are not modelled. Memoisation does not change the results, and Python's recursion limit and running time are not modelled either.
- The hard-coded tables are treated as data, not as true counts of grid partitions. They disagree with one another: main.py:24 gives 9 for (4,3), while main.py:50 gives 18 for (3,4).
- The mask enumerator, rotation and connectivity validator, flood fill, result cache and rendering layer are not part of this model. None of them appears in these three files.
- CutMain2.Decimal: JavaScript numbers are IEEE doubles. Integers are exact only up to 2^53, and from 10^21 on `${x}` renders in exponent form (`1e+21`). Neither is modelled, so the rendering as plain digits, and with it `CutMain2.IntString`, `CutMain2.JsKey` and `CutMain2.JsAgreesWithPython`, describes JavaScript only for magnitudes below 10^21 (exactly only below 2^53).
- Arguments are integers. Python floats, and JavaScript non-integer or non-number arguments (with their own `%` and string rendering), are not modelled. Property names inherited from JavaScript's object prototype are not modelled: every key `${m},${n}` contains a comma, so none of them can be looked up.
