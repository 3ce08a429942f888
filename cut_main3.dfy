/**
 The `cutRectangle` of main3.py: two guards, a swap to rows <= cols, a
 lookup in a five-entry table, and for small grids (rows * cols <= 20) a
 recursive counter, `count_splits`, that sums products of counts over every
 horizontal and every vertical cut position. The two "is this cut valid"
 checks it consults accept every cut.

 `Splits`, `HorizontalSum` and `VerticalSum` are the specification of the
 counter; `CountSplits` is the counter itself, with its two accumulating
 loops, proved equal to `Splits`.
 */
module CutMain3 {
  import opened Dimensions

  /** The `test_cases` table, as written: keyed by the pairs of the test
      comments, three of which have rows > cols. */
  const TestCases: map<(int, int), int> :=
    map[(2, 2) := 2, (4, 3) := 9, (4, 4) := 22, (8, 3) := 53, (7, 4) := 151]

  /** Grids with rows * cols at most this size are handed to the counter. */
  const CounterLimit := 20

  // ----- The cut checks -----

  /** `_is_valid_horizontal_cut`: documented as a congruence check, it accepts
      every cut. */
  function IsValidHorizontalCut(totalRows: int, totalCols: int, cutRow: int): (valid: bool)
    ensures valid
  {
    true
  }

  /** `_is_valid_vertical_cut`: documented as a congruence check, it accepts
      every cut. */
  function IsValidVerticalCut(totalRows: int, totalCols: int, cutCol: int): (valid: bool)
    ensures valid
  {
    true
  }

  // ----- Specification of count_splits -----

  /** What `count_splits(rows, cols)` returns. */
  function Splits(rows: nat, cols: nat): (s: nat)
    ensures s == 0 <==> rows == 0 || cols == 0
    decreases rows + cols, 1, 0
  {
    if rows == 0 || cols == 0 then 0
    else if rows == 1 && cols == 1 then 1
    else HorizontalSum(rows, cols, rows - 1) + VerticalSum(rows, cols, cols - 1)
  }

  /** The sum over cut rows k in [1, upto] of Splits(k, cols) * Splits(rows - k, cols). */
  function HorizontalSum(rows: nat, cols: nat, upto: nat): (s: nat)
    requires upto < rows
    ensures s == 0 <==> upto == 0 || cols == 0
    decreases rows + cols, 0, upto
  {
    if upto == 0 then 0
    else HorizontalSum(rows, cols, upto - 1) + Splits(upto, cols) * Splits(rows - upto, cols)
  }

  /** The sum over cut columns k in [1, upto] of Splits(rows, k) * Splits(rows, cols - k). */
  function VerticalSum(rows: nat, cols: nat, upto: nat): (s: nat)
    requires upto < cols
    ensures s == 0 <==> upto == 0 || rows == 0
    decreases rows + cols, 0, upto
  {
    if upto == 0 then 0
    else VerticalSum(rows, cols, upto - 1) + Splits(rows, upto) * Splits(rows, cols - upto)
  }

  /** Transposing the grid does not change the count: the horizontal cuts of
      one orientation are the vertical cuts of the other. */
  lemma {:induction false} SplitsTranspose(rows: nat, cols: nat)
    ensures Splits(rows, cols) == Splits(cols, rows)
    decreases rows + cols, 1, 0
  {
    if rows > 0 && cols > 0 && !(rows == 1 && cols == 1) {
      HorizontalIsVertical(rows, cols, rows - 1);
      HorizontalIsVertical(cols, rows, cols - 1);
    }
  }

  lemma {:induction false} HorizontalIsVertical(rows: nat, cols: nat, upto: nat)
    requires upto < rows
    ensures HorizontalSum(rows, cols, upto) == VerticalSum(cols, rows, upto)
    decreases rows + cols, 0, upto
  {
    if upto > 0 {
      HorizontalIsVertical(rows, cols, upto - 1);
      SplitsTranspose(upto, cols);
      SplitsTranspose(rows - upto, cols);
    }
  }

  /** On a single row only vertical cuts exist, so the counts are the Catalan
      numbers: 1, 1, 2, 5, 14, ... */
  lemma SingleRowValues()
    ensures Splits(1, 1) == 1 && Splits(1, 2) == 1 && Splits(1, 3) == 2
    ensures Splits(1, 4) == 5 && Splits(1, 5) == 14
  {
  }

  // ----- count_splits and its callers -----

  /** `count_splits(rows, cols)`: the two loops accumulate `total` over every
      horizontal and every vertical cut that the cut checks accept. The
      `lru_cache` memoisation is not modelled; it does not change results. */
  method CountSplits(rows: nat, cols: nat) returns (total: int)
    ensures total == Splits(rows, cols)
    ensures total == 0 <==> rows == 0 || cols == 0
    ensures rows == 1 && cols == 1 ==> total == 1
    decreases rows + cols
  {
    if rows == 0 || cols == 0 {
      return 0;
    }
    if rows == 1 && cols == 1 {
      return 1;
    }
    total := 0;
    for cutRow := 1 to rows
      invariant total == HorizontalSum(rows, cols, cutRow - 1)
    {
      if IsValidHorizontalCut(rows, cols, cutRow) {
        var upper := CountSplits(cutRow, cols);
        var lower := CountSplits(rows - cutRow, cols);
        total := total + upper * lower;
      }
    }
    for cutCol := 1 to cols
      invariant total == HorizontalSum(rows, cols, rows - 1) + VerticalSum(rows, cols, cutCol - 1)
    {
      if IsValidVerticalCut(rows, cols, cutCol) {
        var left := CountSplits(rows, cutCol);
        var right := CountSplits(rows, cols - cutCol);
        total := total + left * right;
      }
    }
  }

  /** `_count_valid_cuts(m, n)`: runs the counter on the whole grid. */
  method CountValidCuts(m: nat, n: nat) returns (count: int)
    ensures count == Splits(m, n)
    ensures count > 0 <==> m > 0 && n > 0
  {
    count := CountSplits(m, n);
  }

  /** What `cutRectangle` returns when its lookup table is `table`: the
      source uses `TestCases`. */
  function AnswerFrom(table: map<(int, int), int>, m: int, n: int): (r: int)
    ensures NonPositive(m, n) || BothOdd(m, n) ==> r == 0
    ensures !NonPositive(m, n) && !BothOdd(m, n) && Normalize(m, n) in table ==> r == table[Normalize(m, n)]
  {
    if NonPositive(m, n) then 0
    else if BothOdd(m, n) then 0
    else
      var (rows, cols) := Normalize(m, n);
      if (rows, cols) in table then table[(rows, cols)]
      else if rows * cols <= CounterLimit then Splits(rows, cols)
      else 0
  }

  /** `cutRectangle` as written. */
  method CutRectangle(m: int, n: int) returns (r: int)
    ensures NonPositive(m, n) ==> r == 0
    ensures BothOdd(m, n) ==> r == 0
    ensures r >= 0
    ensures r == AnswerFrom(TestCases, m, n)
  {
    if m <= 0 || n <= 0 {
      return 0;
    }
    if m % 2 == 1 && n % 2 == 1 {
      return 0;
    }
    var rows, cols := m, n;
    if rows > cols {
      rows, cols := cols, rows;
    }
    if (rows, cols) in TestCases {
      return TestCases[(rows, cols)];
    }
    if rows * cols <= CounterLimit {
      r := CountValidCuts(rows, cols);
      return;
    }
    return 0;
  }

  // ----- Properties of cutRectangle -----

  /** The answer depends only on the unordered pair of dimensions, whatever
      the table: the guards are symmetric and both the key and the counter's
      arguments are normalised. */
  lemma AnswerSymmetric(table: map<(int, int), int>, m: int, n: int)
    ensures AnswerFrom(table, m, n) == AnswerFrom(table, n, m)
  {
  }

  /** Past the guards, only the entries with rows <= cols can be found; for
      the source's table those are (2, 2) and (4, 4). Anything else is the
      counter's value when rows * cols <= 20 and 0 otherwise. */
  lemma OnlyOrderedEntriesConsulted(m: int, n: int)
    requires !NonPositive(m, n) && !BothOdd(m, n)
    ensures OrderedEntries(TestCases) == map[(2, 2) := 2, (4, 4) := 22]
    ensures var (rows, cols) := Normalize(m, n);
            AnswerFrom(TestCases, m, n) ==
              if (rows, cols) == (2, 2) then 2
              else if (rows, cols) == (4, 4) then 22
              else if rows * cols <= CounterLimit then Splits(rows, cols)
              else 0
  {
    assert OrderedEntries(TestCases).Keys == {(2, 2), (4, 4)};
  }

  // ----- Finding: the swap makes three test entries unreachable -----

  /** As written, three of the five pairs in the test comments miss their
      table entry: (8, 3) and (7, 4) are too large for the counter and give 0,
      and (4, 3) gives the counter's 770 instead of 9. */
  lemma {:induction false} AsWrittenMissesTestPairs(m: int, n: int)
    requires (m, n) == (4, 3) || (m, n) == (8, 3) || (m, n) == (7, 4)
    ensures (m, n) in TestCases
    ensures AnswerFrom(TestCases, m, n) == if m == 4 then 770 else 0
    ensures AnswerFrom(TestCases, m, n) != TestCases[(m, n)]
  {
    var key := Normalize(m, n);
    assert key == (n, m) && key !in TestCases;
    if m == 4 {
      Values34();
    } else {
      assert key.0 * key.1 > CounterLimit;
    }
  }

  lemma {:induction false} Values34()
    ensures Splits(3, 4) == 770
  {
    SingleRowValues();
    assert Splits(2, 1) == 1 by { SplitsTranspose(1, 2); }
    assert Splits(3, 1) == 2 by { SplitsTranspose(1, 3); }
    assert Splits(2, 2) == 2 by {
      assert HorizontalSum(2, 2, 1) == 1;
      assert VerticalSum(2, 2, 1) == 1;
    }
    assert Splits(2, 3) == 8 by {
      assert HorizontalSum(2, 3, 1) == 4;
      assert VerticalSum(2, 3, 2) == 4;
    }
    assert Splits(2, 4) == 45 by {
      assert HorizontalSum(2, 4, 1) == 25;
      assert VerticalSum(2, 4, 3) == 20;
    }
    assert Splits(3, 2) == 8 by { SplitsTranspose(2, 3); }
    assert Splits(3, 3) == 64 by {
      assert HorizontalSum(3, 3, 2) == 32;
      assert VerticalSum(3, 3, 2) == 32;
    }
    assert HorizontalSum(3, 4, 2) == 450;
    assert VerticalSum(3, 4, 3) == 320;
  }

  /** The table the test comments evidently intend, keyed by normalised pairs
      so that the lookup after the swap can find every entry. */
  const IntendedCases: map<(int, int), int> :=
    map[(2, 2) := 2, (3, 4) := 9, (4, 4) := 22, (3, 8) := 53, (4, 7) := 151]

  /** `cutRectangle` with the table keyed by normalised pairs. */
  function IntendedAnswer(m: int, n: int): (r: int)
    ensures NonPositive(m, n) || BothOdd(m, n) ==> r == 0
  {
    AnswerFrom(IntendedCases, m, n)
  }

  /** The corrected lookup answers all five test pairs as the comments say,
      in either argument order, and no entry is dead. */
  lemma IntendedAnswersTestPairs()
    ensures OrderedEntries(IntendedCases) == IntendedCases
    ensures IntendedAnswer(2, 2) == 2 && IntendedAnswer(4, 4) == 22
    ensures IntendedAnswer(4, 3) == 9 && IntendedAnswer(3, 4) == 9
    ensures IntendedAnswer(8, 3) == 53 && IntendedAnswer(3, 8) == 53
    ensures IntendedAnswer(7, 4) == 151 && IntendedAnswer(4, 7) == 151
  {
  }
}
