/**
 The two functions of main2.py: the Python `cutRectangle`, which looks up
 the exact ordered pair (m, n) without normalising it, and `cutRectangleJS`,
 which builds the string key `${m},${n}` into a JavaScript object and tests
 the looked-up value for truthiness.
 */
module CutMain2 {
  import opened Dimensions

  /** The `test_cases` dictionary of the Python function. */
  const TestCases: map<(int, int), int> :=
    map[(2, 2) := 2, (4, 3) := 9, (4, 4) := 22, (8, 3) := 53, (7, 4) := 151]

  function CutRectangle(m: int, n: int): (r: int)
    ensures NonPositive(m, n) ==> r == 0
    ensures BothOdd(m, n) ==> r == 0
    ensures r in {0, 2, 9, 22, 53, 151}
    ensures r != 0 <==> (m, n) in TestCases
    ensures (m, n) in TestCases ==> r == TestCases[(m, n)]
  {
    if NonPositive(m, n) then 0
    else if BothOdd(m, n) then 0
    else if (m, n) in TestCases then TestCases[(m, n)]
    else 0
  }

  /** Without normalisation the transposes of the test pairs are not found. */
  lemma TransposesGiveZero()
    ensures CutRectangle(3, 4) == 0 && CutRectangle(3, 8) == 0 && CutRectangle(4, 7) == 0
    ensures CutRectangle(4, 3) == 9 && CutRectangle(8, 3) == 53 && CutRectangle(7, 4) == 151
  {
  }

  // ----- The JavaScript variant -----

  /** JavaScript's `%`, which truncates toward zero: the remainder takes the
      sign of the dividend. */
  function JsRem(a: int, d: int): (r: int)
    requires d != 0
    ensures a >= 0 ==> r == a % d
    ensures a < 0 ==> r <= 0
    ensures -(if d < 0 then -d else d) < r < (if d < 0 then -d else d)
  {
    if a >= 0 then a % d else -((-a) % d)
  }

  /** Negating the dividend negates the remainder; with the clause for a
      non-negative dividend this fixes every value. */
  lemma JsRemNegated(a: int, d: int)
    requires d != 0
    ensures JsRem(-a, d) == -JsRem(a, d)
  {
  }

  /** The decimal digits of a natural number, as a template literal renders it. */
  function Decimal(x: nat): (s: string)
    ensures |s| >= 1
    ensures x >= 10 <==> |s| >= 2
    ensures forall i :: 0 <= i < |s| ==> '0' <= s[i] <= '9'
  {
    if x < 10 then [Digit(x)] else Decimal(x / 10) + [Digit(x % 10)]
  }

  function Digit(d: nat): (c: char)
    requires d < 10
    ensures '0' <= c <= '9'
  {
    (48 + d) as char
  }

  /** An integer as a template literal renders it: a minus sign, then digits. */
  function IntString(x: int): (s: string)
    ensures |s| >= 1
    ensures forall i :: 0 <= i < |s| ==> s[i] != ','
  {
    if x < 0 then "-" + Decimal(-x) else Decimal(x)
  }

  /** The object key `${m},${n}`: the first rendering, then the only comma,
      then the second rendering. */
  function JsKey(m: int, n: int): (key: string)
    ensures |key| == |IntString(m)| + 1 + |IntString(n)|
    ensures key[|IntString(m)|] == ','
    ensures forall i :: 0 <= i < |key| && key[i] == ',' ==> i == |IntString(m)|
  {
    IntString(m) + "," + IntString(n)
  }

  /** The `testCases` object literal: string keys to numbers. */
  const JsTestCases: map<string, int> :=
    map["2,2" := 2, "4,3" := 9, "4,4" := 22, "8,3" := 53, "7,4" := 151]

  /** What reading a property yields: `undefined` for an absent key. */
  datatype JsValue = Undefined | Number(value: int)

  /** `obj[key]` on an object literal with the given own properties. */
  function Get(obj: map<string, int>, key: string): (v: JsValue)
    ensures v.Number? <==> key in obj
    ensures v.Number? ==> v.value == obj[key]
  {
    if key in obj then Number(obj[key]) else Undefined
  }

  /** JavaScript truthiness of the values modelled here: `undefined` and the
      number 0 are falsy, every other number is truthy. */
  predicate Truthy(v: JsValue)
    ensures Truthy(v) <==> v != Undefined && v != Number(0)
  {
    match v
    case Undefined => false
    case Number(x) => x != 0
  }

  /** `if (obj[key])` succeeds exactly when the key is an own property whose
      value is not 0. */
  lemma TruthyRead(obj: map<string, int>, key: string)
    ensures Truthy(Get(obj, key)) <==> key in obj && obj[key] != 0
  {
  }

  function CutRectangleJS(m: int, n: int): (r: int)
    ensures m <= 0 || n <= 0 ==> r == 0
    ensures m > 0 && n > 0 && m % 2 == 1 && n % 2 == 1 ==> r == 0
    ensures r == 0 || r in JsTestCases.Values
  {
    if m <= 0 || n <= 0 then 0
    else if JsRem(m, 2) == 1 && JsRem(n, 2) == 1 then 0
    else
      var v := Get(JsTestCases, JsKey(m, n));
      if Truthy(v) then v.value else 0
  }

  // ----- Agreement of the two variants -----

  lemma {:induction false} DecimalInjective(x: nat, y: nat)
    requires Decimal(x) == Decimal(y)
    ensures x == y
  {
    var s, t := Decimal(x), Decimal(y);
    if x < 10 && y < 10 {
      assert s[0] == t[0];
    } else if x >= 10 && y >= 10 {
      assert s[|s| - 1] == t[|t| - 1];
      assert Decimal(x / 10) == s[..|s| - 1] == t[..|t| - 1] == Decimal(y / 10);
      DecimalInjective(x / 10, y / 10);
    }
  }

  lemma {:induction false} IntStringInjective(x: int, y: int)
    requires IntString(x) == IntString(y)
    ensures x == y
  {
    var s := IntString(x);
    assert s[0] == '-' <==> x < 0;
    assert IntString(y)[0] == '-' <==> y < 0;
    if x < 0 {
      assert Decimal(-x) == s[1..] == Decimal(-y);
      DecimalInjective(-x, -y);
    } else {
      DecimalInjective(x, y);
    }
  }

  /** Splitting at a separator that occurs in neither left part recovers both
      parts. */
  lemma {:induction false} SplitAtSeparator(a: string, b: string, c: string, d: string)
    requires forall i :: 0 <= i < |a| ==> a[i] != ','
    requires forall i :: 0 <= i < |c| ==> c[i] != ','
    requires a + "," + b == c + "," + d
    ensures a == c && b == d
  {
    var s := a + "," + b;
    assert forall i :: 0 <= i < |a| ==> s[i] != ',';
    assert forall i :: 0 <= i < |c| ==> s[i] != ',';
    assert s[|a|] == ',' && s[|c|] == ',';
    assert |a| == |c|;
    assert a == s[..|a|] == c;
    assert b == s[|a| + 1..] == d;
  }

  /** Different ordered pairs give different object keys. */
  lemma {:induction false} JsKeyInjective(m: int, n: int, p: int, q: int)
    requires JsKey(m, n) == JsKey(p, q)
    ensures m == p && n == q
  {
    SplitAtSeparator(IntString(m), IntString(n), IntString(p), IntString(q));
    IntStringInjective(m, p);
    IntStringInjective(n, q);
  }

  /** The five test pairs render as the keys of the object literal. */
  lemma RenderedTestKeys()
    ensures JsKey(2, 2) == "2,2" && JsKey(4, 3) == "4,3" && JsKey(4, 4) == "4,4"
    ensures JsKey(8, 3) == "8,3" && JsKey(7, 4) == "7,4"
  {
    assert Decimal(2) == "2" && Decimal(3) == "3" && Decimal(4) == "4";
    assert Decimal(7) == "7" && Decimal(8) == "8";
  }

  /** Every key of the Python dictionary, rendered, is a key of the object
      literal with the same value, and every value there is truthy. */
  lemma TestCasesRendered()
    ensures forall k :: k in TestCases ==> JsKey(k.0, k.1) in JsTestCases && JsTestCases[JsKey(k.0, k.1)] == TestCases[k]
    ensures forall s :: s in JsTestCases ==> Truthy(Get(JsTestCases, s))
  {
    RenderedTestKeys();
    assert TestCases.Keys == {(2, 2), (4, 3), (4, 4), (8, 3), (7, 4)};
  }

  /** Every key of the object literal is the rendering of a key of the
      Python dictionary. */
  lemma JsTestCasesFromTestCases(s: string)
    requires s in JsTestCases
    ensures exists k :: k in TestCases && JsKey(k.0, k.1) == s
  {
    RenderedTestKeys();
    assert JsTestCases.Keys == {"2,2", "4,3", "4,4", "8,3", "7,4"};
    if s == "2,2" {
      assert JsKey(2, 2) == s;
    } else if s == "4,3" {
      assert JsKey(4, 3) == s;
    } else if s == "4,4" {
      assert JsKey(4, 4) == s;
    } else if s == "8,3" {
      assert JsKey(8, 3) == s;
    } else {
      assert JsKey(7, 4) == s;
    }
  }

  /** The truthiness test never turns a hit into a miss, and the string key
      finds exactly the ordered pairs the Python dictionary finds: the two
      functions agree on every pair of integers. */
  lemma {:induction false} JsAgreesWithPython(m: int, n: int)
    ensures CutRectangleJS(m, n) == CutRectangle(m, n)
  {
    if m > 0 && n > 0 {
      assert JsRem(m, 2) == m % 2 && JsRem(n, 2) == n % 2;
      TestCasesRendered();
      var key := JsKey(m, n);
      if key in JsTestCases {
        JsTestCasesFromTestCases(key);
        var k :| k in TestCases && JsKey(k.0, k.1) == key;
        JsKeyInjective(m, n, k.0, k.1);
      }
    }
  }
}
