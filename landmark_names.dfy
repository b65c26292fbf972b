/**
 * Landmark names `L-<k>` (Python's `'L-%d' % k`) and the counter loop of
 * addLandmark that picks the first one not in use.
 */
module LandmarkNames {

  function Digit(d: nat): (c: char)
    requires d < 10
    ensures '0' <= c <= '9'
    ensures c as int - '0' as int == d
  {
    "0123456789"[d]
  }

  /** Decimal digits of `n`, without leading zeros (Python's `%d`). */
  function Decimal(n: nat): (s: string)
    ensures 1 <= |s|
    ensures forall i :: 0 <= i < |s| ==> '0' <= s[i] <= '9'
    ensures n < 10 <==> |s| == 1
  {
    if n < 10 then [Digit(n)] else Decimal(n / 10) + [Digit(n % 10)]
  }

  /** Different numbers print differently. */
  lemma {:induction false} DecimalInjective(a: nat, b: nat)
    requires Decimal(a) == Decimal(b)
    ensures a == b
  {
    assert |Decimal(a)| == |Decimal(b)|;
    if a >= 10 && b >= 10 {
      var sa, sb := Decimal(a), Decimal(b);
      assert sa[..|sa| - 1] == Decimal(a / 10);
      assert sb[..|sb| - 1] == Decimal(b / 10);
      DecimalInjective(a / 10, b / 10);
      assert Digit(a % 10) == sa[|sa| - 1] == sb[|sb| - 1] == Digit(b % 10);
    } else {
      assert a < 10 && b < 10;
      assert Digit(a) == Decimal(a)[0] == Decimal(b)[0] == Digit(b);
    }
  }

  function LandmarkName(k: nat): string {
    "L-" + Decimal(k)
  }

  lemma LandmarkNameInjective(a: nat, b: nat)
    requires LandmarkName(a) == LandmarkName(b)
    ensures a == b
  {
    assert Decimal(a) == LandmarkName(a)[2..] == LandmarkName(b)[2..] == Decimal(b);
    DecimalInjective(a, b);
  }

  /** The first `n` landmark names are `n` distinct strings. */
  lemma {:induction false} NamesBelowCount(n: nat)
    ensures |set j | 0 <= j < n :: LandmarkName(j)| == n
  {
    if n > 0 {
      var below := set j | 0 <= j < n - 1 :: LandmarkName(j);
      NamesBelowCount(n - 1);
      assert (set j | 0 <= j < n :: LandmarkName(j)) == below + {LandmarkName(n - 1)};
      if LandmarkName(n - 1) in below {
        var j :| 0 <= j < n - 1 && LandmarkName(j) == LandmarkName(n - 1);
        LandmarkNameInjective(j, n - 1);
      }
    }
  }

  lemma SubsetSize<T>(a: set<T>, b: set<T>)
    requires a <= b
    ensures |a| <= |b|
  {
    assert b == a + (b - a);
  }

  /**
   * addLandmark's `while True` loop: the smallest k whose name `L-k` is not
   * among `taken`.  It stops because only |taken| names can be taken.
   */
  method FreshLandmarkIndex(taken: set<string>) returns (index: nat)
    ensures LandmarkName(index) !in taken
    ensures forall j :: 0 <= j < index ==> LandmarkName(j) in taken
    ensures index <= |taken|
  {
    index := 0;
    while LandmarkName(index) in taken
      invariant forall j :: 0 <= j < index ==> LandmarkName(j) in taken
      invariant index <= |taken|
      decreases |taken| - index
    {
      NamesBelowCount(index + 1);
      SubsetSize(set j | 0 <= j < index + 1 :: LandmarkName(j), taken);
      index := index + 1;
    }
  }
}
