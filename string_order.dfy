/**
 * Python's ordering of strings (code point by code point, a proper prefix
 * first) and the sorted list of a set of strings that `keys.sort()` yields.
 */
module StringOrder {

  /** a < b in Python's string order. */
  predicate StrLess(a: string, b: string)
    decreases |a|
  {
    if a == [] then b != []
    else if b == [] then false
    else if a[0] != b[0] then a[0] < b[0]
    else StrLess(a[1..], b[1..])
  }

  lemma {:induction false} StrLessIrreflexive(a: string)
    ensures !StrLess(a, a)
    decreases |a|
  {
    if a != [] {
      StrLessIrreflexive(a[1..]);
    }
  }

  lemma {:induction false} StrLessTransitive(a: string, b: string, c: string)
    requires StrLess(a, b) && StrLess(b, c)
    ensures StrLess(a, c)
    decreases |a|
  {
    if a != [] && b != [] && c != [] && a[0] == b[0] && b[0] == c[0] {
      StrLessTransitive(a[1..], b[1..], c[1..]);
    }
  }

  lemma {:induction false} StrLessTotal(a: string, b: string)
    ensures a == b || StrLess(a, b) || StrLess(b, a)
    decreases |a|
  {
    if a != [] && b != [] && a[0] == b[0] {
      StrLessTotal(a[1..], b[1..]);
      if a[1..] == b[1..] {
        assert a == [a[0]] + a[1..] && b == [b[0]] + b[1..];
      }
    }
  }

  /** Strictly increasing: sorted and without repeats, as the keys of a dictionary are. */
  predicate Increasing(s: seq<string>) {
    forall i, j :: 0 <= i < j < |s| ==> StrLess(s[i], s[j])
  }

  /** There is only one increasing list of a set of strings. */
  lemma {:induction false} IncreasingUnique(s: seq<string>, t: seq<string>)
    requires Increasing(s) && Increasing(t)
    requires forall x :: x in s <==> x in t
    ensures s == t
    decreases |s|
  {
    assert s == [] <==> t == [] by {
      if t != [] {
        assert t[0] in s;
      }
      if s != [] {
        assert s[0] in t;
      }
    }
    if s != [] {
      assert s[0] in t && t[0] in s;
      if s[0] != t[0] {
        var i :| 0 <= i < |t| && t[i] == s[0];
        var j :| 0 <= j < |s| && s[j] == t[0];
        assert StrLess(t[0], s[0]) by {
          assert i > 0;
        }
        assert StrLess(s[0], t[0]) by {
          assert j > 0;
        }
        StrLessTransitive(s[0], t[0], s[0]);
        StrLessIrreflexive(s[0]);
      }
      forall x
        ensures x in s[1..] <==> x in t[1..]
      {
        if x in s[1..] {
          var k :| 1 <= k < |s| && s[k] == x;
          StrLessIrreflexive(x);
          assert x != s[0];
          assert x in t;
        }
        if x in t[1..] {
          var k :| 1 <= k < |t| && t[k] == x;
          StrLessIrreflexive(x);
          assert x != t[0];
          assert x in s;
        }
      }
      IncreasingUnique(s[1..], t[1..]);
      assert s == [s[0]] + s[1..] && t == [t[0]] + t[1..];
    }
  }

  /** The least string of a non-empty set. */
  method Least(keys: set<string>) returns (m: string)
    requires keys != {}
    ensures m in keys
    ensures forall x :: x in keys && x != m ==> StrLess(m, x)
  {
    m :| m in keys;
    var rest := keys - {m};
    while rest != {}
      invariant m in keys && rest <= keys
      invariant forall x :: x in keys && x !in rest && x != m ==> StrLess(m, x)
      decreases |rest|
    {
      var x :| x in rest;
      StrLessTotal(x, m);
      if StrLess(x, m) {
        forall y | y in keys && y !in rest && y != x
          ensures StrLess(x, y)
        {
          if y != m {
            StrLessTransitive(x, m, y);
          }
        }
        m := x;
      }
      rest := rest - {x};
    }
  }

  /** keys.sort() on a dictionary's keys: the keys in increasing order. */
  method Sorted(keys: set<string>) returns (s: seq<string>)
    ensures Increasing(s)
    ensures forall x :: x in s <==> x in keys
    ensures |s| == |keys|
  {
    s := [];
    var rest := keys;
    while rest != {}
      invariant rest <= keys
      invariant Increasing(s)
      invariant forall x :: x in s <==> x in keys && x !in rest
      invariant forall i, x :: 0 <= i < |s| && x in rest ==> StrLess(s[i], x)
      invariant |s| + |rest| == |keys|
      decreases |rest|
    {
      var m := Least(rest);
      s := s + [m];
      rest := rest - {m};
    }
  }
}
