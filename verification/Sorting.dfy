/** Strings in the order Go sorts them: code point by code point. */
module Sorting {
  predicate AtMost(a: string, b: string) {
    |a| == 0 || (|b| > 0 && (a[0] < b[0] || (a[0] == b[0] && AtMost(a[1..], b[1..]))))
  }

  // a and b agree up to k, where a ends or has the smaller character.
  predicate FirstDifference(a: string, b: string, k: nat) {
    && k <= |a| && k <= |b| && a[..k] == b[..k]
    && (k == |a| || (k < |b| && a[k] < b[k]))
  }

  /** The order is the lexicographic one. */
  lemma {:induction false} AtMostIff(a: string, b: string)
    ensures AtMost(a, b) <==> exists k: nat :: FirstDifference(a, b, k)
  {
    if |a| == 0 {
      assert FirstDifference(a, b, 0);
    } else if |b| == 0 || a[0] != b[0] {
      if |b| > 0 && a[0] < b[0] {
        assert FirstDifference(a, b, 0);
      }
      if k: nat :| FirstDifference(a, b, k) && k > 0 {
        SameStart(a, b, k);
      }
    } else {
      AtMostIff(a[1..], b[1..]);
      if k: nat :| FirstDifference(a[1..], b[1..], k) {
        OneMore(a, b, k);
      }
      if k: nat :| FirstDifference(a, b, k) {
        assert k > 0;
        assert a[1..][..k - 1] == a[..k][1..] && b[1..][..k - 1] == b[..k][1..];
        assert FirstDifference(a[1..], b[1..], k - 1);
      }
    }
  }

  lemma SameStart(a: string, b: string, k: nat)
    requires 0 < k && FirstDifference(a, b, k)
    ensures |b| > 0 && a[0] == b[0]
  {
    assert a[..k][0] == b[..k][0];
  }

  lemma OneMore(a: string, b: string, k: nat)
    requires |a| > 0 && |b| > 0 && a[0] == b[0] && FirstDifference(a[1..], b[1..], k)
    ensures FirstDifference(a, b, k + 1)
  {
    assert a[..k + 1] == [a[0]] + a[1..][..k] && b[..k + 1] == [b[0]] + b[1..][..k];
  }

  lemma {:induction false} AtMostIsTotal(a: string, b: string)
    ensures AtMost(a, b) || AtMost(b, a)
    ensures AtMost(a, b) && AtMost(b, a) ==> a == b
  {
    if |a| > 0 && |b| > 0 && a[0] == b[0] {
      AtMostIsTotal(a[1..], b[1..]);
      assert a == [a[0]] + a[1..] && b == [b[0]] + b[1..];
    }
  }

  lemma {:induction false} AtMostIsTransitive(a: string, b: string, c: string)
    requires AtMost(a, b) && AtMost(b, c)
    ensures AtMost(a, c)
  {
    if |a| > 0 && a[0] == b[0] && b[0] == c[0] {
      AtMostIsTransitive(a[1..], b[1..], c[1..]);
    }
  }

  ghost predicate Sorted(s: seq<string>) {
    forall i, j :: 0 <= i < j < |s| ==> AtMost(s[i], s[j])
  }

  function Insert(s: seq<string>, x: string): seq<string> {
    if |s| == 0 || AtMost(s[|s| - 1], x) then s + [x] else Insert(s[..|s| - 1], x) + [s[|s| - 1]]
  }

  lemma {:induction false} InsertKeepsSorted(s: seq<string>, x: string)
    requires Sorted(s)
    ensures Sorted(Insert(s, x))
    ensures multiset(Insert(s, x)) == multiset(s) + multiset{x}
  {
    if |s| == 0 {
    } else {
      var init, last := s[..|s| - 1], s[|s| - 1];
      assert s == init + [last];
      if AtMost(last, x) {
        forall i | 0 <= i < |s|
          ensures AtMost(s[i], x)
        {
          if i < |s| - 1 {
            AtMostIsTransitive(s[i], last, x);
          }
        }
      } else {
        InsertKeepsSorted(init, x);
        AtMostIsTotal(last, x);
        var t := Insert(init, x);
        forall i | 0 <= i < |t|
          ensures AtMost(t[i], last)
        {
          assert t[i] in multiset(t);
          assert t[i] == x || t[i] in multiset(init);
        }
      }
    }
  }

  function Sort(s: seq<string>): seq<string> {
    if |s| == 0 then [] else Insert(Sort(s[..|s| - 1]), s[|s| - 1])
  }

  lemma {:induction false} SortSorts(s: seq<string>)
    ensures Sorted(Sort(s))
    ensures multiset(Sort(s)) == multiset(s)
  {
    if |s| == 0 {
    } else {
      SortSorts(s[..|s| - 1]);
      InsertKeepsSorted(Sort(s[..|s| - 1]), s[|s| - 1]);
      assert s == s[..|s| - 1] + [s[|s| - 1]];
    }
  }

  ghost predicate Distinct<T>(s: seq<T>) {
    forall i, j :: 0 <= i < j < |s| ==> s[i] != s[j]
  }

  lemma {:induction false} DistinctIffCountedOnce<T>(s: seq<T>)
    ensures Distinct(s) <==> forall x :: x in s ==> multiset(s)[x] == 1
  {
    if |s| == 0 {
    } else {
      var init, last := s[..|s| - 1], s[|s| - 1];
      DistinctIffCountedOnce(init);
      assert s == init + [last];
      assert multiset(s) == multiset(init) + multiset{last};
      if !Distinct(s) && Distinct(init) {
        var i, j :| 0 <= i < j < |s| && s[i] == s[j];
        assert init[i] == last;
        assert multiset(s)[last] == 2 && last in s;
      } else if Distinct(s) {
        assert last !in init;
      } else {
        var x :| x in init && multiset(init)[x] != 1;
        assert x in s && multiset(s)[x] != 1;
      }
    }
  }

  lemma PermutationKeeps<T>(s: seq<T>, t: seq<T>)
    requires multiset(s) == multiset(t)
    ensures forall x :: x in s <==> x in t
    ensures Distinct(s) <==> Distinct(t)
  {
    forall x
      ensures x in s <==> x in t
    {
      assert x in s <==> x in multiset(s);
      assert x in t <==> x in multiset(t);
    }
    DistinctIffCountedOnce(s);
    DistinctIffCountedOnce(t);
  }

  // A list of every key exactly once.
  ghost predicate Lists(order: seq<string>, keys: set<string>) {
    Distinct(order) && forall k :: k in order <==> k in keys
  }

  // The keys in whatever order the map is walked.
  method KeysOf(keys: set<string>) returns (s: seq<string>)
    ensures Lists(s, keys)
  {
    s := [];
    var rest := keys;
    while rest != {}
      invariant rest <= keys && Distinct(s)
      invariant forall k :: k in s <==> k in keys && k !in rest
      decreases |rest|
    {
      var k :| k in rest;
      rest := rest - {k};
      s := s + [k];
    }
  }

  method SortedKeys(keys: set<string>) returns (s: seq<string>)
    ensures Lists(s, keys) && Sorted(s)
  {
    var walked := KeysOf(keys);
    SortSorts(walked);
    PermutationKeeps(walked, Sort(walked));
    s := Sort(walked);
  }
}
