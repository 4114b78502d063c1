// Byte order on strings and sorting by a string key, as the standard library provides them.

module Ordering {
  import opened Common

  predicate Less(a: Text, b: Text) {
    b != [] && (a == [] || a[0] < b[0] || (a[0] == b[0] && Less(a[1..], b[1..])))
  }

  lemma {:induction false} Trichotomy(a: Text, b: Text)
    ensures a != b ==> Less(a, b) || Less(b, a)
  {
    if a != [] && b != [] && a[0] == b[0] {
      assert a == [a[0]] + a[1..] && b == [b[0]] + b[1..];
      Trichotomy(a[1..], b[1..]);
    }
  }

  lemma {:induction false} Asymmetric(a: Text, b: Text)
    ensures !(Less(a, b) && Less(b, a))
  {
    if a != [] && b != [] && a[0] == b[0] {
      Asymmetric(a[1..], b[1..]);
    }
  }

  lemma {:induction false} Transitive(a: Text, b: Text, c: Text)
    requires Less(a, b) && Less(b, c)
    ensures Less(a, c)
  {
    if a != [] && a[0] == b[0] == c[0] {
      Transitive(a[1..], b[1..], c[1..]);
    }
  }

  ghost predicate Ascending<T>(s: seq<T>, key: T -> Text) {
    forall i, j :: 0 <= i < j < |s| ==> !Less(key(s[j]), key(s[i]))
  }

  ghost predicate Increasing<T>(s: seq<T>, key: T -> Text) {
    forall i, j :: 0 <= i < j < |s| ==> Less(key(s[i]), key(s[j]))
  }

  ghost predicate DistinctKeys<T>(s: seq<T>, key: T -> Text) {
    forall i, j :: 0 <= i < j < |s| ==> key(s[i]) != key(s[j])
  }

  /** Plain strings are their own sort keys. */
  function Itself(t: Text): Text { t }

  /** Puts `x` before the first element whose key is not smaller. */
  function Insert<T>(x: T, s: seq<T>, key: T -> Text): seq<T>
    decreases |s|
  {
    if s == [] || !Less(key(s[0]), key(x)) then [x] + s else [s[0]] + Insert(x, s[1..], key)
  }

  /** The stable sort by key. */
  function Sorted<T>(s: seq<T>, key: T -> Text): seq<T>
    decreases |s|
  {
    if s == [] then [] else Insert(s[0], Sorted(s[1..], key), key)
  }

  lemma {:induction false} InsertKeepsOrder<T>(x: T, s: seq<T>, key: T -> Text)
    requires Ascending(s, key)
    ensures Ascending(Insert(x, s, key), key)
    ensures multiset(Insert(x, s, key)) == multiset{x} + multiset(s)
    decreases |s|
  {
    if s == [] {
    } else if !Less(key(s[0]), key(x)) {
      forall j | 0 <= j < |s|
        ensures !Less(key(s[j]), key(x))
      {
        if Less(key(s[j]), key(x)) {
          if key(s[0]) != key(s[j]) {
            Trichotomy(key(s[0]), key(s[j]));
            Transitive(key(s[0]), key(s[j]), key(x));
          }
        }
      }
    } else {
      var rest := s[1..];
      assert s == [s[0]] + rest;
      InsertKeepsOrder(x, rest, key);
      var t := Insert(x, rest, key);
      forall j | 0 <= j < |t|
        ensures !Less(key(t[j]), key(s[0]))
      {
        assert t[j] in multiset(t);
        if t[j] == x {
          Asymmetric(key(s[0]), key(x));
        } else {
          var i :| 0 <= i < |rest| && rest[i] == t[j];
          assert rest[i] == s[i + 1];
        }
      }
    }
  }

  lemma {:induction false} SortedIsAnAscendingPermutation<T>(s: seq<T>, key: T -> Text)
    ensures Ascending(Sorted(s, key), key)
    ensures multiset(Sorted(s, key)) == multiset(s) && |Sorted(s, key)| == |s|
    decreases |s|
  {
    if s == [] {
    } else {
      assert s == [s[0]] + s[1..];
      SortedIsAnAscendingPermutation(s[1..], key);
      InsertKeepsOrder(s[0], Sorted(s[1..], key), key);
    }
    assert |Sorted(s, key)| == |multiset(Sorted(s, key))| == |multiset(s)| == |s|;
  }

  lemma {:induction false} DistinctOccursOnce<T>(a: seq<T>, x: T, key: T -> Text)
    requires DistinctKeys(a, key)
    ensures multiset(a)[x] <= 1
    decreases |a|
  {
    if a == [] {
    } else {
      assert a == [a[0]] + a[1..];
      DistinctOccursOnce(a[1..], x, key);
      assert a[0] !in a[1..];
    }
  }

  lemma RepeatedOccursTwice<T>(b: seq<T>, i: nat, j: nat)
    requires i < j < |b| && b[i] == b[j]
    ensures multiset(b)[b[i]] >= 2
  {
    assert b == b[..j] + b[j..];
    assert b[i] in b[..j] && b[i] in b[j..];
  }

  /** Whether all keys differ does not depend on the order. */
  lemma DistinctKeysForgetOrder<T>(a: seq<T>, b: seq<T>, key: T -> Text)
    requires multiset(a) == multiset(b) && DistinctKeys(a, key)
    ensures DistinctKeys(b, key)
  {
    forall i, j | 0 <= i < j < |b|
      ensures key(b[i]) != key(b[j])
    {
      SameElements(a, b, b[i]);
      SameElements(a, b, b[j]);
      if b[i] == b[j] {
        RepeatedOccursTwice(b, i, j);
        DistinctOccursOnce(a, b[i], key);
      }
    }
  }

  lemma IncreasingIsSortedAndDistinct<T>(s: seq<T>, key: T -> Text)
    ensures Increasing(s, key) <==> Ascending(s, key) && DistinctKeys(s, key)
  {
    forall i, j | 0 <= i < j < |s|
      ensures Less(key(s[i]), key(s[j])) <==> !Less(key(s[j]), key(s[i])) && key(s[i]) != key(s[j])
    {
      Trichotomy(key(s[i]), key(s[j]));
      Asymmetric(key(s[i]), key(s[j]));
    }
  }

  lemma HasElement<T>(s: seq<T>)
    ensures s != [] ==> exists x :: x in s
  {
    if s != [] {
      assert s[0] in s;
    }
  }

  /** An increasing sequence is determined by its elements. */
  lemma {:induction false} IncreasingIsUnique<T>(a: seq<T>, b: seq<T>, key: T -> Text)
    requires Increasing(a, key) && Increasing(b, key)
    requires forall x :: x in a <==> x in b
    ensures a == b
    decreases |a|
  {
    if a == [] {
      HasElement(b);
    } else {
      assert a[0] in b && b != [];
      assert b[0] in a;
      if a[0] != b[0] {
        var i :| 0 <= i < |b| && b[i] == a[0];
        var j :| 0 <= j < |a| && a[j] == b[0];
        Asymmetric(key(a[0]), key(b[0]));
      }
      forall x
        ensures x in a[1..] <==> x in b[1..]
      {
        HeadIsUnique(a, x, key);
        HeadIsUnique(b, x, key);
      }
      IncreasingIsUnique(a[1..], b[1..], key);
      assert a == [a[0]] + a[1..] && b == [b[0]] + b[1..];
    }
  }

  lemma HeadIsUnique<T>(a: seq<T>, x: T, key: T -> Text)
    requires a != [] && Increasing(a, key)
    ensures x in a[1..] <==> x in a && x != a[0]
  {
    Asymmetric(key(a[0]), key(a[0]));
    assert a == [a[0]] + a[1..];
  }

  /** Sorting forgets the order: any two arrangements of the same distinct-key elements sort alike. */
  lemma SortForgetsOrder<T>(a: seq<T>, b: seq<T>, key: T -> Text)
    requires DistinctKeys(a, key) && DistinctKeys(b, key)
    requires forall x :: x in a <==> x in b
    ensures Sorted(a, key) == Sorted(b, key) && Increasing(Sorted(a, key), key)
  {
    SortedIsAnAscendingPermutation(a, key);
    SortedIsAnAscendingPermutation(b, key);
    DistinctKeysForgetOrder(a, Sorted(a, key), key);
    DistinctKeysForgetOrder(b, Sorted(b, key), key);
    IncreasingIsSortedAndDistinct(Sorted(a, key), key);
    IncreasingIsSortedAndDistinct(Sorted(b, key), key);
    forall x
      ensures x in Sorted(a, key) <==> x in Sorted(b, key)
    {
      SameElements(a, Sorted(a, key), x);
      SameElements(b, Sorted(b, key), x);
    }
    IncreasingIsUnique(Sorted(a, key), Sorted(b, key), key);
  }

  lemma SameElements<T>(a: seq<T>, b: seq<T>, x: T)
    requires multiset(a) == multiset(b)
    ensures x in a <==> x in b
  {
    assert x in a <==> x in multiset(a);
    assert x in b <==> x in multiset(b);
  }
}
