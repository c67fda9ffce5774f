/** Filtering, mapping, and Python's stable `sorted` by an integer key. */
module Sequences {

  lemma Reassociate<T>(a: seq<T>, b: seq<T>, c: seq<T>)
    ensures a + b + c == a + (b + c)
  {
  }

  lemma LastOrBefore<T>(s: seq<T>)
    requires s != []
    ensures forall x :: x in s <==> x in s[..|s| - 1] || x == s[|s| - 1]
  {
    assert s == s[..|s| - 1] + [s[|s| - 1]];
  }

  function Filter<T>(s: seq<T>, p: T -> bool): (r: seq<T>)
    ensures |r| <= |s|
    ensures forall x | x in r :: x in s && p(x)
    ensures forall x | x in s && p(x) :: x in r
  {
    if s == [] then []
    else if p(s[0]) then [s[0]] + Filter(s[1..], p)
    else Filter(s[1..], p)
  }

  lemma {:induction false} FilterConcat<T>(a: seq<T>, b: seq<T>, p: T -> bool)
    ensures Filter(a + b, p) == Filter(a, p) + Filter(b, p)
  {
    if a == [] {
      assert a + b == b;
    } else {
      assert (a + b)[1..] == a[1..] + b;
      FilterConcat(a[1..], b, p);
    }
  }

  /** One more loop iteration: the filter of a prefix extended by one element. */
  lemma FilterSnoc<T>(s: seq<T>, i: nat, p: T -> bool)
    requires i < |s|
    ensures Filter(s[..i + 1], p) == Filter(s[..i], p) + (if p(s[i]) then [s[i]] else [])
  {
    assert s[..i + 1] == s[..i] + [s[i]];
    FilterConcat(s[..i], [s[i]], p);
  }

  lemma {:induction false} FilterAll<T>(s: seq<T>, p: T -> bool)
    requires forall x | x in s :: p(x)
    ensures Filter(s, p) == s
  {
    if s == [] {
    } else {
      FilterAll(s[1..], p);
    }
  }

  lemma {:induction false} FilterNone<T>(s: seq<T>, p: T -> bool)
    requires forall x | x in s :: !p(x)
    ensures Filter(s, p) == []
  {
    if s == [] {
    } else {
      FilterNone(s[1..], p);
    }
  }

  /** Two predicates that agree on the elements give the same filter. */
  lemma {:induction false} FilterAgree<T>(s: seq<T>, p: T -> bool, q: T -> bool)
    requires forall x | x in s :: p(x) == q(x)
    ensures Filter(s, p) == Filter(s, q)
  {
    if s == [] {
    } else {
      FilterAgree(s[1..], p, q);
    }
  }

  lemma {:induction false} FilterFilter<T>(s: seq<T>, p: T -> bool, q: T -> bool)
    ensures Filter(Filter(s, p), q) == Filter(Filter(s, q), p)
  {
    if s == [] {
    } else {
      FilterFilter(s[1..], p, q);
    }
  }

  lemma {:induction false} FilterMultiset<T>(s: seq<T>, p: T -> bool)
    ensures forall x :: multiset(Filter(s, p))[x] == if p(x) then multiset(s)[x] else 0
  {
    if s == [] {
    } else {
      FilterMultiset(s[1..], p);
      assert s == [s[0]] + s[1..];
    }
  }

  lemma {:induction false} FilterBoth<T>(s: seq<T>, p: T -> bool, q: T -> bool, both: T -> bool)
    requires forall x | x in s :: both(x) == (p(x) && q(x))
    ensures Filter(Filter(s, p), q) == Filter(s, both)
  {
    if s == [] {
    } else {
      FilterBoth(s[1..], p, q, both);
      assert s[0] in s;
    }
  }

  lemma FilterHead<T>(s: seq<T>, p: T -> bool)
    requires s != []
    ensures multiset(s) == multiset{s[0]} + multiset(s[1..])
    ensures multiset(Filter(s, p)) == (if p(s[0]) then multiset{s[0]} else multiset{}) + multiset(Filter(s[1..], p))
  {
    assert s == [s[0]] + s[1..];
  }

  /** Two filters between which every element chooses divide the elements. */
  lemma {:induction false} FilterSplits<T>(s: seq<T>, p: T -> bool, q: T -> bool)
    requires forall x | x in s :: p(x) != q(x)
    ensures multiset(s) == multiset(Filter(s, p)) + multiset(Filter(s, q))
  {
    if s == [] {
    } else {
      FilterSplits(s[1..], p, q);
      FilterHead(s, p);
      FilterHead(s, q);
    }
  }

  function Map<T, U>(s: seq<T>, f: T -> U): (r: seq<U>)
    ensures |r| == |s|
    ensures forall i :: 0 <= i < |s| ==> r[i] == f(s[i])
  {
    if s == [] then [] else [f(s[0])] + Map(s[1..], f)
  }

  lemma MapConcat<T, U>(a: seq<T>, b: seq<T>, f: T -> U)
    ensures Map(a + b, f) == Map(a, f) + Map(b, f)
  {
  }

  lemma MapSnoc<T, U>(s: seq<T>, i: nat, f: T -> U)
    requires i < |s|
    ensures Map(s[..i + 1], f) == Map(s[..i], f) + [f(s[i])]
  {
    assert s[..i + 1] == s[..i] + [s[i]];
  }

  lemma MapPush<T, U>(s: seq<T>, x: T, f: T -> U)
    ensures Map(s + [x], f) == Map(s, f) + [f(x)]
  {
  }

  lemma {:induction false} FilterMap<T, U>(s: seq<T>, f: T -> U, p: U -> bool, r: T -> bool)
    requires forall x | x in s :: p(f(x)) == r(x)
    ensures Filter(Map(s, f), p) == Map(Filter(s, r), f)
  {
    if s == [] {
    } else {
      FilterMap(s[1..], f, p, r);
      assert Map(s, f)[1..] == Map(s[1..], f);
      if r(s[0]) { assert ([s[0]] + Filter(s[1..], r))[1..] == Filter(s[1..], r); }
    }
  }

  // ----- stable sort -----

  predicate SortedBy<T>(s: seq<T>, key: T -> int) {
    forall i, j :: 0 <= i < j < |s| ==> key(s[i]) <= key(s[j])
  }

  /** Puts `x`, which preceded all of `s`, before the elements of `s` with an equal key. */
  function Insert<T>(x: T, s: seq<T>, key: T -> int): (r: seq<T>)
    ensures r != []
  {
    if s == [] || key(x) <= key(s[0]) then [x] + s else [s[0]] + Insert(x, s[1..], key)
  }

  /** `sorted(s, key=key)`. */
  function StableSort<T>(s: seq<T>, key: T -> int): seq<T> {
    if s == [] then [] else Insert(s[0], StableSort(s[1..], key), key)
  }

  function HasKey<T>(key: T -> int, k: int): T -> bool {
    x => key(x) == k
  }

  lemma ConsSorted<T>(x: T, s: seq<T>, key: T -> int)
    requires SortedBy(s, key) && (s != [] ==> key(x) <= key(s[0]))
    ensures SortedBy([x] + s, key)
  {
    forall i, j | 0 <= i < j < |[x] + s| ensures key(([x] + s)[i]) <= key(([x] + s)[j]) {
      assert ([x] + s)[j] == s[j - 1];
      if i > 0 {
        assert ([x] + s)[i] == s[i - 1];
      }
    }
  }

  lemma {:induction false} InsertElements<T>(x: T, s: seq<T>, key: T -> int)
    ensures multiset(Insert(x, s, key)) == multiset{x} + multiset(s)
  {
    if s == [] || key(x) <= key(s[0]) {
    } else {
      InsertElements(x, s[1..], key);
      assert s == [s[0]] + s[1..];
    }
  }

  lemma {:induction false} InsertSorted<T>(x: T, s: seq<T>, key: T -> int)
    requires SortedBy(s, key)
    ensures SortedBy(Insert(x, s, key), key)
    ensures Insert(x, s, key)[0] == if s == [] || key(x) <= key(s[0]) then x else s[0]
  {
    if s == [] || key(x) <= key(s[0]) {
      ConsSorted(x, s, key);
    } else {
      InsertSorted(x, s[1..], key);
      assert s[1..] != [] ==> s[1..][0] == s[1];
      ConsSorted(s[0], Insert(x, s[1..], key), key);
    }
  }

  /** The result is sorted and is a permutation of the input. */
  lemma {:induction false} SortSorts<T>(s: seq<T>, key: T -> int)
    ensures SortedBy(StableSort(s, key), key)
    ensures multiset(StableSort(s, key)) == multiset(s)
  {
    if s == [] {
    } else {
      SortSorts(s[1..], key);
      InsertSorted(s[0], StableSort(s[1..], key), key);
      InsertElements(s[0], StableSort(s[1..], key), key);
      assert s == [s[0]] + s[1..];
    }
  }

  lemma {:induction false} InsertFilter<T>(x: T, s: seq<T>, key: T -> int, p: T -> bool)
    requires SortedBy(s, key)
    ensures Filter(Insert(x, s, key), p) == if p(x) then Insert(x, Filter(s, p), key) else Filter(s, p)
  {
    if s == [] {
    } else if key(x) <= key(s[0]) {
      assert ([x] + s)[1..] == s;
      var kept := Filter(s, p);
      if kept != [] {
        assert kept[0] in s;
      }
    } else {
      InsertFilter(x, s[1..], key, p);
      assert ([s[0]] + Insert(x, s[1..], key))[1..] == Insert(x, s[1..], key);
    }
  }

  /** Sorting commutes with filtering: neither disturbs the relative order of the elements kept. */
  lemma {:induction false} SortFilter<T>(s: seq<T>, key: T -> int, p: T -> bool)
    ensures Filter(StableSort(s, key), p) == StableSort(Filter(s, p), key)
  {
    if s == [] {
    } else {
      SortFilter(s[1..], key, p);
      SortSorts(s[1..], key);
      InsertFilter(s[0], StableSort(s[1..], key), key, p);
      if p(s[0]) {
        assert Filter(s, p)[1..] == Filter(s[1..], p);
      }
    }
  }

  lemma {:induction false} SortSorted<T>(s: seq<T>, key: T -> int)
    requires SortedBy(s, key)
    ensures StableSort(s, key) == s
  {
    if s == [] {
    } else {
      SortSorted(s[1..], key);
    }
  }

  /** Elements with equal keys keep their input order. */
  lemma SortStable<T>(s: seq<T>, key: T -> int, k: int)
    ensures Filter(StableSort(s, key), HasKey(key, k)) == Filter(s, HasKey(key, k))
  {
    SortFilter(s, key, HasKey(key, k));
    var same := Filter(s, HasKey(key, k));
    forall i | 0 <= i < |same| ensures key(same[i]) == k {
      assert same[i] in same;
    }
    SortSorted(same, key);
  }

  /** Being sorted and stable determines the output, whatever algorithm produced it. */
  lemma {:induction false} SortUnique<T>(a: seq<T>, b: seq<T>, key: T -> int)
    requires SortedBy(a, key) && SortedBy(b, key)
    requires forall k :: Filter(a, HasKey(key, k)) == Filter(b, HasKey(key, k))
    ensures a == b
  {
    if a == [] {
    } else {
      var ka := key(a[0]);
      assert a[0] in Filter(a, HasKey(key, ka));
      assert a[0] in Filter(b, HasKey(key, ka));
      assert a[0] in b;
      assert b[0] in Filter(a, HasKey(key, key(b[0])));
      assert b[0] in a;
      assert key(b[0]) == ka;
      assert Filter(a, HasKey(key, ka))[0] == a[0];
      assert Filter(b, HasKey(key, ka))[0] == b[0];
      forall k ensures Filter(a[1..], HasKey(key, k)) == Filter(b[1..], HasKey(key, k)) {
        assert Filter(a, HasKey(key, k)) == Filter(b, HasKey(key, k));
        if k == ka {
          assert Filter(a, HasKey(key, k))[1..] == Filter(a[1..], HasKey(key, k));
          assert Filter(b, HasKey(key, k))[1..] == Filter(b[1..], HasKey(key, k));
        }
      }
      SortUnique(a[1..], b[1..], key);
    }
  }

  /** `out` is the stable sort of `s` if and only if it is sorted and keeps each key class in order. */
  lemma SortCharacterized<T>(s: seq<T>, out: seq<T>, key: T -> int)
    ensures out == StableSort(s, key) <==>
            SortedBy(out, key) && forall k :: Filter(out, HasKey(key, k)) == Filter(s, HasKey(key, k))
  {
    SortSorts(s, key);
    forall k ensures Filter(StableSort(s, key), HasKey(key, k)) == Filter(s, HasKey(key, k)) {
      SortStable(s, key, k);
    }
    if SortedBy(out, key) && forall k :: Filter(out, HasKey(key, k)) == Filter(s, HasKey(key, k)) {
      SortUnique(out, StableSort(s, key), key);
    }
  }

  lemma {:induction false} InsertMap<T, U>(x: T, s: seq<T>, key: T -> int, f: T -> U, keyU: U -> int)
    requires keyU(f(x)) == key(x) && forall y | y in s :: keyU(f(y)) == key(y)
    ensures Map(Insert(x, s, key), f) == Insert(f(x), Map(s, f), keyU)
  {
    if s == [] || key(x) <= key(s[0]) {
      assert ([x] + s)[1..] == s;
    } else {
      InsertMap(x, s[1..], key, f, keyU);
      assert Map(s, f)[1..] == Map(s[1..], f);
    }
  }

  /** Sorting commutes with a projection that keeps the key. */
  lemma {:induction false} SortMap<T, U>(s: seq<T>, key: T -> int, f: T -> U, keyU: U -> int)
    requires forall y | y in s :: keyU(f(y)) == key(y)
    ensures Map(StableSort(s, key), f) == StableSort(Map(s, f), keyU)
  {
    if s == [] {
    } else {
      SortMap(s[1..], key, f, keyU);
      SortSorts(s[1..], key);
      forall y | y in StableSort(s[1..], key) ensures y in s[1..] {
        assert y in multiset(StableSort(s[1..], key));
      }
      InsertMap(s[0], StableSort(s[1..], key), key, f, keyU);
      assert Map(s, f)[1..] == Map(s[1..], f);
    }
  }
}
