/** Redis sorted sets: a map from member to score, read in (score, member) order. */
module SortedSets {
  import opened Sequences

  datatype ZEntry = ZEntry(member: string, score: int)

  /** Lexicographic order on members. */
  predicate LexLess(a: string, b: string) {
    b != [] && (a == [] || a[0] < b[0] || (a[0] == b[0] && LexLess(a[1..], b[1..])))
  }

  lemma {:induction false} LexTotal(a: string, b: string)
    ensures LexLess(a, b) || LexLess(b, a) || a == b
    ensures !(LexLess(a, b) && LexLess(b, a))
    ensures LexLess(a, b) ==> a != b
  {
    if a != [] && b != [] {
      LexTotal(a[1..], b[1..]);
      if a[0] == b[0] && a[1..] == b[1..] {
        assert a == [a[0]] + a[1..] == b;
      }
    }
  }

  lemma {:induction false} LexTransitive(a: string, b: string, c: string)
    requires LexLess(a, b) && LexLess(b, c)
    ensures LexLess(a, c)
  {
    if a != [] && b != [] && a[0] == b[0] && b[0] == c[0] {
      LexTransitive(a[1..], b[1..], c[1..]);
    }
  }

  /** `a` comes first: at the first place where they differ it has the smaller character, or it ends there. */
  ghost predicate DiffersAt(a: string, b: string, i: int) {
    && 0 <= i <= |a| && i < |b| && a[..i] == b[..i]
    && (i == |a| || a[i] < b[i])
  }

  lemma {:induction false} LexLessMeaning(a: string, b: string)
    ensures LexLess(a, b) <==> exists i :: DiffersAt(a, b, i)
  {
    if a == [] || b == [] || a[0] != b[0] {
      assert b != [] && (a == [] || a[0] < b[0]) ==> DiffersAt(a, b, 0);
    } else {
      LexLessMeaning(a[1..], b[1..]);
      if i :| DiffersAt(a[1..], b[1..], i) {
        DiffersLater(a, b, i);
      }
      if i :| DiffersAt(a, b, i) {
        assert i > 0;
        DiffersLater(a, b, i - 1);
      }
    }
  }

  lemma DiffersLater(a: string, b: string, i: int)
    requires a != [] && b != [] && a[0] == b[0] && 0 <= i
    ensures DiffersAt(a, b, i + 1) <==> DiffersAt(a[1..], b[1..], i)
  {
    if i + 1 <= |a| && i + 1 < |b| {
      assert a[..i + 1] == [a[0]] + a[1..][..i];
      assert b[..i + 1] == [b[0]] + b[1..][..i];
    }
  }

  predicate Before(a: ZEntry, b: ZEntry) {
    a.score < b.score || (a.score == b.score && LexLess(a.member, b.member))
  }

  lemma BeforeTotal(a: ZEntry, b: ZEntry)
    ensures Before(a, b) || Before(b, a) || a == b
    ensures !(Before(a, b) && Before(b, a))
    ensures !Before(a, a)
  {
    LexTotal(a.member, b.member);
    LexTotal(a.member, a.member);
  }

  lemma BeforeTransitive(a: ZEntry, b: ZEntry, c: ZEntry)
    requires Before(a, b) && Before(b, c)
    ensures Before(a, c)
  {
    if a.score == b.score == c.score {
      LexTransitive(a.member, b.member, c.member);
    }
  }

  predicate IsFirst(m: map<string, int>, e: ZEntry) {
    e.member in m && m[e.member] == e.score
    && forall k | k in m && k != e.member :: Before(e, ZEntry(k, m[k]))
  }

  lemma {:induction false} FirstExists(m: map<string, int>) returns (e: ZEntry)
    requires m != map[]
    ensures IsFirst(m, e)
    decreases |m|
  {
    var k :| k in m;
    var rest := m - {k};
    e := ZEntry(k, m[k]);
    assert rest.Keys == m.Keys - {k};
    assert m.Keys == rest.Keys + {k};
    if rest != map[] {
      var f := FirstExists(rest);
      BeforeTotal(e, f);
      if Before(f, e) {
        forall k' | k' in m && k' != f.member ensures Before(f, ZEntry(k', m[k'])) {
          assert k' != k ==> k' in rest;
        }
        e := f;
      } else {
        forall k' | k' in m && k' != k ensures Before(e, ZEntry(k', m[k'])) {
          assert k' in rest;
          if k' != f.member {
            BeforeTransitive(e, f, ZEntry(k', m[k']));
          }
        }
      }
    } else {
      assert rest.Keys == {};
      assert m.Keys == {k};
    }
  }

  lemma FirstUnique(m: map<string, int>, e: ZEntry, f: ZEntry)
    requires IsFirst(m, e) && IsFirst(m, f)
    ensures e == f
  {
    BeforeTotal(e, f);
  }

  function First(m: map<string, int>): (e: ZEntry)
    requires m != map[]
    ensures IsFirst(m, e)
  {
    assert exists e :: IsFirst(m, e) by { var e := FirstExists(m); }
    assert forall e, f :: IsFirst(m, e) && IsFirst(m, f) ==> e == f by {
      forall e, f | IsFirst(m, e) && IsFirst(m, f) ensures e == f { FirstUnique(m, e, f); }
    }
    var e: ZEntry :| e.member in m && IsFirst(m, e);
    e
  }

  /** All entries in the order the server yields them. */
  function InOrder(m: map<string, int>): seq<ZEntry>
    decreases |m|
  {
    if m == map[] then [] else
      var e := First(m);
      assert |m - {e.member}| < |m| by { assert (m - {e.member}).Keys == m.Keys - {e.member}; }
      [e] + InOrder(m - {e.member})
  }

  ghost predicate StrictlyOrdered(s: seq<ZEntry>) {
    forall i, j :: 0 <= i < j < |s| ==> Before(s[i], s[j])
  }

  /** `s` lists exactly the entries of `m`. */
  ghost predicate Lists(s: seq<ZEntry>, m: map<string, int>) {
    forall e :: e in s <==> e.member in m && m[e.member] == e.score
  }

  lemma {:induction false} InOrderSorted(m: map<string, int>)
    ensures StrictlyOrdered(InOrder(m)) && Lists(InOrder(m), m)
    decreases |m|
  {
    if m == map[] {
    } else {
      var e := First(m);
      var rest := m - {e.member};
      assert rest.Keys == m.Keys - {e.member};
      InOrderSorted(rest);
      var s := InOrder(rest);
      forall j | 0 <= j < |s| ensures Before(e, s[j]) {
        assert s[j] in s;
      }
    }
  }

  /** The order is total, so the listing is determined by the contents. */
  lemma {:induction false} OrderedUnique(a: seq<ZEntry>, b: seq<ZEntry>)
    requires StrictlyOrdered(a) && StrictlyOrdered(b)
    requires forall e :: e in a <==> e in b
    ensures a == b
  {
    assert forall i :: 0 <= i < |a| ==> a[i] in b;
    assert forall i :: 0 <= i < |b| ==> b[i] in a;
    if a != [] && b != [] {
      assert a[0] in b && b[0] in a;
      BeforeTotal(a[0], b[0]);
      assert a[0] == b[0];
      forall e ensures e in a[1..] <==> e in b[1..] {
        BeforeTotal(e, e);
        assert e in a <==> e in [a[0]] + a[1..];
        assert e in b <==> e in [b[0]] + b[1..];
      }
      OrderedUnique(a[1..], b[1..]);
    }
  }

  lemma {:induction false} FilterOrdered(s: seq<ZEntry>, p: ZEntry -> bool)
    requires StrictlyOrdered(s)
    ensures StrictlyOrdered(Filter(s, p))
  {
    if s == [] {
    } else {
      FilterOrdered(s[1..], p);
      var rest := Filter(s[1..], p);
      forall j | 0 <= j < |rest| ensures Before(s[0], rest[j]) {
        assert rest[j] in rest;
      }
    }
  }

  /** Dropping members from the set drops them from the listing and moves nothing. */
  lemma InOrderSubset(small: map<string, int>, big: map<string, int>, p: ZEntry -> bool)
    requires forall e: ZEntry :: (e.member in small && small[e.member] == e.score)
                            <==> (e.member in big && big[e.member] == e.score && p(e))
    ensures InOrder(small) == Filter(InOrder(big), p)
  {
    InOrderSorted(small);
    InOrderSorted(big);
    FilterOrdered(InOrder(big), p);
    OrderedUnique(InOrder(small), Filter(InOrder(big), p));
  }

  function InRange(lo: int, hi: int): ZEntry -> bool {
    (e: ZEntry) => lo <= e.score <= hi
  }

  /** `zrangebyscore key lo hi withscores`. */
  function RangeByScore(m: map<string, int>, lo: int, hi: int): seq<ZEntry> {
    Filter(InOrder(m), InRange(lo, hi))
  }

  /** `zremrangebyscore key lo hi`. */
  function RemoveRange(m: map<string, int>, lo: int, hi: int): (r: map<string, int>)
    ensures forall k :: k in r <==> k in m && !(lo <= m[k] <= hi)
    ensures forall k | k in r :: r[k] == m[k]
  {
    map k | k in m && !(lo <= m[k] <= hi) :: m[k]
  }

  function Above(bound: int): ZEntry -> bool {
    (e: ZEntry) => e.score > bound
  }

  /** What a purge leaves of a listing. */
  lemma RangeAfterRemoval(m: map<string, int>, bound: int, hi: int)
    ensures RangeByScore(RemoveRange(m, 0, bound), 0, hi) == Filter(RangeByScore(m, 0, hi), Above(bound))
  {
    var spared := (e: ZEntry) => !(0 <= e.score <= bound);
    InOrderSubset(RemoveRange(m, 0, bound), m, spared);
    FilterFilter(InOrder(m), spared, InRange(0, hi));
    FilterAgree(RangeByScore(m, 0, hi), spared, Above(bound));
  }
}
