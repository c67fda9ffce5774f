/** Feeds that share no trip can be hydrated in any order. */
module FeedOrder {
  import opened Models
  import opened SortedSets
  import opened RedisStore
  import opened Hydration

  function TripsOf(feed: Feed): set<string> {
    set u | u in Updates(feed.entities) :: u.tripId
  }

  /** No trip appears in two of the feeds; a feed listed twice must carry no trip. */
  ghost predicate Disjoint(feeds: multiset<Feed>) {
    forall f, g | f in feeds && g in feeds && (f != g || feeds[f] >= 2) :: TripsOf(f) !! TripsOf(g)
  }

  /** Every feed of the list in turn, at one and the same time. */
  function HydrateEach(cfg: Settings, db: Db, feeds: seq<Feed>, now: int, at: int): Db
    decreases |feeds|
  {
    if |feeds| == 0 then db
    else HydrateEach(cfg, Hydrate(cfg, db, feeds[0], now, at), feeds[1..], now, at)
  }

  lemma TripsApart(f: Feed, g: Feed, now: int, p: string, k: string)
    requires TripsOf(f) !! TripsOf(g)
    ensures LastUpdate(Updates(f.entities), k).None? || LastUpdate(Updates(g.entities), k).None?
    ensures !(k in BoardOf(Reports(f.entities, now), p) && k in BoardOf(Reports(g.entities, now), p))
  {
    var fu, gu := Updates(f.entities), Updates(g.entities);
    LastUpdateMeaning(fu, k);
    LastUpdateMeaning(gu, k);
    assert LastUpdate(fu, k).Some? ==> k in TripsOf(f);
    assert LastUpdate(gu, k).Some? ==> k in TripsOf(g);
    if k in BoardOf(Reports(f.entities, now), p) { BoardTimes(f.entities, now, p, k); }
    if k in BoardOf(Reports(g.entities, now), p) { BoardTimes(g.entities, now, p, k); }
  }

  predicate NewerThan(m: map<string, int>, bound: int) {
    forall k | k in m :: m[k] > bound
  }

  lemma BoardIsNew(cfg: Settings, es: seq<Option<TripUpdate>>, p: string, now: int)
    requires cfg.Sane()
    ensures NewerThan(BoardOf(Reports(es, now), p), now - cfg.windowPast)
  {
    var b := BoardOf(Reports(es, now), p);
    forall k | k in b ensures b[k] > now - cfg.windowPast {
      BoardTimes(es, now, p, k);
    }
  }

  /** A purge takes nothing from what an equal purge has kept, nor from what is newer. */
  lemma PurgeTwice(m: map<string, int>, b: map<string, int>, bound: int)
    requires NewerThan(b, bound)
    ensures RemoveRange(RemoveRange(m, 0, bound) + b, 0, bound) == RemoveRange(m, 0, bound) + b
  {
  }

  lemma MergesCommute(m: map<string, int>, a: map<string, int>, b: map<string, int>, bound: int)
    requires NewerThan(a, bound) && NewerThan(b, bound) && a.Keys !! b.Keys
    ensures RemoveRange(RemoveRange(m, 0, bound) + a, 0, bound) + b
      == RemoveRange(RemoveRange(m, 0, bound) + b, 0, bound) + a
  {
    PurgeTwice(m, a, bound);
    PurgeTwice(m, b, bound);
    var kept := RemoveRange(m, 0, bound);
    assert kept + a + b == kept + b + a;
  }

  lemma BoardsCommute(cfg: Settings, db: Db, f: Feed, g: Feed, now: int, at: int, p: string)
    requires cfg.Sane() && ArrivalsAreSets(db) && TripsOf(f) !! TripsOf(g)
    ensures SameAt(Hydrate(cfg, Hydrate(cfg, db, f, now, at), g, now, at),
                   Hydrate(cfg, Hydrate(cfg, db, g, now, at), f, now, at), ArrivalsKey(p))
  {
    var key, fr, gr := ArrivalsKey(p), Reports(f.entities, now), Reports(g.entities, now);
    var df, dg := Hydrate(cfg, db, f, now, at), Hydrate(cfg, db, g, now, at);
    SetsAfter(cfg, db, f, now, at);
    SetsAfter(cfg, db, g, now, at);
    BoardAfter(cfg, db, f, now, at, p);
    BoardAfter(cfg, db, g, now, at, p);
    BoardAfter(cfg, df, g, now, at, p);
    BoardAfter(cfg, dg, f, now, at, p);
    if p in Stops(fr) && p in Stops(gr) {
      BothRefresh(cfg, Members(db, key, at), f, g, p, now, at);
    }
  }

  /** The merged boards of two disjoint feeds do not depend on which was written first. */
  lemma BothRefresh(cfg: Settings, m: map<string, int>, f: Feed, g: Feed, p: string, now: int, at: int)
    requires cfg.Sane() && TripsOf(f) !! TripsOf(g)
    ensures var bf, bg := BoardOf(Reports(f.entities, now), p), BoardOf(Reports(g.entities, now), p);
            Refreshed(cfg, Refreshed(cfg, m, bf, now, at).value.members, bg, now, at)
            == Refreshed(cfg, Refreshed(cfg, m, bg, now, at).value.members, bf, now, at)
  {
    var bf, bg := BoardOf(Reports(f.entities, now), p), BoardOf(Reports(g.entities, now), p);
    forall k ensures !(k in bf && k in bg) {
      TripsApart(f, g, now, p, k);
    }
    BoardIsNew(cfg, f.entities, p, now);
    BoardIsNew(cfg, g.entities, p, now);
    MergesCommute(m, bf, bg, now - cfg.windowPast);
  }

  lemma TripsCommute(cfg: Settings, db: Db, f: Feed, g: Feed, now: int, at: int, k: string)
    requires TripsOf(f) !! TripsOf(g)
    ensures SameAt(Hydrate(cfg, Hydrate(cfg, db, f, now, at), g, now, at),
                   Hydrate(cfg, Hydrate(cfg, db, g, now, at), f, now, at), TripKey(k))
  {
    TripAfter(cfg, db, f, now, at, k);
    TripAfter(cfg, db, g, now, at, k);
    TripAfter(cfg, Hydrate(cfg, db, f, now, at), g, now, at, k);
    TripAfter(cfg, Hydrate(cfg, db, g, now, at), f, now, at, k);
    TripsApart(f, g, now, "", k);
  }

  lemma KeyCommutes(cfg: Settings, db: Db, f: Feed, g: Feed, now: int, at: int, key: string)
    requires cfg.Sane() && ArrivalsAreSets(db) && TripsOf(f) !! TripsOf(g)
    ensures SameAt(Hydrate(cfg, Hydrate(cfg, db, f, now, at), g, now, at),
                   Hydrate(cfg, Hydrate(cfg, db, g, now, at), f, now, at), key)
  {
    if k :| key == TripKey(k) {
      TripsCommute(cfg, db, f, g, now, at, k);
    } else if p :| key == ArrivalsKey(p) {
      BoardsCommute(cfg, db, f, g, now, at, p);
    } else {
      OtherAfter(cfg, db, f, now, at, key);
      OtherAfter(cfg, db, g, now, at, key);
      OtherAfter(cfg, Hydrate(cfg, db, f, now, at), g, now, at, key);
      OtherAfter(cfg, Hydrate(cfg, db, g, now, at), f, now, at, key);
    }
  }

  /** Two feeds with no trip in common commute, whatever the sets under the arrivals keys held. */
  lemma HydrateCommutes(cfg: Settings, db: Db, f: Feed, g: Feed, now: int, at: int)
    requires cfg.Sane() && ArrivalsAreSets(db) && TripsOf(f) !! TripsOf(g)
    ensures Hydrate(cfg, Hydrate(cfg, db, f, now, at), g, now, at)
         == Hydrate(cfg, Hydrate(cfg, db, g, now, at), f, now, at)
  {
    var a := Hydrate(cfg, Hydrate(cfg, db, f, now, at), g, now, at);
    var b := Hydrate(cfg, Hydrate(cfg, db, g, now, at), f, now, at);
    forall key ensures SameAt(a, b, key) {
      KeyCommutes(cfg, db, f, g, now, at, key);
    }
    SameEverywhere(a, b);
  }

  lemma SameEverywhere(a: Db, b: Db)
    requires forall key :: SameAt(a, b, key)
    ensures a == b
  {
    assert forall key :: key in a.Keys <==> key in b.Keys by {
      forall key ensures key in a.Keys <==> key in b.Keys { assert SameAt(a, b, key); }
    }
    forall key | key in a ensures a[key] == b[key] { assert SameAt(a, b, key); }
  }

  lemma DisjointRest(feeds: seq<Feed>)
    requires feeds != [] && Disjoint(multiset(feeds))
    ensures Disjoint(multiset(feeds[1..]))
    ensures forall g | g in feeds[1..] :: TripsOf(feeds[0]) !! TripsOf(g)
  {
    assert feeds == [feeds[0]] + feeds[1..];
    assert multiset(feeds) == multiset{feeds[0]} + multiset(feeds[1..]);
    forall g | g in feeds[1..] ensures TripsOf(feeds[0]) !! TripsOf(g) {
      assert g in multiset(feeds[1..]);
      assert feeds[0] in multiset(feeds) && g in multiset(feeds);
    }
  }

  lemma Removal<T>(s: seq<T>, j: nat)
    requires 0 < j < |s|
    ensures s[1..][j - 1] == s[j]
    ensures var rest := s[..j] + s[j + 1..]; rest[0] == s[0] && rest[1..] == s[1..][..j - 1] + s[1..][j..]
  {
  }

  /** A feed may be moved from the front of the list past any others. */
  lemma {:induction false} MoveToFront(cfg: Settings, db: Db, feeds: seq<Feed>, j: nat, now: int, at: int)
    requires cfg.Sane() && ArrivalsAreSets(db) && j < |feeds| && Disjoint(multiset(feeds))
    ensures HydrateEach(cfg, db, feeds, now, at)
         == HydrateEach(cfg, Hydrate(cfg, db, feeds[j], now, at), feeds[..j] + feeds[j + 1..], now, at)
    decreases j
  {
    if j == 0 {
      assert feeds[..0] + feeds[1..] == feeds[1..];
    } else {
      var f := feeds[0];
      var db1 := Hydrate(cfg, db, f, now, at);
      SetsAfter(cfg, db, f, now, at);
      DisjointRest(feeds);
      MoveToFront(cfg, db1, feeds[1..], j - 1, now, at);
      HydrateCommutes(cfg, db, f, feeds[j], now, at);
      Removal(feeds, j);
    }
  }

  /** Hydrating the same feeds at the same time in two orders gives the same database: the same
      sorted sets, the same expiries, the same trip metadata. */
  lemma {:induction false} FeedOrderIrrelevant(
    cfg: Settings, db: Db, feeds: seq<Feed>, permuted: seq<Feed>, now: int, at: int)
    requires cfg.Sane() && ArrivalsAreSets(db)
    requires multiset(feeds) == multiset(permuted) && Disjoint(multiset(feeds))
    ensures HydrateEach(cfg, db, feeds, now, at) == HydrateEach(cfg, db, permuted, now, at)
    decreases |feeds|
  {
    if feeds == [] {
      assert |multiset(permuted)| == 0;
    } else {
      var j, rest := PullOut(feeds, permuted);
      DisjointRest(feeds);
      MoveToFront(cfg, db, permuted, j, now, at);
      SetsAfter(cfg, db, feeds[0], now, at);
      FeedOrderIrrelevant(cfg, Hydrate(cfg, db, feeds[0], now, at), feeds[1..], rest, now, at);
    }
  }

  lemma PullOut(feeds: seq<Feed>, permuted: seq<Feed>) returns (j: nat, rest: seq<Feed>)
    requires feeds != [] && multiset(feeds) == multiset(permuted)
    ensures j < |permuted| && permuted[j] == feeds[0]
    ensures rest == permuted[..j] + permuted[j + 1..] && multiset(rest) == multiset(feeds[1..])
  {
    assert feeds[0] in multiset(permuted);
    j :| 0 <= j < |permuted| && permuted[j] == feeds[0];
    rest := permuted[..j] + permuted[j + 1..];
    assert permuted == permuted[..j] + [permuted[j]] + permuted[j + 1..];
    assert feeds == [feeds[0]] + feeds[1..];
    assert multiset(rest) == multiset(permuted) - multiset{feeds[0]};
    assert multiset(feeds[1..]) == multiset(feeds) - multiset{feeds[0]};
  }
}
