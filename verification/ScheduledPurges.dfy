/**
 Purging and the schedule. A stale entry is off the board but still takes part in the matching, so
 removing it can free a scheduled trip. When the assignment is left alone, and when the board is.
 */
module ScheduledPurges {
  import opened Models
  import opened Sequences
  import opened SortedSets
  import opened RedisStore
  import opened Matching
  import opened ArrivalsBoard
  import opened BoardLaws
  import opened LiveBoards

  // ----- the entries a purge removes -----

  /** Where a reader of `stopId` found an entry. */
  function PlatformOf(stopId: string, e: LiveEntry): string {
    if IsPlatform(stopId) then stopId else stopId + e.direction
  }

  /** The purge of platform `p` up to `bound` spares the entry. */
  function Spared(q: Query, p: string, bound: int): LiveEntry -> bool {
    SparedAt(q.stopId, p, bound)
  }

  function SparedAt(stopId: string, p: string, bound: int): LiveEntry -> bool {
    (e: LiveEntry) => PlatformOf(stopId, e) == p ==> e.time > bound
  }

  /** At `now`, `after` is `db` with the scores up to `bound` removed from platform `p`. */
  ghost predicate IsPurged(db: Db, after: Db, p: string, bound: int, now: int) {
    && (forall platform ::
          var key := ArrivalsKey(platform);
          Members(after, key, now) ==
          if platform == p then RemoveRange(Members(db, key, now), 0, bound) else Members(db, key, now))
    && (forall k :: GetTrip(after, k, now) == GetTrip(db, k, now))
  }

  /** `r` is the request `q` after platform `p` was purged up to `bound`. */
  ghost predicate AfterPurge(q: Query, r: Query, p: string, bound: int) {
    SameRequest(q, r) && IsPurged(q.db, r.db, p, bound, q.now)
  }

  /** The same request after the purge by a worker whose clock read `workerNow`, executed at `at`. */
  function Purged(q: Query, p: string, workerNow: int, at: int): Query {
    q.(db := Apply(q.db, Purge(q.cfg, p, workerNow), at))
  }

  lemma PurgedIsAfterPurge(q: Query, p: string, workerNow: int, at: int)
    requires at <= q.now
    ensures AfterPurge(q, Purged(q, p, workerNow, at), p, workerNow - q.cfg.windowPast)
  {
    assert RemoveRange(map[], 0, workerNow - q.cfg.windowPast) == map[];
    forall x ensures x != p ==> ArrivalsKey(x) != ArrivalsKey(p) {
      KeysApart(p, x);
    }
    forall x ensures TripKey(x) != ArrivalsKey(p) {
      KeysApart(x, p);
    }
  }

  lemma PlatformAfter(
    db: Db, after: Db, p: string, bound: int, platform: string, horizon: int, now: int, spared: LiveEntry -> bool)
    requires IsPurged(db, after, p, bound, now) && platform != ""
    requires forall e: LiveEntry | e.direction == Letter(platform) :: spared(e) == (platform == p ==> e.time > bound)
    ensures PlatformEntries(after, platform, horizon, now)
      == Filter(PlatformEntries(db, platform, horizon, now), spared)
  {
    var m := Members(db, ArrivalsKey(platform), now);
    if platform == p {
      RangeAfterRemoval(m, bound, horizon);
      FilterMap(RangeByScore(m, 0, horizon), ToEntry(Letter(platform)), spared, Above(bound));
    } else {
      var entries := PlatformEntries(db, platform, horizon, now);
      forall e | e in entries ensures spared(e) {
        var i :| 0 <= i < |entries| && entries[i] == e;
      }
      FilterAll(entries, spared);
    }
  }

  lemma StopAfter(db: Db, after: Db, p: string, bound: int, stopId: string, horizon: int, now: int)
    requires IsPurged(db, after, p, bound, now)
    ensures StopEntries(after, stopId, horizon, now)
         == Filter(StopEntries(db, stopId, horizon, now), SparedAt(stopId, p, bound))
  {
    var spared := SparedAt(stopId, p, bound);
    if IsPlatform(stopId) {
      PlatformAfter(db, after, p, bound, stopId, horizon, now, spared);
    } else {
      var n, s := stopId + "N", stopId + "S";
      assert Letter(n) == "N" && Letter(s) == "S";
      PlatformAfter(db, after, p, bound, n, horizon, now, spared);
      PlatformAfter(db, after, p, bound, s, horizon, now, spared);
      FilterConcat(PlatformEntries(db, n, horizon, now), PlatformEntries(db, s, horizon, now), spared);
    }
  }

  /** A purge drops entries from the reader's list and changes no other. */
  lemma EntriesAfter(q: Query, r: Query, p: string, bound: int)
    requires AfterPurge(q, r, p, bound)
    ensures LiveEntries(r) == Filter(LiveEntries(q), Spared(q, p, bound))
  {
    assert Horizon(q) == Horizon(r);
    StopAfter(q.db, r.db, p, bound, q.stopId, Horizon(q), q.now);
  }

  // ----- the assignment -----

  datatype Assigned = Assigned(entry: LiveEntry, pick: Option<ScheduledTrip>)

  function Zip(es: seq<LiveEntry>, picks: seq<Option<ScheduledTrip>>): (r: seq<Assigned>)
    requires |es| == |picks|
    ensures |r| == |es| && forall i :: 0 <= i < |es| ==> r[i] == Assigned(es[i], picks[i])
  {
    seq(|es|, i requires 0 <= i < |es| => Assigned(es[i], picks[i]))
  }

  function OnEntry(p: LiveEntry -> bool): Assigned -> bool { (a: Assigned) => p(a.entry) }

  /** Each live entry of the request with the scheduled trip it got. */
  ghost function Assignment(q: Query): seq<Assigned> { Zip(LiveEntries(q), LivePicks(q)) }

  function IsFree(taken: set<string>): ScheduledTrip -> bool { (s: ScheduledTrip) => s.tripId !in taken }

  /** The scheduled rows no live entry got, in schedule order. */
  ghost function Unclaimed(q: Query): seq<ScheduledTrip> { Filter(Rows(q), IsFree(TakenBy(q))) }

  /** The purge changes no spared entry's trip and frees no scheduled row. */
  ghost predicate Undisturbed(q: Query, r: Query, p: string, bound: int) {
    Assignment(r) == Filter(Assignment(q), OnEntry(Spared(q, p, bound))) && Unclaimed(r) == Unclaimed(q)
  }

  /** No entry that the purge removes got a scheduled trip. */
  ghost predicate RemovedHoldNothing(q: Query, p: string, bound: int) {
    forall a | a in Assignment(q) && !Spared(q, p, bound)(a.entry) :: a.pick.None?
  }

  lemma ZipPush(es: seq<LiveEntry>, picks: seq<Option<ScheduledTrip>>, e: LiveEntry, pick: Option<ScheduledTrip>)
    requires |es| == |picks|
    ensures Zip(es + [e], picks + [pick]) == Zip(es, picks) + [Assigned(e, pick)]
  {
  }

  lemma ZipFilterPush(es: seq<LiveEntry>, picks: seq<Option<ScheduledTrip>>, e: LiveEntry, pick: Option<ScheduledTrip>,
    kept: LiveEntry -> bool)
    requires |es| == |picks|
    ensures Filter(Zip(es + [e], picks + [pick]), OnEntry(kept))
         == Filter(Zip(es, picks), OnEntry(kept)) + if kept(e) then [Assigned(e, pick)] else []
  {
    ZipPush(es, picks, e, pick);
    FilterConcat(Zip(es, picks), [Assigned(e, pick)], OnEntry(kept));
  }

  lemma FilterPush<T>(s: seq<T>, x: T, p: T -> bool)
    ensures Filter(s + [x], p) == if p(x) then Filter(s, p) + [x] else Filter(s, p)
  {
    FilterConcat(s, [x], p);
    if !p(x) { assert Filter(s, p) + [] == Filter(s, p); }
  }

  lemma PicksPush(rows: seq<ScheduledTrip>, es: seq<LiveEntry>, e: LiveEntry, f: LiveEntry -> Train, window: int)
    ensures var before := Picks(rows, Map(es, f), window);
            var pick := Pick(rows, f(e), Taken(before), window);
            && Picks(rows, Map(es + [e], f), window) == before + [pick]
            && Taken(before + [pick]) == Taken(before) + if pick.Some? then {pick.value.tripId} else {}
  {
    MapPush(es, e, f);
    PicksSnoc(rows, Map(es, f), f(e), window);
    TakenSnoc(Picks(rows, Map(es, f), window), Pick(rows, f(e), Taken(Picks(rows, Map(es, f), window)), window));
  }

  /** What leaving out entries must not change. */
  ghost predicate SameWithout(
    rows: seq<ScheduledTrip>, es: seq<LiveEntry>, f: LiveEntry -> Train, window: int, kept: LiveEntry -> bool)
  {
    var left := Filter(es, kept);
    var before, after := Picks(rows, Map(es, f), window), Picks(rows, Map(left, f), window);
    Zip(left, after) == Filter(Zip(es, before), OnEntry(kept)) && Taken(after) == Taken(before)
  }

  lemma WithoutSnoc(
    rows: seq<ScheduledTrip>, es: seq<LiveEntry>, e: LiveEntry, f: LiveEntry -> Train, window: int,
    kept: LiveEntry -> bool)
    requires SameWithout(rows, es, f, window, kept)
    requires !kept(e) ==> Pick(rows, f(e), Taken(Picks(rows, Map(es, f), window)), window).None?
    ensures SameWithout(rows, es + [e], f, window, kept)
  {
    var left, before := Filter(es, kept), Picks(rows, Map(es, f), window);
    var pick := Pick(rows, f(e), Taken(before), window);
    PicksPush(rows, es, e, f, window);
    FilterPush(es, e, kept);
    ZipFilterPush(es, before, e, pick, kept);
    if kept(e) {
      PicksPush(rows, left, e, f, window);
      ZipPush(left, Picks(rows, Map(left, f), window), e, pick);
    }
  }

  /** Entries that got nothing can be left out: all others get what they got. */
  lemma {:induction false} PicksWithout(
    rows: seq<ScheduledTrip>, es: seq<LiveEntry>, f: LiveEntry -> Train, window: int, kept: LiveEntry -> bool)
    requires forall i | 0 <= i < |es| && !kept(es[i]) :: Picks(rows, Map(es, f), window)[i].None?
    ensures SameWithout(rows, es, f, window, kept)
  {
    if es == [] {
    } else {
      var n := |es| - 1;
      assert es == es[..n] + [es[n]];
      MapPush(es[..n], es[n], f);
      PicksSnoc(rows, Map(es[..n], f), f(es[n]), window);
      PicksWithout(rows, es[..n], f, window, kept);
      WithoutSnoc(rows, es[..n], es[n], f, window, kept);
    }
  }

  lemma TrainsAfter(q: Query, r: Query, p: string, bound: int)
    requires AfterPurge(q, r, p, bound)
    ensures Trains(r) == Map(Filter(LiveEntries(q), Spared(q, p, bound)), TrainOf(q))
    ensures Rows(r) == Rows(q) && LivePicks(r) == Picks(Rows(q), Trains(r), q.cfg.fuzzyWindow)
  {
    EntriesAfter(q, r, p, bound);
    forall e ensures TrainOf(r)(e) == TrainOf(q)(e) { }
  }

  lemma HoldNothingIsUndisturbed(q: Query, r: Query, p: string, bound: int)
    requires AfterPurge(q, r, p, bound) && RemovedHoldNothing(q, p, bound)
    ensures Undisturbed(q, r, p, bound) && TakenBy(r) == TakenBy(q)
  {
    var entries, spared := LiveEntries(q), Spared(q, p, bound);
    forall i | 0 <= i < |entries| && !spared(entries[i])
      ensures Picks(Rows(q), Map(entries, TrainOf(q)), q.cfg.fuzzyWindow)[i].None?
    {
      assert Assignment(q)[i] in Assignment(q);
    }
    PicksWithout(Rows(q), entries, TrainOf(q), q.cfg.fuzzyWindow, spared);
    TrainsAfter(q, r, p, bound);
    EntriesAfter(q, r, p, bound);
  }

  /** When nothing is disturbed, every claimed row is held by a spared entry. */
  lemma HolderIsSpared(q: Query, r: Query, p: string, bound: int, s: ScheduledTrip) returns (k: int)
    requires SameRequest(q, r) && Undisturbed(q, r, p, bound) && s in Rows(q) && s.tripId in TakenBy(q)
    ensures 0 <= k < |LivePicks(q)| && LivePicks(q)[k].Some? && LivePicks(q)[k].value.tripId == s.tripId
    ensures Spared(q, p, bound)(LiveEntries(q)[k])
  {
    assert s !in Unclaimed(q) && Rows(r) == Rows(q);
    assert s.tripId in TakenBy(r);
    var j := HolderOf(LivePicks(r), s.tripId);
    var b := Assignment(r)[j];
    assert b in Filter(Assignment(q), OnEntry(Spared(q, p, bound)));
    k :| 0 <= k < |Assignment(q)| && Assignment(q)[k] == b;
  }

  lemma HolderUnique(q: Query, r: Query, p: string, bound: int, i: int)
    requires SameRequest(q, r) && Undisturbed(q, r, p, bound)
    requires 0 <= i < |LivePicks(q)| && LivePicks(q)[i].Some?
    ensures Spared(q, p, bound)(LiveEntries(q)[i])
  {
    var s := LivePicks(q)[i].value;
    MatchingIsInjective(Rows(q), Trains(q), q.cfg.fuzzyWindow);
    assert s in Rows(q) && s.tripId in TakenBy(q);
    var k := HolderIsSpared(q, r, p, bound, s);
    assert i == k;
  }

  lemma UndisturbedHoldNothing(q: Query, r: Query, p: string, bound: int)
    requires SameRequest(q, r) && Undisturbed(q, r, p, bound)
    ensures RemovedHoldNothing(q, p, bound)
  {
    forall a | a in Assignment(q) && a.pick.Some? ensures Spared(q, p, bound)(a.entry) {
      var i :| 0 <= i < |Assignment(q)| && Assignment(q)[i] == a;
      HolderUnique(q, r, p, bound, i);
    }
  }

  /** A purge leaves every spared entry its trip, and every unclaimed row unclaimed, if and only if no
      entry it removes had got a scheduled trip. */
  lemma UndisturbedIff(q: Query, r: Query, p: string, bound: int)
    requires AfterPurge(q, r, p, bound)
    ensures Undisturbed(q, r, p, bound) <==> RemovedHoldNothing(q, p, bound)
  {
    if RemovedHoldNothing(q, p, bound) { HoldNothingIsUndisturbed(q, r, p, bound); }
    if Undisturbed(q, r, p, bound) { UndisturbedHoldNothing(q, r, p, bound); }
  }

  // ----- what a caller can check -----

  /** The train can be matched with some scheduled trip not in `taken`. */
  ghost predicate InReach(rows: seq<ScheduledTrip>, t: Train, taken: set<string>, window: int) {
    exists id :: id !in taken && Matchable(rows, t, id, window)
  }

  lemma GroupInReach(rows: seq<ScheduledTrip>, t: Train, taken: set<string>, window: int)
    requires t.route != UNKNOWN
    ensures (exists id :: id !in taken && Compatible(rows, t, id, window)) <==>
            exists r :: r in Group(rows, t.route, t.direction) && Eligible(r, t, taken, window)
  {
    if r :| r in Group(rows, t.route, t.direction) && Eligible(r, t, taken, window) {
      assert InGroup(t.route, t.direction)(r) && r in rows;
      assert Compatible(rows, t, r.tripId, window);
    }
    if id :| id !in taken && Compatible(rows, t, id, window) {
      var r :| r in rows && r.tripId == id && r.routeId == t.route && r.direction == t.direction
               && Abs(r.arrival - t.time) < window;
      assert InGroup(t.route, t.direction)(r);
      assert r in Group(rows, t.route, t.direction) && Eligible(r, t, taken, window);
    }
  }

  /** A train gets a scheduled trip exactly when a free one is within its reach. */
  lemma PickInReach(rows: seq<ScheduledTrip>, t: Train, taken: set<string>, window: int)
    ensures Pick(rows, t, taken, window).Some? <==> InReach(rows, t, taken, window)
  {
    var hit := IdHit(rows, t.tripId);
    NearestExists(Group(rows, t.route, t.direction), t, taken, window);
    if t.route != UNKNOWN {
      GroupInReach(rows, t, taken, window);
    }
    if hit.Some? && hit.value.tripId !in taken {
      assert Matchable(rows, t, hit.value.tripId, window);
    }
    if id :| id !in taken && Compatible(rows, t, id, window) {
      assert Matchable(rows, t, id, window);
    }
  }

  /** How many entries are served before those of platform `p`: the north platform's, for a station's south
      platform, and none otherwise. */
  function ServedBefore(q: Query, p: string): (n: nat)
    ensures n <= |LiveEntries(q)|
  {
    if !IsPlatform(q.stopId) && p == q.stopId + "S"
    then |PlatformEntries(q.db, q.stopId + "N", Horizon(q), q.now)| else 0
  }

  /** The scheduled trips that are gone when the entries of platform `p` are served. */
  ghost function TakenBefore(q: Query, p: string): set<string> { Taken(LivePicks(q)[..ServedBefore(q, p)]) }

  ghost predicate Reaches(q: Query, p: string, e: LiveEntry) {
    InReach(Rows(q), TrainOf(q)(e), TakenBefore(q, p), q.cfg.fuzzyWindow)
  }

  /** No listed entry that the purge removes has, when its platform's turn comes, a free scheduled row
      within reach. */
  ghost predicate RemovedReachNothing(q: Query, p: string, bound: int) {
    forall e | e in LiveEntries(q) && !Spared(q, p, bound)(e) :: !Reaches(q, p, e)
  }

  lemma PlatformInOrder(db: Db, p: string, horizon: int, now: int, i: int, j: int)
    requires p != "" && 0 <= i <= j < |PlatformEntries(db, p, horizon, now)|
    ensures var es := PlatformEntries(db, p, horizon, now); es[i].time <= es[j].time && es[i].direction == Letter(p)
  {
    var m := Members(db, ArrivalsKey(p), now);
    InOrderSorted(m);
    FilterOrdered(InOrder(m), InRange(0, horizon));
    var zset := RangeByScore(m, 0, horizon);
    assert i < j ==> Before(zset[i], zset[j]);
  }

  /** Entries of the purged platform, from the first on, up to a removed one are removed. */
  lemma EarlierRemoved(q: Query, p: string, bound: int, j: int, i: int)
    requires 0 <= i < |LiveEntries(q)| && !Spared(q, p, bound)(LiveEntries(q)[i])
    requires ServedBefore(q, p) <= j <= i
    ensures !Spared(q, p, bound)(LiveEntries(q)[j])
  {
    if IsPlatform(q.stopId) {
      PlatformInOrder(q.db, q.stopId, Horizon(q), q.now, j, i);
    } else {
      var n, s := q.stopId + "N", q.stopId + "S";
      var ns := |PlatformEntries(q.db, n, Horizon(q), q.now)|;
      assert Letter(n) == "N" && Letter(s) == "S" && n != s by {
        assert n[|q.stopId|] == 'N' && s[|q.stopId|] == 'S';
      }
      if i < ns {
        PlatformInOrder(q.db, n, Horizon(q), q.now, i, i);
        PlatformInOrder(q.db, n, Horizon(q), q.now, j, i);
      } else {
        PlatformInOrder(q.db, s, Horizon(q), q.now, i - ns, i - ns);
        PlatformInOrder(q.db, s, Horizon(q), q.now, j - ns, i - ns);
      }
    }
  }

  lemma NoneTaken(picks: seq<Option<ScheduledTrip>>, m: nat, n: nat)
    requires m <= n <= |picks| && forall i :: m <= i < n ==> picks[i].None?
    ensures Taken(picks[..n]) == Taken(picks[..m])
  {
    assert forall i | 0 <= i < m :: picks[..n][i] == picks[..m][i];
    forall id ensures id in Taken(picks[..n]) <==> id in Taken(picks[..m]) {
      if id in Taken(picks[..m]) {
        var i :| 0 <= i < m && picks[..m][i].Some? && picks[..m][i].value.tripId == id;
        assert picks[..n][i].Some?;
      }
    }
  }

  /** If the purged platform's entries before a removed one got nothing, it got a trip exactly when one was
      within reach. */
  lemma PickOfRemoved(q: Query, p: string, i: int)
    requires ServedBefore(q, p) <= i < |LiveEntries(q)|
    requires forall j | ServedBefore(q, p) <= j < i :: LivePicks(q)[j].None?
    ensures LivePicks(q)[i].Some? <==> Reaches(q, p, LiveEntries(q)[i])
  {
    NoneTaken(LivePicks(q), ServedBefore(q, p), i);
    PickAt(Rows(q), Trains(q), q.cfg.fuzzyWindow, i);
    PickInReach(Rows(q), Trains(q)[i], TakenBefore(q, p), q.cfg.fuzzyWindow);
  }

  lemma RemovedIndex(q: Query, p: string, bound: int, i: int)
    requires 0 <= i < |LiveEntries(q)| && !Spared(q, p, bound)(LiveEntries(q)[i])
    ensures ServedBefore(q, p) <= i
  {
    var n, s := q.stopId + "N", q.stopId + "S";
    assert n[|q.stopId|] == 'N' && s[|q.stopId|] == 'S';
    if i < ServedBefore(q, p) {
      PlatformInOrder(q.db, n, Horizon(q), q.now, i, i);
      assert false;
    }
  }

  lemma {:induction false} ReachNothingUpTo(q: Query, p: string, bound: int, i: int)
    requires RemovedReachNothing(q, p, bound)
    requires 0 <= i < |LiveEntries(q)| && !Spared(q, p, bound)(LiveEntries(q)[i])
    ensures LivePicks(q)[i].None?
    decreases i
  {
    RemovedIndex(q, p, bound, i);
    forall j | ServedBefore(q, p) <= j < i ensures LivePicks(q)[j].None? {
      EarlierRemoved(q, p, bound, j, i);
      ReachNothingUpTo(q, p, bound, j);
    }
    PickOfRemoved(q, p, i);
    assert LiveEntries(q)[i] in LiveEntries(q);
  }

  lemma ReachNothingHoldNothing(q: Query, p: string, bound: int)
    requires RemovedReachNothing(q, p, bound)
    ensures RemovedHoldNothing(q, p, bound)
  {
    forall a | a in Assignment(q) && !Spared(q, p, bound)(a.entry) ensures a.pick.None? {
      var i :| 0 <= i < |Assignment(q)| && Assignment(q)[i] == a;
      ReachNothingUpTo(q, p, bound, i);
    }
  }

  lemma RemovedHolds(q: Query, p: string, bound: int, i: int)
    requires RemovedHoldNothing(q, p, bound) && 0 <= i < |LiveEntries(q)| && !Spared(q, p, bound)(LiveEntries(q)[i])
    ensures LivePicks(q)[i].None?
  {
    assert Assignment(q)[i] in Assignment(q);
  }

  lemma HoldNothingReachNothing(q: Query, p: string, bound: int, i: int)
    requires RemovedHoldNothing(q, p, bound)
    requires 0 <= i < |LiveEntries(q)| && !Spared(q, p, bound)(LiveEntries(q)[i])
    ensures !Reaches(q, p, LiveEntries(q)[i])
  {
    RemovedIndex(q, p, bound, i);
    forall j | ServedBefore(q, p) <= j <= i ensures LivePicks(q)[j].None? {
      EarlierRemoved(q, p, bound, j, i);
      RemovedHolds(q, p, bound, j);
    }
    PickOfRemoved(q, p, i);
  }

  /** At any stop a purge leaves the assignment alone if and only if no listed entry it removes has a free
      scheduled row within reach when the purged platform's turn comes. At a platform, and for a station's
      north platform, every row is free then. */
  lemma UndisturbedIffOutOfReach(q: Query, r: Query, p: string, bound: int)
    requires AfterPurge(q, r, p, bound)
    ensures Undisturbed(q, r, p, bound) <==> RemovedReachNothing(q, p, bound)
    ensures IsPlatform(q.stopId) || p != q.stopId + "S" ==> TakenBefore(q, p) == {}
  {
    UndisturbedIff(q, r, p, bound);
    if RemovedReachNothing(q, p, bound) {
      ReachNothingHoldNothing(q, p, bound);
    }
    if RemovedHoldNothing(q, p, bound) {
      forall e | e in LiveEntries(q) && !Spared(q, p, bound)(e) ensures !Reaches(q, p, e) {
        var i :| 0 <= i < |LiveEntries(q)| && LiveEntries(q)[i] == e;
        HoldNothingReachNothing(q, p, bound, i);
      }
    }
  }

  // ----- the board -----

  function RowFor(q: Query): Assigned -> Arrival { (a: Assigned) => LiveRow(q, a.entry, a.pick) }

  lemma LivePartRows(q: Query)
    ensures LivePart(q) == Map(Assignment(q), RowFor(q))
  {
  }

  lemma SameRows(q: Query, r: Query, p: string, bound: int, all: seq<Assigned>)
    requires AfterPurge(q, r, p, bound)
    ensures Map(all, RowFor(r)) == Map(all, RowFor(q))
  {
    forall i | 0 <= i < |all| ensures RowFor(r)(all[i]) == RowFor(q)(all[i]) {
      RowAlike(q, r, all[i].entry, all[i].pick);
    }
  }

  /** Entries removed are older than the board shows, so the shown live rows are those of the rest. */
  lemma ShownRows(q: Query, p: string, bound: int, all: seq<Assigned>)
    requires bound < Cutoff(q)
    ensures Filter(Map(Filter(all, OnEntry(Spared(q, p, bound))), RowFor(q)), StillShown(q))
         == Filter(Map(all, RowFor(q)), StillShown(q))
  {
    var spared, recent := OnEntry(Spared(q, p, bound)), OnEntry(Recent(Cutoff(q)));
    FilterMap(Filter(all, spared), RowFor(q), StillShown(q), recent);
    FilterMap(all, RowFor(q), StillShown(q), recent);
    FilterBoth(all, spared, recent, recent);
  }

  lemma SameGhosts(q: Query, r: Query)
    requires SameRequest(q, r) && TakenBy(r) == TakenBy(q)
    ensures GhostPart(r) == GhostPart(q)
  {
    FilterAgree(Rows(q), IsGhost(r, TakenBy(q)), IsGhost(q, TakenBy(q)));
  }

  lemma SameShownLive(q: Query, r: Query, p: string, bound: int)
    requires AfterPurge(q, r, p, bound) && RemovedHoldNothing(q, p, bound) && bound < Cutoff(q)
    ensures Filter(LivePart(r), StillShown(q)) == Filter(LivePart(q), StillShown(q))
  {
    HoldNothingIsUndisturbed(q, r, p, bound);
    LivePartRows(q);
    LivePartRows(r);
    SameRows(q, r, p, bound, Assignment(r));
    ShownRows(q, p, bound, Assignment(q));
  }

  lemma BoardParts(q: Query)
    ensures BoardFor(q) == StableSort(Filter(LivePart(q), StillShown(q)) + Filter(GhostPart(q), StillShown(q)), ByTime)
  {
    FilterConcat(LivePart(q), GhostPart(q), StillShown(q));
  }

  lemma CutAlike(q: Query, r: Query, s: seq<Arrival>)
    requires SameRequest(q, r)
    ensures Filter(s, StillShown(r)) == Filter(s, StillShown(q))
  {
    FilterAgree(s, StillShown(r), StillShown(q));
  }

  /** An undisturbed assignment gives the same board. */
  lemma HoldNothingIsUnseen(q: Query, r: Query, p: string, bound: int)
    requires AfterPurge(q, r, p, bound) && RemovedHoldNothing(q, p, bound) && bound < Cutoff(q)
    ensures BoardFor(r) == BoardFor(q)
  {
    HoldNothingIsUndisturbed(q, r, p, bound);
    SameGhosts(q, r);
    SameShownLive(q, r, p, bound);
    CutAlike(q, r, LivePart(r));
    CutAlike(q, r, GhostPart(r));
    BoardParts(q);
    BoardParts(r);
  }

  /** With the schedule merged, at any stop, a purge is invisible if no listed entry it removes has a free
      scheduled row within reach. */
  lemma ScheduledPurgeIsInvisible(q: Query, p: string, workerNow: int, at: int)
    requires q.cfg.recentlyPassed < q.cfg.windowPast && workerNow <= q.now && at <= q.now
    requires RemovedReachNothing(q, p, workerNow - q.cfg.windowPast)
    ensures PurgeUnseen(q, p, workerNow, at)
  {
    var bound := workerNow - q.cfg.windowPast;
    PurgedIsAfterPurge(q, p, workerNow, at);
    ReachNothingHoldNothing(q, p, bound);
    HoldNothingIsUnseen(q, Purged(q, p, workerNow, at), p, bound);
  }

  // ----- purges that show -----

  /** A row freed by the purge appears as a scheduled train. */
  lemma FreedRowShows(q: Query, r: Query, e: LiveEntry, s: ScheduledTrip)
    requires e in LiveEntries(q) && s in Rows(r) && s.tripId == e.tripId && s.tripId !in TakenBy(r)
    requires !WrongPlatform(r, s) && !TooOld(r, s) && s.arrival >= Cutoff(r)
    ensures BoardFor(r) != BoardFor(q)
  {
    var a := GhostRow(s);
    assert IsGhost(r, TakenBy(r))(s);
    assert a in GhostPart(r) by {
      var kept := Filter(Rows(r), IsGhost(r, TakenBy(r)));
      var i :| 0 <= i < |kept| && kept[i] == s;
      assert GhostPart(r)[i] == a;
    }
    BoardMembers(r, a);
    SeenLiveIsNotGhost(q);
  }

  lemma ListedAmong(db: Db, p: string, horizon: int, now: int, e: LiveEntry)
    requires p != ""
    ensures e in PlatformEntries(db, p, horizon, now) <==>
            Holds(Members(db, ArrivalsKey(p), now), e.tripId, e.time) && 0 <= e.time <= horizon
            && e.direction == Letter(p)
  {
    var m, es := Members(db, ArrivalsKey(p), now), PlatformEntries(db, p, horizon, now);
    var zset, z := RangeByScore(m, 0, horizon), ZEntry(e.tripId, e.time);
    InOrderSorted(m);
    if e in es {
      var i :| 0 <= i < |es| && es[i] == e;
      assert zset[i] in zset;
    }
    if z in zset && e.direction == Letter(p) {
      var i :| 0 <= i < |zset| && zset[i] == z;
      assert es[i] == e;
    }
  }

  lemma ListedOnPlatform(q: Query, e: LiveEntry)
    requires IsPlatform(q.stopId)
    ensures e in LiveEntries(q) <==>
            Holds(Members(q.db, ArrivalsKey(q.stopId), q.now), e.tripId, e.time) && 0 <= e.time <= Horizon(q)
            && e.direction == Letter(q.stopId)
  {
    ListedAmong(q.db, q.stopId, Horizon(q), q.now, e);
  }

  /** Every row shown comes from a listed entry or from a row of the platform. */
  lemma ShownRowOrigin(q: Query, a: Arrival)
    requires a in BoardFor(q)
    ensures a.arrivalTime >= Cutoff(q)
    ensures a.isRealtime ==> exists e :: e in LiveEntries(q) && e.time == a.arrivalTime
    ensures !a.isRealtime ==> exists s :: s in Rows(q) && !WrongPlatform(q, s)
  {
    BoardIsSorted(q);
    if a.isRealtime {
      var i := LiveRowOrigin(q, a);
      assert LiveEntries(q)[i] in LiveEntries(q);
    } else {
      var s := ScheduledRowOrigin(q, a);
    }
  }

  lemma NothingShown(q: Query)
    requires IsPlatform(q.stopId)
    requires forall e | e in LiveEntries(q) :: e.time < Cutoff(q)
    requires forall s | s in Rows(q) :: WrongPlatform(q, s)
    ensures BoardFor(q) == []
  {
    if |BoardFor(q)| > 0 {
      ShownRowOrigin(q, BoardFor(q)[0]);
      assert false;
    }
  }

  /** At the shipped settings, at time 1000: the north platform still lists trip `A`, last seen at time 0,
      and the schedule has one row for it, due at 1000 in the given direction. */
  function StaleTrain(direction: string): Query {
    var rows := [ScheduledTrip("A", "R", None, direction, 1000)];
    Query(DEFAULTS, map[ArrivalsKey("N") := Cell(ZSet(map["A" := 0]), Some(5000))],
          StaticStore((stop: string, ahead: int) => rows, (stop: string) => "", (trip: string) => None),
          "N", 60, true, 1000)
  }

  /** The purge of that platform removes all it lists. */
  lemma StaleTrainPurged(direction: string)
    ensures var q := StaleTrain(direction); var r := Purged(q, "N", 1000, 1000);
            && AfterPurge(q, r, "N", 700) && LiveEntries(r) == []
            && LiveEntry("A", 0, "N") in LiveEntries(q)
            && (forall e | e in LiveEntries(q) :: e.time == 0 && !Spared(q, "N", 700)(e))
  {
    var q := StaleTrain(direction);
    PurgedIsAfterPurge(q, "N", 1000, 1000);
    ListedOnPlatform(q, LiveEntry("A", 0, "N"));
    forall e | e in LiveEntries(q) ensures e.time == 0 && !Spared(q, "N", 700)(e) {
      ListedOnPlatform(q, e);
    }
    FilterNone(LiveEntries(q), Spared(q, "N", 700));
    EntriesAfter(q, Purged(q, "N", 1000, 1000), "N", 700);
  }

  /** The stale train has taken its scheduled trip, which is yet to come; the purge brings the trip back
      to the board. */
  lemma ScheduledPurgeShows() returns (q: Query)
    ensures q.cfg == DEFAULTS && q.useSchedules && !PurgeUnseen(q, q.stopId, q.now, q.now)
  {
    q := StaleTrain("N");
    var r := Purged(q, "N", 1000, 1000);
    StaleTrainPurged("N");
    assert TakenBy(r) == {};
    FreedRowShows(q, r, LiveEntry("A", 0, "N"), Rows(q)[0]);
  }

  /** For one given schedule reach is not enough to be seen: the freed trip may be one the board would not
      list anyway, here for its direction. */
  lemma DisturbedButUnseen() returns (q: Query)
    ensures q.cfg == DEFAULTS && q.useSchedules && PurgeUnseen(q, q.stopId, q.now, q.now)
    ensures !Undisturbed(q, Purged(q, q.stopId, q.now, q.now), q.stopId, q.now - q.cfg.windowPast)
  {
    q := StaleTrain("S");
    var r, e := Purged(q, "N", 1000, 1000), LiveEntry("A", 0, "N");
    StaleTrainPurged("S");
    NothingShown(q);
    NothingShown(r);
    assert Rows(q)[0] in Rows(q);
    IdHitMeaning(Rows(q), "A");
    UndisturbedIffOutOfReach(q, r, "N", 700);
    assert Matchable(Rows(q), TrainOf(q)(e), "A", q.cfg.fuzzyWindow);
    assert Reaches(q, "N", e);
  }

  // ----- purges that no schedule shows -----

  /** The same request over another schedule database. */
  function WithStatics(q: Query, statics: StaticStore): Query { q.(statics := statics) }

  function OwnRow(arrival: int): LiveEntry -> ScheduledTrip {
    (e: LiveEntry) => ScheduledTrip(e.tripId, UNKNOWN, None, e.direction, arrival)
  }

  function OwnRows(q: Query): seq<ScheduledTrip> { Map(LiveEntries(q), OwnRow(Cutoff(q))) }

  /** A schedule with one row for each listed entry, due when the board's look back begins. */
  function OwnSchedule(q: Query): StaticStore {
    var rows := OwnRows(q);
    StaticStore((stop: string, ahead: int) => rows, (stop: string) => "", (trip: string) => None)
  }

  /** The entry's trip is listed on one platform only. */
  ghost predicate ListedOnce(q: Query, e: LiveEntry) {
    forall f | f in LiveEntries(q) && f.tripId == e.tripId :: f == e
  }

  lemma PlatformListsOnce(q: Query, e: LiveEntry)
    requires IsPlatform(q.stopId) && e in LiveEntries(q)
    ensures ListedOnce(q, e)
  {
    forall f | f in LiveEntries(q) && f.tripId == e.tripId ensures f == e {
      ListedOnPlatform(q, e);
      ListedOnPlatform(q, f);
    }
  }

  /** Over rows of unknown route, trains get rows by identifier only. */
  lemma PicksById(rows: seq<ScheduledTrip>, trains: seq<Train>, window: int, i: int)
    requires 0 <= i < |trains| && forall r | r in rows :: r.routeId == UNKNOWN
    requires Occurs(rows, trains[i].tripId)
    ensures var pick := Picks(rows, trains, window)[i]; pick.Some? ==> pick.value.tripId == trains[i].tripId
  {
    var t := trains[i];
    PickAt(rows, trains, window, i);
    IdHitMeaning(rows, t.tripId);
    var taken := Taken(Picks(rows, trains[..i], window));
    if t.route != UNKNOWN {
      FilterNone(rows, InGroup(t.route, t.direction));
      NearestExists([], t, taken, window);
    }
  }

  lemma OwnRowAt(q: Query, e: LiveEntry)
    requires e in LiveEntries(q)
    ensures OwnRow(Cutoff(q))(e) in OwnRows(q) && Occurs(OwnRows(q), e.tripId)
    ensures forall s | s in OwnRows(q) :: s.routeId == UNKNOWN
  {
    var i :| 0 <= i < |LiveEntries(q)| && LiveEntries(q)[i] == e;
    assert OwnRows(q)[i] in OwnRows(q);
    forall s | s in OwnRows(q) ensures s.routeId == UNKNOWN {
      var j :| 0 <= j < |OwnRows(q)| && OwnRows(q)[j] == s;
    }
  }

  lemma PickIsOwn(q: Query, r: Query, p: string, bound: int, j: int)
    requires AfterPurge(q, r, p, bound) && Rows(q) == OwnRows(q) && 0 <= j < |LivePicks(r)|
    ensures var x := LiveEntries(r)[j];
            && x in LiveEntries(q) && Spared(q, p, bound)(x)
            && (LivePicks(r)[j].Some? ==> LivePicks(r)[j].value.tripId == x.tripId)
  {
    EntriesAfter(q, r, p, bound);
    var x := LiveEntries(r)[j];
    assert x in LiveEntries(r);
    OwnRowAt(q, x);
    PicksById(Rows(q), Trains(r), q.cfg.fuzzyWindow, j);
  }

  /** Over that schedule an entry takes at most its own row, so the row of an entry that is gone is free. */
  lemma OwnRowFree(q: Query, r: Query, p: string, bound: int, e: LiveEntry)
    requires AfterPurge(q, r, p, bound) && Rows(q) == OwnRows(q)
    requires ListedOnce(q, e) && !Spared(q, p, bound)(e)
    ensures e.tripId !in TakenBy(r)
  {
    forall j | 0 <= j < |LivePicks(r)| && LivePicks(r)[j].Some? ensures LivePicks(r)[j].value.tripId != e.tripId {
      PickIsOwn(q, r, p, bound, j);
    }
  }

  lemma OwnRowShows(q: Query, r: Query, e: LiveEntry)
    requires SameRequest(q, r) && q.cfg.recentlyPassed < q.cfg.windowPast
    requires e in LiveEntries(q) && OwnRow(Cutoff(q))(e) in Rows(r) && e.tripId !in TakenBy(r)
    ensures BoardFor(r) != BoardFor(q)
  {
    if IsPlatform(q.stopId) { ListedOnPlatform(q, e); }
    FreedRowShows(q, r, e, OwnRow(Cutoff(q))(e));
  }

  lemma OverOwnSchedule(q: Query)
    requires q.useSchedules
    ensures var own := WithStatics(q, OwnSchedule(q));
            LiveEntries(own) == LiveEntries(q) && Rows(own) == OwnRows(own)
  {
    SameEntries(q, WithStatics(q, OwnSchedule(q)));
  }

  lemma RemovalShows(q: Query, r: Query, p: string, bound: int, e: LiveEntry)
    requires AfterPurge(q, r, p, bound) && Rows(q) == OwnRows(q) && q.cfg.recentlyPassed < q.cfg.windowPast
    requires e in LiveEntries(q) && ListedOnce(q, e) && !Spared(q, p, bound)(e)
    ensures BoardFor(r) != BoardFor(q)
  {
    OwnRowFree(q, r, p, bound, e);
    OwnRowAt(q, e);
    OwnRowShows(q, r, e);
  }

  /** No schedule database lets the reader tell the purge. */
  ghost predicate UnseenByEverySchedule(q: Query, p: string, workerNow: int, at: int) {
    forall statics :: PurgeUnseen(WithStatics(q, statics), p, workerNow, at)
  }

  lemma OutOfReachOfAll(q: Query, p: string, workerNow: int, at: int)
    requires q.cfg.recentlyPassed < q.cfg.windowPast && workerNow <= q.now && at <= q.now
    requires forall statics :: RemovedReachNothing(WithStatics(q, statics), p, workerNow - q.cfg.windowPast)
    ensures UnseenByEverySchedule(q, p, workerNow, at)
  {
    forall statics ensures PurgeUnseen(WithStatics(q, statics), p, workerNow, at) {
      ScheduledPurgeIsInvisible(WithStatics(q, statics), p, workerNow, at);
    }
  }

  /** With the schedule merged, a purge is invisible whatever the schedule says if and only if it removes no
      entry the board lists: at a platform, and at a station if the trips it removes are listed on one
      platform only. */
  lemma PurgeUnseenByEverySchedule(q: Query, p: string, workerNow: int, at: int)
    requires q.useSchedules && q.cfg.recentlyPassed < q.cfg.windowPast && workerNow <= q.now && at <= q.now
    requires var bound := workerNow - q.cfg.windowPast;
             IsPlatform(q.stopId) || forall e | e in LiveEntries(q) && !Spared(q, p, bound)(e) :: ListedOnce(q, e)
    ensures UnseenByEverySchedule(q, p, workerNow, at) <==>
            forall e | e in LiveEntries(q) :: Spared(q, p, workerNow - q.cfg.windowPast)(e)
  {
    var bound := workerNow - q.cfg.windowPast;
    if forall e | e in LiveEntries(q) :: Spared(q, p, bound)(e) {
      NothingRemoved(q, p, workerNow, at);
    } else {
      var e :| e in LiveEntries(q) && !Spared(q, p, bound)(e);
      if IsPlatform(q.stopId) { PlatformListsOnce(q, e); }
      SomeScheduleShows(q, p, workerNow, at, e);
    }
  }

  lemma NothingRemoved(q: Query, p: string, workerNow: int, at: int)
    requires q.cfg.recentlyPassed < q.cfg.windowPast && workerNow <= q.now && at <= q.now
    requires forall e | e in LiveEntries(q) :: Spared(q, p, workerNow - q.cfg.windowPast)(e)
    ensures UnseenByEverySchedule(q, p, workerNow, at)
  {
    forall statics ensures RemovedReachNothing(WithStatics(q, statics), p, workerNow - q.cfg.windowPast) {
      SameEntries(q, WithStatics(q, statics));
    }
    OutOfReachOfAll(q, p, workerNow, at);
  }

  lemma SomeScheduleShows(q: Query, p: string, workerNow: int, at: int, e: LiveEntry)
    requires q.useSchedules && q.cfg.recentlyPassed < q.cfg.windowPast && at <= q.now
    requires e in LiveEntries(q) && ListedOnce(q, e) && !Spared(q, p, workerNow - q.cfg.windowPast)(e)
    ensures !PurgeUnseen(WithStatics(q, OwnSchedule(q)), p, workerNow, at)
  {
    var own := WithStatics(q, OwnSchedule(q));
    OverOwnSchedule(q);
    PurgedIsAfterPurge(own, p, workerNow, at);
    RemovalShows(own, Purged(own, p, workerNow, at), p, workerNow - q.cfg.windowPast, e);
  }

  // ----- a trip listed on both platforms of a station -----

  /** A southbound entry of unknown route whose trip is also listed northbound never finds a free row: the
      row its identifier selects is gone by then. */
  lemma SharedTripOutOfReach(q: Query, e: LiveEntry, i: int)
    requires !IsPlatform(q.stopId) && RouteOf(q, e.tripId) == UNKNOWN
    requires 0 <= i < ServedBefore(q, q.stopId + "S") && LiveEntries(q)[i].tripId == e.tripId
    ensures !Reaches(q, q.stopId + "S", e)
  {
    PicksPrefix(q, ServedBefore(q, q.stopId + "S"));
    var north := Trains(q)[..ServedBefore(q, q.stopId + "S")];
    assert north[i].tripId == e.tripId;
    HitOutOfReach(Rows(q), north, TrainOf(q)(e), q.cfg.fuzzyWindow, i);
  }

  lemma PicksPrefix(q: Query, n: nat)
    requires n <= |LiveEntries(q)|
    ensures LivePicks(q)[..n] == Picks(Rows(q), Trains(q)[..n], q.cfg.fuzzyWindow)
  {
    if n < |Trains(q)| {
      PickAt(Rows(q), Trains(q), q.cfg.fuzzyWindow, n);
    } else {
      assert Trains(q)[..n] == Trains(q) && LivePicks(q)[..n] == LivePicks(q);
    }
  }

  /** Once trains have been served, a train of unknown route that shares its identifier with one of them
      finds no free row. */
  lemma HitOutOfReach(rows: seq<ScheduledTrip>, served: seq<Train>, t: Train, window: int, i: int)
    requires 0 <= i < |served| && served[i].tripId == t.tripId && t.route == UNKNOWN
    ensures !InReach(rows, t, Taken(Picks(rows, served, window)), window)
  {
    if IdHit(rows, t.tripId).Some? {
      IdHitIsTaken(rows, served, window, i);
    }
  }

  /** At time 1000 both platforms of station `X` still list trip `A`, last seen at time 0. */
  function SharedTrip(statics: StaticStore): Query {
    Query(DEFAULTS, map[ArrivalsKey("XN") := Cell(ZSet(map["A" := 0]), Some(5000)),
                        ArrivalsKey("XS") := Cell(ZSet(map["A" := 0]), Some(5000))],
          statics, "X", 60, true, 1000)
  }

  lemma SharedTripOn(statics: StaticStore, p: string, e: LiveEntry)
    requires p == "XN" || p == "XS"
    ensures var q := SharedTrip(statics);
            e in PlatformEntries(q.db, p, Horizon(q), q.now) <==> e == LiveEntry("A", 0, Letter(p))
  {
    var q := SharedTrip(statics);
    assert "XN"[1] == 'N' && "XS"[1] == 'S';
    KeysApart("XN", "XS");
    ListedAmong(q.db, p, Horizon(q), q.now, e);
  }

  lemma SharedTripListed(statics: StaticStore)
    ensures var q := SharedTrip(statics);
            && ServedBefore(q, "XS") > 0 && LiveEntry("A", 0, "S") in LiveEntries(q)
            && (forall e | e in LiveEntries(q) :: e.tripId == "A")
  {
    var q := SharedTrip(statics);
    assert q.stopId + "N" == "XN" && q.stopId + "S" == "XS";
    SharedTripOn(statics, "XN", LiveEntry("A", 0, "N"));
    SharedTripOn(statics, "XS", LiveEntry("A", 0, "S"));
    forall e | e in LiveEntries(q) ensures e.tripId == "A" {
      SharedTripOn(statics, "XN", e);
      SharedTripOn(statics, "XS", e);
    }
  }

  lemma SharedTripRoute(statics: StaticStore)
    ensures var q := SharedTrip(statics); RouteOf(q, "A") == UNKNOWN
  {
    KeysApart("A", "XN");
    KeysApart("A", "XS");
  }

  /** At a station the condition on the trips removed is needed: here the purge removes a listed entry, and no
      schedule shows it. */
  lemma SharedTripUnseen(statics: StaticStore)
    ensures var q := SharedTrip(statics);
            && UnseenByEverySchedule(q, "XS", q.now, q.now)
            && exists e :: e in LiveEntries(q) && !Spared(q, "XS", q.now - q.cfg.windowPast)(e)
  {
    var q := SharedTrip(statics);
    SharedTripListed(statics);
    assert q.stopId + "S" == "XS";
    assert !Spared(q, "XS", 700)(LiveEntry("A", 0, "S"));
    forall other ensures RemovedReachNothing(WithStatics(q, other), "XS", 700) {
      var o := WithStatics(q, other);
      assert o == SharedTrip(other);
      SharedTripListed(other);
      SharedTripRoute(other);
      forall e | e in LiveEntries(o) ensures !Reaches(o, "XS", e) {
        assert LiveEntries(o)[0] in LiveEntries(o);
        SharedTripOutOfReach(o, e, 0);
      }
    }
    OutOfReachOfAll(q, "XS", q.now, q.now);
  }
}
