/**
 Boards without the schedule, tied to the store and to its history: what a reader sees is decided by
 the reports of the feeds, and purging old entries from the store never shows.
 */
module LiveBoards {
  import opened Models
  import opened Sequences
  import opened SortedSets
  import opened RedisStore
  import opened Hydration
  import opened History
  import opened Matching
  import opened ArrivalsBoard
  import opened BoardLaws

  // ----- a live-only board is its recent entries, sorted and dressed -----

  function EntryTime(e: LiveEntry): int { e.time }

  function Recent(cutoff: int): LiveEntry -> bool {
    (e: LiveEntry) => e.time >= cutoff
  }

  function Dressed(q: Query): LiveEntry -> Arrival {
    (e: LiveEntry) => LiveRow(q, e, None)
  }

  function Cutoff(q: Query): int { q.now - q.cfg.recentlyPassed }

  lemma {:induction false} NoRowsNoPicks(trains: seq<Train>, window: int)
    ensures forall i | 0 <= i < |trains| :: Picks([], trains, window)[i] == None
  {
    if trains == [] {
    } else {
      var n := |trains| - 1;
      NoRowsNoPicks(trains[..n], window);
      NoRowsNoPick(trains[n], Taken(Picks([], trains[..n], window)), window);
    }
  }

  lemma LiveOnlyUnified(q: Query)
    requires !q.useSchedules
    ensures UnifiedBoard(q) == Map(LiveEntries(q), Dressed(q))
  {
    var entries := LiveEntries(q);
    NoRowsNoPicks(Trains(q), q.cfg.fuzzyWindow);
    var rows := LivePart(q);
    forall i | 0 <= i < |entries| ensures rows[i] == Dressed(q)(entries[i]) {
      assert LivePicks(q)[i] == None;
    }
    assert GhostPart(q) == [];
  }

  function RecentIn(db: Db, stopId: string, cutoff: int, horizon: int, now: int): seq<LiveEntry> {
    Filter(StopEntries(db, stopId, horizon, now), Recent(cutoff))
  }

  function RecentEntries(q: Query): seq<LiveEntry> {
    RecentIn(q.db, q.stopId, Cutoff(q), Horizon(q), q.now)
  }

  function InTimeOrder(q: Query): seq<LiveEntry> {
    StableSort(RecentEntries(q), EntryTime)
  }

  /** A board without the schedule: the recent live entries in time order, one row each. */
  lemma LiveOnlyBoard(q: Query)
    requires !q.useSchedules
    ensures BoardFor(q) == Map(InTimeOrder(q), Dressed(q))
  {
    LiveOnlyUnified(q);
    FilterMap(LiveEntries(q), Dressed(q), StillShown(q), Recent(Cutoff(q)));
    SortMap(Filter(LiveEntries(q), Recent(Cutoff(q))), EntryTime, Dressed(q), ByTime);
  }

  // ----- one trip on one platform -----

  function IsTrip(k: string): Arrival -> bool { (a: Arrival) => a.tripId == k }

  function EntryOf(k: string): LiveEntry -> bool { (e: LiveEntry) => e.tripId == k }

  function ZEntryOf(k: string): ZEntry -> bool { (e: ZEntry) => e.member == k }

  lemma MemberListedOnce(m: map<string, int>, k: string)
    ensures Filter(InOrder(m), ZEntryOf(k)) == if k in m then [ZEntry(k, m[k])] else []
  {
    InOrderSorted(m);
    FilterOrdered(InOrder(m), ZEntryOf(k));
    OrderedUnique(Filter(InOrder(m), ZEntryOf(k)), if k in m then [ZEntry(k, m[k])] else []);
  }

  lemma EntryListedOnce(db: Db, p: string, horizon: int, now: int, k: string)
    requires p != ""
    ensures var m := Members(db, ArrivalsKey(p), now);
            Filter(PlatformEntries(db, p, horizon, now), EntryOf(k)) ==
              if k in m && 0 <= m[k] <= horizon then [LiveEntry(k, m[k], Letter(p))] else []
  {
    var m := Members(db, ArrivalsKey(p), now);
    var zset := RangeByScore(m, 0, horizon);
    FilterMap(zset, ToEntry(Letter(p)), EntryOf(k), ZEntryOf(k));
    FilterFilter(InOrder(m), InRange(0, horizon), ZEntryOf(k));
    MemberListedOnce(m, k);
  }

  predicate Holds(m: map<string, int>, k: string, s: int) { k in m && m[k] == s }

  /** The board of `q` looks at this time: not negative, not past the horizon, not before the cut-off. */
  predicate InWindow(q: Query, s: int) {
    0 <= s <= q.now + 60 * q.lookahead && q.now - q.cfg.recentlyPassed <= s
  }

  /** The row of a trip seen at `s` on the platform asked for, without the schedule. */
  function RowAt(q: Query, k: string, s: int): Arrival
    requires q.stopId != ""
  {
    LiveRow(q, LiveEntry(k, s, Letter(q.stopId)), None)
  }

  /** The rows of a trip on a platform's live board: one row when the store shows the trip there at a
      time inside the board's window, and none otherwise. */
  lemma TripOnPlatform(q: Query, k: string)
    requires !q.useSchedules && IsPlatform(q.stopId)
    ensures var m := Members(q.db, ArrivalsKey(q.stopId), q.now);
            Filter(BoardFor(q), IsTrip(k)) ==
              if k in m && 0 <= m[k] <= q.now + 60 * q.lookahead && q.now - q.cfg.recentlyPassed <= m[k]
              then [RowAt(q, k, m[k])] else []
  {
    EntryListedOnce(q.db, q.stopId, Horizon(q), q.now, k);
    TripRows(q, k);
    var m := Members(q.db, ArrivalsKey(q.stopId), q.now);
    if k in m && 0 <= m[k] <= Horizon(q) {
      FilterOne(LiveEntry(k, m[k], Letter(q.stopId)), Recent(Cutoff(q)));
    }
  }

  lemma TripRows(q: Query, k: string)
    requires !q.useSchedules && |Filter(LiveEntries(q), EntryOf(k))| <= 1
    ensures Filter(BoardFor(q), IsTrip(k))
         == Map(Filter(Filter(LiveEntries(q), EntryOf(k)), Recent(Cutoff(q))), Dressed(q))
  {
    LiveOnlyBoard(q);
    FilterMap(InTimeOrder(q), Dressed(q), IsTrip(k), EntryOf(k));
    TripInOrder(LiveEntries(q), k, Cutoff(q));
  }

  lemma FilterOne<T>(x: T, p: T -> bool)
    ensures Filter([x], p) == if p(x) then [x] else []
  {
  }

  /** Of a trip listed at most once, cutting off and sorting leaves the entry or nothing. */
  lemma TripInOrder(entries: seq<LiveEntry>, k: string, cutoff: int)
    requires |Filter(entries, EntryOf(k))| <= 1
    ensures Filter(StableSort(Filter(entries, Recent(cutoff)), EntryTime), EntryOf(k))
         == Filter(Filter(entries, EntryOf(k)), Recent(cutoff))
  {
    SortFilter(Filter(entries, Recent(cutoff)), EntryTime, EntryOf(k));
    FilterFilter(entries, Recent(cutoff), EntryOf(k));
    SortSorted(Filter(Filter(entries, EntryOf(k)), Recent(cutoff)), EntryTime);
  }

  lemma RowOfTrip(q: Query, k: string, s: int)
    requires !q.useSchedules && IsPlatform(q.stopId)
    ensures var rows := Filter(BoardFor(q), IsTrip(k));
            && (rows != [] && rows[0].arrivalTime == s <==> Shows(q.db, q.stopId, k, s, q.now) && InWindow(q, s))
            && |rows| <= 1
            && (rows != [] ==> rows[0].direction == Letter(q.stopId) && rows[0].status == Live)
  {
    TripOnPlatform(q, k);
  }

  lemma ExplainedShows(cfg: Settings, run: seq<Batch>, p: string, k: string, s: int, now: int)
    requires cfg.Sane() && Clocked(run, now)
    ensures (exists i :: Explains(cfg, run, i, p, k, s, now)) <==> Shows(StoreAfter(cfg, run), p, k, s, now) && 0 <= s
  {
    StoreRefinesHistory(cfg, run, p, k, s, now);
    if i :| Explains(cfg, run, i, p, k, s, now) {
      ReportedNotNegative(run, i, p, k, s, now);
    }
  }

  /** After any run, a platform's live board has a row for trip `k` at time `s` exactly when the history
      explains it and `s` lies in the board's window; the row is then the only one of its trip, on the
      right direction, and the board is sorted. */
  lemma BoardRefinesHistory(cfg: Settings, run: seq<Batch>, q: Query, k: string, s: int)
    requires cfg.Sane() && Clocked(run, q.now) && q.db == StoreAfter(cfg, run)
    requires !q.useSchedules && IsPlatform(q.stopId)
    ensures var rows := Filter(BoardFor(q), IsTrip(k));
            && (rows != [] && rows[0].arrivalTime == s <==>
                 (exists i :: Explains(cfg, run, i, q.stopId, k, s, q.now)) &&
                 q.now - q.cfg.recentlyPassed <= s <= q.now + 60 * q.lookahead)
            && |rows| <= 1
            && (rows != [] ==> rows[0].direction == Letter(q.stopId) && rows[0].status == Live)
    ensures SortedBy(BoardFor(q), ByTime)
  {
    ExplainedShows(cfg, run, q.stopId, k, s, q.now);
    RowOfTrip(q, k, s);
    BoardIsSorted(q);
  }

  /** From one feed to one board: after a batch executed at `at`, whatever the stop's set held before, a
      reader within the lease finds each trip the feed reports at the platform exactly once, at its last
      reported time, if that time is in the board's window; and every other trip exactly if the store
      already showed it in that window and the refresh spared it. */
  lemma FeedToBoard(db: Db, feed: Feed, workerNow: int, at: int, q: Query, k: string)
    requires q.cfg.Sane() && ArrivalsAreSets(db) && 0 <= workerNow <= at <= q.now < at + q.cfg.gtfsTtl
    requires q.db == Hydrate(q.cfg, db, feed, workerNow, at)
    requires !q.useSchedules && IsPlatform(q.stopId) && q.stopId in Stops(Reports(feed.entities, workerNow))
    ensures var board := BoardOf(Reports(feed.entities, workerNow), q.stopId);
            var was := Members(db, ArrivalsKey(q.stopId), at);
            var rows := Filter(BoardFor(q), IsTrip(k));
            if k in board then
              rows == if InWindow(q, board[k]) then [RowAt(q, k, board[k])] else []
            else
              rows == if k in was && InWindow(q, was[k]) && was[k] > workerNow - q.cfg.windowPast
                      then [RowAt(q, k, was[k])] else []
    ensures SortedBy(BoardFor(q), ByTime)
  {
    var board, was := BoardOf(Reports(feed.entities, workerNow), q.stopId), Members(db, ArrivalsKey(q.stopId), at);
    EntryAfter(q.cfg, db, feed, workerNow, at, q.stopId, k, q.now);
    TripOnPlatform(q, k);
    BoardIsSorted(q);
    if k !in board {
      SameInWindow(q, Members(q.db, ArrivalsKey(q.stopId), q.now), was, k, workerNow - q.cfg.windowPast);
    }
  }

  /** Two sets that hold a trip at the same times after `bound` show it alike in the window after it. */
  lemma SameInWindow(q: Query, m: map<string, int>, was: map<string, int>, k: string, bound: int)
    requires forall s | 0 <= s :: Holds(m, k, s) <==> Holds(was, k, s) && s > bound
    ensures (k in m && InWindow(q, m[k])) <==> (k in was && InWindow(q, was[k]) && was[k] > bound)
    ensures k in m && InWindow(q, m[k]) ==> m[k] == was[k]
  {
    assert k in m && 0 <= m[k] ==> Holds(m, k, m[k]);
    assert k in was && 0 <= was[k] ==> Holds(was, k, was[k]);
  }

  /** What a refreshed stop holds of one trip, within the lease. */
  lemma EntryAfter(cfg: Settings, db: Db, feed: Feed, workerNow: int, at: int, p: string, k: string, now: int)
    requires cfg.Sane() && ArrivalsAreSets(db) && now < at + cfg.gtfsTtl && p in Stops(Reports(feed.entities,
      workerNow))
    ensures var board, was := BoardOf(Reports(feed.entities, workerNow), p), Members(db, ArrivalsKey(p), at);
            var m := Members(Hydrate(cfg, db, feed, workerNow, at), ArrivalsKey(p), now);
            && (k in board ==> Holds(m, k, board[k]) && workerNow <= board[k])
            && (k !in board ==>
                  forall s | 0 <= s :: Holds(m, k, s) <==> Holds(was, k, s) && s > workerNow - cfg.windowPast)
  {
    BoardAfter(cfg, db, feed, workerNow, at, p);
    if k in BoardOf(Reports(feed.entities, workerNow), p) {
      BoardTimes(feed.entities, workerNow, p, k);
    }
  }

  // ----- purging -----

  function ZRecent(cutoff: int): ZEntry -> bool {
    (e: ZEntry) => e.score >= cutoff
  }

  /** Two sets that agree on entries from `cutoff` on list those entries alike. */
  lemma SameRecentListing(a: map<string, int>, b: map<string, int>, cutoff: int, horizon: int)
    requires forall k, s | s >= cutoff && 0 <= s :: Holds(a, k, s) <==> Holds(b, k, s)
    ensures Filter(RangeByScore(a, 0, horizon), ZRecent(cutoff)) == Filter(RangeByScore(b, 0, horizon), ZRecent(cutoff))
  {
    InOrderSorted(a);
    InOrderSorted(b);
    FilterOrdered(InOrder(a), InRange(0, horizon));
    FilterOrdered(InOrder(b), InRange(0, horizon));
    var fa := Filter(RangeByScore(a, 0, horizon), ZRecent(cutoff));
    var fb := Filter(RangeByScore(b, 0, horizon), ZRecent(cutoff));
    FilterOrdered(RangeByScore(a, 0, horizon), ZRecent(cutoff));
    FilterOrdered(RangeByScore(b, 0, horizon), ZRecent(cutoff));
    forall e ensures e in fa <==> e in fb {
      assert e in fa <==> Holds(a, e.member, e.score) && 0 <= e.score <= horizon && e.score >= cutoff;
      assert e in fb <==> Holds(b, e.member, e.score) && 0 <= e.score <= horizon && e.score >= cutoff;
    }
    OrderedUnique(fa, fb);
  }

  /** Two stores that show the same recent times and the same trips. */
  ghost predicate Alike(a: Db, b: Db, cutoff: int, now: int) {
    && (forall p, k, s | s >= cutoff && 0 <= s :: Shows(a, p, k, s, now) <==> Shows(b, p, k, s, now))
    && (forall k :: GetTrip(a, k, now) == GetTrip(b, k, now))
  }

  lemma AlikePlatform(a: Db, b: Db, p: string, cutoff: int, horizon: int, now: int)
    requires Alike(a, b, cutoff, now) && p != ""
    ensures Filter(PlatformEntries(a, p, horizon, now), Recent(cutoff))
      == Filter(PlatformEntries(b, p, horizon, now), Recent(cutoff))
  {
    var ma, mb := Members(a, ArrivalsKey(p), now), Members(b, ArrivalsKey(p), now);
    forall k, s | s >= cutoff && 0 <= s ensures Holds(ma, k, s) <==> Holds(mb, k, s) {
      assert Shows(a, p, k, s, now) <==> Shows(b, p, k, s, now);
    }
    SameRecentListing(ma, mb, cutoff, horizon);
    FilterMap(RangeByScore(ma, 0, horizon), ToEntry(Letter(p)), Recent(cutoff), ZRecent(cutoff));
    FilterMap(RangeByScore(mb, 0, horizon), ToEntry(Letter(p)), Recent(cutoff), ZRecent(cutoff));
  }

  lemma AlikeEntries(a: Db, b: Db, stopId: string, cutoff: int, horizon: int, now: int)
    requires Alike(a, b, cutoff, now)
    ensures RecentIn(a, stopId, cutoff, horizon, now) == RecentIn(b, stopId, cutoff, horizon, now)
  {
    if IsPlatform(stopId) {
      AlikePlatform(a, b, stopId, cutoff, horizon, now);
    } else {
      AlikePlatform(a, b, stopId + "N", cutoff, horizon, now);
      AlikePlatform(a, b, stopId + "S", cutoff, horizon, now);
      FilterConcat(PlatformEntries(a, stopId + "N", horizon, now), PlatformEntries(a, stopId + "S", horizon, now),
        Recent(cutoff));
      FilterConcat(PlatformEntries(b, stopId + "N", horizon, now), PlatformEntries(b, stopId + "S", horizon, now),
        Recent(cutoff));
    }
  }

  /** The same request, answered from another store. */
  ghost predicate SameRequest(q: Query, r: Query) {
    q.cfg == r.cfg && q.statics == r.statics && q.stopId == r.stopId && q.lookahead == r.lookahead
    && q.useSchedules == r.useSchedules && q.now == r.now
  }

  lemma RowAlike(q: Query, r: Query, e: LiveEntry, pick: Option<ScheduledTrip>)
    requires SameRequest(q, r) && GetTrip(q.db, e.tripId, q.now) == GetTrip(r.db, e.tripId, q.now)
    ensures LiveRow(q, e, pick) == LiveRow(r, e, pick)
  {
    assert RouteOf(q, e.tripId) == RouteOf(r, e.tripId);
    assert LiveHeadsign(q, e.tripId) == LiveHeadsign(r, e.tripId);
  }

  lemma {:induction false} DressedAlike(q: Query, r: Query, entries: seq<LiveEntry>)
    requires SameRequest(q, r) && forall k :: GetTrip(q.db, k, q.now) == GetTrip(r.db, k, q.now)
    ensures Map(entries, Dressed(q)) == Map(entries, Dressed(r))
  {
    if entries == [] {
    } else {
      RowAlike(q, r, entries[0], None);
      DressedAlike(q, r, entries[1..]);
    }
  }

  lemma SameRecent(q: Query, r: Query)
    requires SameRequest(q, r)
    requires RecentIn(q.db, q.stopId, Cutoff(q), Horizon(q), q.now)
      == RecentIn(r.db, q.stopId, Cutoff(q), Horizon(q), q.now)
    ensures RecentEntries(q) == RecentEntries(r)
  {
    assert Cutoff(q) == Cutoff(r) && Horizon(q) == Horizon(r);
  }

  lemma AlikeOrder(q: Query, r: Query)
    requires !q.useSchedules && SameRequest(q, r) && Alike(q.db, r.db, Cutoff(q), q.now)
    ensures Map(InTimeOrder(q), Dressed(q)) == Map(InTimeOrder(r), Dressed(r))
  {
    AlikeEntries(q.db, r.db, q.stopId, Cutoff(q), Horizon(q), q.now);
    SameRecent(q, r);
    DressedAlike(q, r, InTimeOrder(q));
  }

  /** Stores that agree on recent times and on trips give the same live-only boards. */
  lemma AlikeBoards(q: Query, db: Db)
    requires !q.useSchedules && Alike(q.db, db, Cutoff(q), q.now)
    ensures BoardFor(q) == BoardFor(q.(db := db))
  {
    LiveOnlyBoard(q);
    AlikeOrder(q, q.(db := db));
    LiveOnlyBoard(q.(db := db));
  }

  function Purge(cfg: Settings, p: string, workerNow: int): Command {
    ZRemRangeByScore(ArrivalsKey(p), 0, workerNow - cfg.windowPast)
  }

  /** It is the purge that every refresh of `p` begins with. */
  lemma RefreshPurges(cfg: Settings, p: string, board: map<string, int>, now: int)
    ensures RefreshCommands(cfg, p, board, now)[0] == Purge(cfg, p, now)
    ensures Purge(cfg, p, now) == ZRemRangeByScore("arrivals:" + p, 0, now - cfg.windowPast)
  {
  }

  /** A reader at `q.now` cannot tell whether stop `p` was purged at `at` by a worker whose clock read
      `workerNow`. */
  ghost predicate PurgeUnseen(q: Query, p: string, workerNow: int, at: int) {
    BoardFor(q.(db := Apply(q.db, Purge(q.cfg, p, workerNow), at))) == BoardFor(q)
  }

  /** One purge, at any stop and of any store, is invisible to every later live-only reader. */
  lemma PurgeIsInvisible(q: Query, p: string, workerNow: int, at: int)
    requires q.cfg.recentlyPassed < q.cfg.windowPast && workerNow <= q.now && at <= q.now && !q.useSchedules
    ensures PurgeUnseen(q, p, workerNow, at)
  {
    var after := Apply(q.db, Purge(q.cfg, p, workerNow), at);
    forall p', k, s | s >= Cutoff(q) && 0 <= s
      ensures Shows(after, p', k, s, q.now) <==> Shows(q.db, p', k, s, q.now)
    {
      KeysApart(p, p');
    }
    forall k ensures GetTrip(after, k, q.now) == GetTrip(q.db, k, q.now) {
      KeysApart(k, p);
    }
    AlikeBoards(q, after);
  }

  /** With a purge no deeper than what a board still shows, some reader sees a train disappear. */
  lemma ShallowPurgeShows(cfg: Settings, statics: StaticStore) returns (q: Query)
    requires cfg.windowPast <= cfg.recentlyPassed
    ensures q.cfg == cfg && !q.useSchedules && !PurgeUnseen(q, q.stopId, q.now, q.now)
  {
    var back := cfg.recentlyPassed;
    var now, ahead := if back >= 0 then back else 0, if back >= 0 then 0 else -back;
    var key, s := ArrivalsKey("N"), now - back;
    q := Query(cfg, map[key := Cell(ZSet(map["T" := s]), None)], statics, "N", ahead, false, now);
    var after := Apply(q.db, Purge(cfg, "N", now), now);
    assert Members(q.db, key, now) == map["T" := s];
    assert RemoveRange(map["T" := s], 0, now - cfg.windowPast) == map[];
    assert key !in after;
    PresenceTells(q, after, "T", s);
  }

  lemma PresenceTells(q: Query, after: Db, k: string, s: int)
    requires !q.useSchedules && IsPlatform(q.stopId) && 0 <= s && Cutoff(q) <= s <= Horizon(q)
    requires Holds(Members(q.db, ArrivalsKey(q.stopId), q.now), k, s)
    requires k !in Members(after, ArrivalsKey(q.stopId), q.now)
    ensures BoardFor(q.(db := after)) != BoardFor(q)
  {
    TripOnPlatform(q, k);
    TripOnPlatform(q.(db := after), k);
  }

  /** Purging is invisible to live-only readers exactly when boards look back strictly less far than a
      refresh purges. */
  lemma PurgeIsInvisibleIff(cfg: Settings)
    ensures cfg.recentlyPassed < cfg.windowPast <==>
            forall q: Query, p, workerNow, at | q.cfg == cfg && !q.useSchedules && workerNow <= q.now && at <= q.now ::
              PurgeUnseen(q, p, workerNow, at)
  {
    if cfg.recentlyPassed < cfg.windowPast {
      forall q: Query, p, workerNow, at | q.cfg == cfg && !q.useSchedules && workerNow <= q.now && at <= q.now
        ensures PurgeUnseen(q, p, workerNow, at)
      {
        PurgeIsInvisible(q, p, workerNow, at);
      }
    } else {
      var statics := StaticStore((stop: string, ahead: int) => [], (stop: string) => "", (trip: string) => None);
      var q := ShallowPurgeShows(cfg, statics);
    }
  }

  lemma DepthUnseen(cfg: Settings, deep: Settings, run: seq<Batch>, i: int, p: string, k: string, s: int, now: int)
    requires deep == cfg.(windowPast := deep.windowPast)
    requires cfg.recentlyPassed < cfg.windowPast && deep.recentlyPassed < deep.windowPast
    requires Clocked(run, now) && s >= now - cfg.recentlyPassed
    ensures Explains(cfg, run, i, p, k, s, now) <==> Explains(deep, run, i, p, k, s, now)
  {
    assert Unpurged(cfg, run, i, p, s) && Unpurged(deep, run, i, p, s);
    assert NoLapse(cfg, run, i, p, now) <==> NoLapse(deep, run, i, p, now);
  }

  lemma {:induction false} TripsIgnoreDepth(cfg: Settings, deep: Settings, run: seq<Batch>, k: string, now: int)
    requires deep == cfg.(windowPast := deep.windowPast)
    ensures GetTrip(StoreAfter(cfg, run), k, now) == GetTrip(StoreAfter(deep, run), k, now)
  {
    TripKeyRefinesHistory(cfg, run, k);
    TripKeyRefinesHistory(deep, run, k);
    if i :| LastMentioned(run, i, k) {
    }
  }

  /** Over whole runs the depth of the purge does not matter to live-only readers, as long as it exceeds
      what a board still shows. With a depth beyond the clock nothing is ever purged, so purging is an
      optimisation only. */
  lemma PurgeDepthIsInvisible(cfg: Settings, deep: Settings, run: seq<Batch>, q: Query)
    requires cfg.Sane() && deep == cfg.(windowPast := deep.windowPast)
    requires cfg.recentlyPassed < cfg.windowPast && cfg.recentlyPassed < deep.windowPast
    requires Clocked(run, q.now) && !q.useSchedules && q.cfg.recentlyPassed <= cfg.recentlyPassed
    ensures BoardFor(q.(db := StoreAfter(cfg, run))) == BoardFor(q.(db := StoreAfter(deep, run)))
  {
    var a, b := StoreAfter(cfg, run), StoreAfter(deep, run);
    forall p, k, s | s >= Cutoff(q) && 0 <= s ensures Shows(a, p, k, s, q.now) <==> Shows(b, p, k, s, q.now) {
      StoreRefinesHistory(cfg, run, p, k, s, q.now);
      StoreRefinesHistory(deep, run, p, k, s, q.now);
      forall i ensures Explains(cfg, run, i, p, k, s, q.now) <==> Explains(deep, run, i, p, k, s, q.now) {
        DepthUnseen(cfg, deep, run, i, p, k, s, q.now);
      }
    }
    forall k ensures GetTrip(a, k, q.now) == GetTrip(b, k, q.now) {
      TripsIgnoreDepth(cfg, deep, run, k, q.now);
    }
    AlikeBoards(q.(db := a), b);
  }
}
