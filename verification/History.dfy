/**
 Whole runs of the store. What a reader finds on a board, or as a trip's metadata, is determined by
 the history of executed batches: who reported what last, and whether a lease ever ran out.
 */
module History {
  import opened Models
  import opened RedisStore
  import opened Hydration

  /** A feed hydrated by a worker whose clock read `now`, executed by the server at `at`. */
  datatype Batch = Batch(feed: Feed, now: int, at: int)
  {
    function Reported(): seq<Report> { Reports(feed.entities, now) }

    function Board(stop: string): map<string, int> { BoardOf(Reported(), stop) }

    predicate Refreshes(stop: string) { stop in Stops(Reported()) }

    function Metadata(trip: string): Option<TripUpdate> { LastUpdate(Updates(feed.entities), trip) }
  }

  function StoreAfter(cfg: Settings, run: seq<Batch>): Db {
    if run == [] then map[] else
      var n := |run| - 1;
      Hydrate(cfg, StoreAfter(cfg, run[..n]), run[n].feed, run[n].now, run[n].at)
  }

  /** Workers read a clock that never shows a negative time, before the server executes their batch;
      the server's clock does not go back; nothing executes after `now`. */
  ghost predicate Clocked(run: seq<Batch>, now: int) {
    && (forall i :: 0 <= i < |run| ==> 0 <= run[i].now <= run[i].at <= now)
    && (forall i, j :: 0 <= i < j < |run| ==> run[i].at <= run[j].at)
  }

  lemma ClockedPrefix(run: seq<Batch>, now: int)
    requires run != [] && Clocked(run, now)
    ensures Clocked(run[..|run| - 1], run[|run| - 1].at) && Clocked(run[..|run| - 1], now)
  {
  }

  lemma {:induction false} RunKeepsSets(cfg: Settings, run: seq<Batch>)
    requires cfg.Sane()
    ensures ArrivalsAreSets(StoreAfter(cfg, run))
  {
    if run == [] {
    } else {
      var n := |run| - 1;
      RunKeepsSets(cfg, run[..n]);
      SetsAfter(cfg, StoreAfter(cfg, run[..n]), run[n].feed, run[n].now, run[n].at);
    }
  }

  // ----- boards -----

  /** When stop `p` is next refreshed after batch `j`, or `now` if it is not. */
  function NextRefresh(run: seq<Batch>, j: int, p: string, now: int): int
    requires 0 <= j < |run|
    decreases |run| - j
  {
    if j + 1 == |run| then now
    else if run[j + 1].Refreshes(p) then run[j + 1].at
    else NextRefresh(run, j + 1, p, now)
  }

  /** Batch `i` holds the last report of trip `k` at stop `p`, and its time is `s`. */
  ghost predicate LastReported(run: seq<Batch>, i: int, p: string, k: string, s: int) {
    && 0 <= i < |run| && k in run[i].Board(p) && run[i].Board(p)[k] == s
    && forall j :: i < j < |run| ==> k !in run[j].Board(p)
  }

  /** No later refresh of `p` found the time `s` older than its window. */
  ghost predicate Unpurged(cfg: Settings, run: seq<Batch>, i: int, p: string, s: int) {
    forall j :: 0 <= i < j < |run| && run[j].Refreshes(p) ==> s > run[j].now - cfg.windowPast
  }

  /** From batch `i` up to `now`, every refresh of `p` was followed by another before its lease ended. */
  ghost predicate NoLapse(cfg: Settings, run: seq<Batch>, i: int, p: string, now: int) {
    forall j :: 0 <= i <= j < |run| && run[j].Refreshes(p) ==> NextRefresh(run, j, p, now) < run[j].at + cfg.gtfsTtl
  }

  /** Batch `i` is the reason that `p` shows trip `k` at time `s`. */
  ghost predicate Explains(cfg: Settings, run: seq<Batch>, i: int, p: string, k: string, s: int, now: int) {
    LastReported(run, i, p, k, s) && Unpurged(cfg, run, i, p, s) && NoLapse(cfg, run, i, p, now)
  }

  predicate Shows(db: Db, p: string, k: string, s: int, now: int) {
    k in Members(db, ArrivalsKey(p), now) && Members(db, ArrivalsKey(p), now)[k] == s
  }

  lemma {:induction false} NextRefreshPrefix(run: seq<Batch>, j: int, p: string, now: int)
    requires 0 <= j < |run| - 1
    ensures var n := |run| - 1;
            NextRefresh(run, j, p, now) == NextRefresh(run[..n], j, p, Till(run[n], p, now))
    decreases |run| - j
  {
    if j + 1 < |run| - 1 {
      NextRefreshPrefix(run, j + 1, p, now);
    } else if !run[j + 1].Refreshes(p) {
      assert NextRefresh(run, j + 1, p, now) == now;
    }
  }

  /** The instant up to which the batches before the last one must explain what `p` shows. */
  function Till(b: Batch, p: string, now: int): int {
    if b.Refreshes(p) then b.at else now
  }

  /** What the last batch demands of an explanation older than itself. */
  predicate Spares(cfg: Settings, b: Batch, p: string, k: string, s: int, now: int) {
    && k !in b.Board(p)
    && (b.Refreshes(p) ==> s > b.now - cfg.windowPast && now < b.at + cfg.gtfsTtl)
  }

  /** An older explanation survives one more batch under exactly these conditions. */
  lemma ExplainsPrefix(cfg: Settings, run: seq<Batch>, i: int, p: string, k: string, s: int, now: int)
    requires 0 <= i < |run| - 1
    ensures var n := |run| - 1;
            Explains(cfg, run, i, p, k, s, now) <==>
              Spares(cfg, run[n], p, k, s, now) && Explains(cfg, run[..n], i, p, k, s, Till(run[n], p, now))
  {
    var n := |run| - 1;
    var b, earlier := run[n], run[..n];
    var till := Till(b, p, now);
    assert forall j :: 0 <= j < n ==> earlier[j] == run[j];
    assert LastReported(run, i, p, k, s) <==> LastReported(earlier, i, p, k, s) && k !in b.Board(p);
    assert Unpurged(cfg, run, i, p, s) <==>
      Unpurged(cfg, earlier, i, p, s) && (b.Refreshes(p) ==> s > b.now - cfg.windowPast);
    assert NextRefresh(run, n, p, now) == now;
    forall j | 0 <= j < n ensures NextRefresh(run, j, p, now) == NextRefresh(earlier, j, p, till) {
      NextRefreshPrefix(run, j, p, now);
    }
    assert NoLapse(cfg, run, i, p, now) <==>
      NoLapse(cfg, earlier, i, p, till) && (b.Refreshes(p) ==> now < b.at + cfg.gtfsTtl);
  }

  lemma ExplainsLast(cfg: Settings, run: seq<Batch>, p: string, k: string, s: int, now: int)
    requires run != []
    ensures var n := |run| - 1; var b := run[n];
            Explains(cfg, run, n, p, k, s, now) <==>
              k in b.Board(p) && b.Board(p)[k] == s && now < b.at + cfg.gtfsTtl
  {
    BoardNonEmpty(run[|run| - 1].Reported(), p);
  }

  /** What one more batch does to what a stop shows. */
  lemma ShowsAfter(cfg: Settings, db: Db, b: Batch, p: string, k: string, s: int, now: int)
    requires cfg.Sane() && ArrivalsAreSets(db) && 0 <= s
    ensures var after := Hydrate(cfg, db, b.feed, b.now, b.at);
            Shows(after, p, k, s, now) <==>
              if !b.Refreshes(p) then Shows(db, p, k, s, now)
              else now < b.at + cfg.gtfsTtl &&
                   if k in b.Board(p) then b.Board(p)[k] == s
                   else Shows(db, p, k, s, b.at) && s > b.now - cfg.windowPast
  {
    BoardAfter(cfg, db, b.feed, b.now, b.at, p);
  }

  lemma ReportedNotNegative(run: seq<Batch>, i: int, p: string, k: string, s: int, now: int)
    requires Clocked(run, now) && LastReported(run, i, p, k, s)
    ensures 0 <= s
  {
    BoardTimes(run[i].feed.entities, run[i].now, p, k);
  }

  /** Every arrivals key is a set on a lease, and no time on it is negative. */
  ghost predicate LeasedSet(db: Db, p: string) {
    var key := ArrivalsKey(p);
    key in db ==>
      && db[key].expiry.Some? && db[key].value.ZSet?
      && forall k | k in db[key].value.members :: 0 <= db[key].value.members[k]
  }

  lemma {:induction false} ScoresNotNegative(cfg: Settings, run: seq<Batch>, p: string, now: int)
    requires cfg.Sane() && Clocked(run, now)
    ensures LeasedSet(StoreAfter(cfg, run), p)
  {
    if run == [] {
    } else {
      var n := |run| - 1;
      var b, before := run[n], StoreAfter(cfg, run[..n]);
      ClockedPrefix(run, now);
      ScoresNotNegative(cfg, run[..n], p, now);
      RunKeepsSets(cfg, run[..n]);
      BoardAfter(cfg, before, b.feed, b.now, b.at, p);
      forall k | k in b.Board(p) ensures 0 <= b.Board(p)[k] {
        BoardTimes(b.feed.entities, b.now, p, k);
      }
      RefreshedNotNegative(cfg, Members(before, ArrivalsKey(p), b.at), b.Board(p), b.now, b.at);
    }
  }

  lemma RefreshedNotNegative(cfg: Settings, m: map<string, int>, board: map<string, int>, now: int, at: int)
    requires (forall k | k in m :: 0 <= m[k]) && (forall k | k in board :: 0 <= board[k])
    ensures var after := Refreshed(cfg, m, board, now, at).value.members; forall k | k in after :: 0 <= after[k]
  {
  }

  /** After any run, stop `p` shows trip `k` at time `s` exactly when the last report of `k` at `p`
      said `s`, no later refresh of `p` found it too old, and no lease of `p` has run out since. */
  lemma {:induction false} StoreRefinesHistory(cfg: Settings, run: seq<Batch>, p: string, k: string, s: int, now: int)
    requires cfg.Sane() && Clocked(run, now)
    ensures Shows(StoreAfter(cfg, run), p, k, s, now) <==> exists i :: Explains(cfg, run, i, p, k, s, now)
  {
    if run == [] {
    } else {
      var n := |run| - 1;
      var b, earlier := run[n], run[..n];
      var till := Till(b, p, now);
      ClockedPrefix(run, now);
      RunKeepsSets(cfg, earlier);
      StoreRefinesHistory(cfg, earlier, p, k, s, till);
      ExplainsLast(cfg, run, p, k, s, now);
      LastOrEarlier(cfg, run, p, k, s, now);
      BoardNonEmpty(b.Reported(), p);
      if 0 <= s {
        ShowsAfter(cfg, StoreAfter(cfg, earlier), b, p, k, s, now);
      } else {
        ScoresNotNegative(cfg, run, p, now);
        forall i | Explains(cfg, run, i, p, k, s, now) ensures false {
          ReportedNotNegative(run, i, p, k, s, now);
        }
      }
    }
  }

  lemma LastOrEarlier(cfg: Settings, run: seq<Batch>, p: string, k: string, s: int, now: int)
    requires run != []
    ensures var n := |run| - 1; var earlier, till := run[..n], Till(run[n], p, now);
            (exists i :: Explains(cfg, run, i, p, k, s, now)) <==>
              || Explains(cfg, run, n, p, k, s, now)
              || (Spares(cfg, run[n], p, k, s, now) && exists i :: Explains(cfg, earlier, i, p, k, s, till))
  {
    var n := |run| - 1;
    var earlier, till := run[..n], Till(run[n], p, now);
    if i :| Explains(cfg, run, i, p, k, s, now) {
      if i < n { ExplainsPrefix(cfg, run, i, p, k, s, now); }
    }
    if i :| Explains(cfg, earlier, i, p, k, s, till) {
      ExplainsPrefix(cfg, run, i, p, k, s, now);
    }
  }

  // ----- when leases hold -----

  /** The lease that batch `j` gave has not ended at `now`, or a later refresh of `p` came before its end. */
  ghost predicate Renewed(cfg: Settings, run: seq<Batch>, j: int, p: string, now: int)
    requires 0 <= j < |run|
  {
    var end := run[j].at + cfg.gtfsTtl;
    now < end || exists j' :: j < j' < |run| && run[j'].Refreshes(p) && run[j'].at < end
  }

  lemma {:induction false} NextRefreshMeaning(run: seq<Batch>, j: int, p: string, now: int, end: int)
    requires 0 <= j < |run| && Clocked(run, now)
    ensures NextRefresh(run, j, p, now) < end <==>
            now < end || exists j' :: j < j' < |run| && run[j'].Refreshes(p) && run[j'].at < end
    decreases |run| - j
  {
    if j + 1 == |run| {
    } else if run[j + 1].Refreshes(p) {
    } else {
      NextRefreshMeaning(run, j + 1, p, now, end);
    }
  }

  /** A stop every one of whose leases is renewed in time shows a trip exactly at its last reported time,
      unless a later refresh found that too old. */
  lemma RenewedStopShowsLastReports(cfg: Settings, run: seq<Batch>, p: string, k: string, s: int, now: int)
    requires cfg.Sane() && Clocked(run, now)
    requires forall j | 0 <= j < |run| && run[j].Refreshes(p) :: Renewed(cfg, run, j, p, now)
    ensures Shows(StoreAfter(cfg, run), p, k, s, now) <==>
            exists i :: LastReported(run, i, p, k, s) && Unpurged(cfg, run, i, p, s)
  {
    StoreRefinesHistory(cfg, run, p, k, s, now);
    forall j | 0 <= j < |run| && run[j].Refreshes(p)
      ensures NextRefresh(run, j, p, now) < run[j].at + cfg.gtfsTtl
    {
      NextRefreshMeaning(run, j, p, now, run[j].at + cfg.gtfsTtl);
    }
    if i :| LastReported(run, i, p, k, s) && Unpurged(cfg, run, i, p, s) {
      assert Explains(cfg, run, i, p, k, s, now);
    }
  }

  function OneStop(p: string, k: string, s: int): Feed {
    Feed([Some(TripUpdate(k, "R", [StopTimeUpdate(p, Some(s), None)]))])
  }

  lemma OneTripReports(p: string, k: string, s: int)
    requires 0 <= s
    ensures TripReports(k, [StopTimeUpdate(p, Some(s), None)], 0) == [Report(p, k, s)]
  {
    var us := [StopTimeUpdate(p, Some(s), None)];
    assert us[..0] == [];
  }

  lemma OneStopReports(p: string, k: string, s: int)
    requires 0 <= s
    ensures Reports(OneStop(p, k, s).entities, 0) == [Report(p, k, s)]
  {
    var es := OneStop(p, k, s).entities;
    assert es[..0] == [];
    OneTripReports(p, k, s);
    assert Reports(es, 0) == Reports([], 0) + TripReports(es[0].value.tripId, es[0].value.stopTimes, 0);
  }

  /** A batch that reports trip `k` at `p` for the moment its lease ends, and a second before that a batch
      of an empty feed. */
  function SilentRun(cfg: Settings, p: string, k: string): seq<Batch> {
    [Batch(OneStop(p, k, cfg.gtfsTtl), 0, 0)] + [Batch(Feed([]), cfg.gtfsTtl - 1, cfg.gtfsTtl - 1)]
  }

  /** Leases belong to stops: batches that keep coming in time do not help a stop they no longer report. */
  lemma SilentStopLapses(cfg: Settings, p: string, k: string)
    requires cfg.Sane() && cfg.gtfsTtl >= 2
    ensures var run, now := SilentRun(cfg, p, k), cfg.gtfsTtl;
            && Clocked(run, now)
            && run[1].at < run[0].at + cfg.gtfsTtl && now < run[1].at + cfg.gtfsTtl
            && LastReported(run, 0, p, k, now) && Unpurged(cfg, run, 0, p, now)
            && !Shows(StoreAfter(cfg, run), p, k, now, now)
  {
    var run, now := SilentRun(cfg, p, k), cfg.gtfsTtl;
    OneStopReports(p, k, now);
    assert Reports([], now - 1) == [];
    StoreRefinesHistory(cfg, run, p, k, now, now);
    forall i ensures !Explains(cfg, run, i, p, k, now, now) {
      if i == 0 {
        assert run[0].Refreshes(p) && NextRefresh(run, 0, p, now) == now;
      }
    }
  }

  // ----- trip metadata -----

  /** Batch `i` is the last one whose feed carries trip `k`. */
  ghost predicate LastMentioned(run: seq<Batch>, i: int, k: string) {
    0 <= i < |run| && run[i].Metadata(k).Some? && forall j :: i < j < |run| ==> run[j].Metadata(k).None?
  }

  /** The last batch whose feed carries trip `k`, or -1. */
  function Latest(run: seq<Batch>, k: string): (i: int)
    ensures -1 <= i < |run|
  {
    if run == [] then -1
    else if run[|run| - 1].Metadata(k).Some? then |run| - 1
    else Latest(run[..|run| - 1], k)
  }

  lemma {:induction false} LatestMeaning(run: seq<Batch>, k: string)
    ensures forall i :: LastMentioned(run, i, k) <==> i == Latest(run, k) && i != -1
  {
    if run != [] && run[|run| - 1].Metadata(k).None? {
      var earlier := run[..|run| - 1];
      LatestMeaning(earlier, k);
      forall i ensures LastMentioned(run, i, k) <==> LastMentioned(earlier, i, k) { }
    }
  }

  /** `db` holds at the trip key of `k` what its last batch wrote there, or nothing without one. */
  ghost predicate HoldsLatest(cfg: Settings, db: Db, run: seq<Batch>, k: string) {
    var i := Latest(run, k);
    if i == -1 then TripKey(k) !in db
    else run[i].Metadata(k).Some? && TripKey(k) in db
         && db[TripKey(k)] == Cell(TripDoc(run[i].Metadata(k).value), Some(run[i].at + cfg.tripTtl))
  }

  lemma TripCellStep(cfg: Settings, db: Db, run: seq<Batch>, k: string)
    requires run != [] && HoldsLatest(cfg, db, run[..|run| - 1], k)
    ensures var b := run[|run| - 1]; HoldsLatest(cfg, Hydrate(cfg, db, b.feed, b.now, b.at), run, k)
  {
    var b := run[|run| - 1];
    TripAfter(cfg, db, b.feed, b.now, b.at, k);
  }

  lemma {:induction false} TripCell(cfg: Settings, run: seq<Batch>, k: string)
    ensures HoldsLatest(cfg, StoreAfter(cfg, run), run, k)
  {
    if run == [] {
    } else {
      TripCell(cfg, run[..|run| - 1], k);
      TripCellStep(cfg, StoreAfter(cfg, run[..|run| - 1]), run, k);
    }
  }

  /** The trip key of `k` holds the metadata of the last feed that carried the trip, leased from then. */
  lemma TripKeyRefinesHistory(cfg: Settings, run: seq<Batch>, k: string)
    ensures TripKey(k) in StoreAfter(cfg, run) <==> exists i :: LastMentioned(run, i, k)
    ensures forall i | LastMentioned(run, i, k) ::
              StoreAfter(cfg, run)[TripKey(k)] == Cell(TripDoc(run[i].Metadata(k).value), Some(run[i].at + cfg.tripTtl))
  {
    TripCell(cfg, run, k);
    LatestMeaning(run, k);
    if Latest(run, k) != -1 {
      assert LastMentioned(run, Latest(run, k), k);
    }
  }

  /** `get_kv` finds a trip exactly when the last feed that carried it is less than a lease old. */
  lemma TripVisible(cfg: Settings, run: seq<Batch>, k: string, now: int)
    ensures GetTrip(StoreAfter(cfg, run), k, now).Some? <==>
            exists i :: LastMentioned(run, i, k) && now < run[i].at + cfg.tripTtl
  {
    TripKeyRefinesHistory(cfg, run, k);
  }

  lemma {:induction false} LastMentionExists(run: seq<Batch>, i: int, k: string) returns (j: int)
    requires 0 <= i < |run| && run[i].Metadata(k).Some?
    ensures i <= j && LastMentioned(run, j, k)
  {
    var n := |run| - 1;
    if run[n].Metadata(k).Some? {
      j := n;
    } else {
      j := LastMentionExists(run[..n], i, k);
    }
  }

  /** An entry last written by batch `i` has a trip key that outlives that batch by a full trip lease;
      a reader who sees the entry within the lease finds metadata no older than the entry. */
  lemma MetadataOutlivesArrivals(cfg: Settings, run: seq<Batch>, i: int, p: string, k: string, s: int, now: int)
    requires cfg.Sane() && Clocked(run, now) && Explains(cfg, run, i, p, k, s, now)
    ensures var db := StoreAfter(cfg, run);
            && TripKey(k) in db && db[TripKey(k)].expiry.Some? && db[TripKey(k)].expiry.value >= run[i].at + cfg.tripTtl
            && (now < run[i].at + cfg.tripTtl ==>
                  exists j :: i <= j && LastMentioned(run, j, k) && GetTrip(db, k, now) == run[j].Metadata(k))
  {
    BoardTimes(run[i].feed.entities, run[i].now, p, k);
    var j := LastMentionExists(run, i, k);
    TripKeyRefinesHistory(cfg, run, k);
    assert i < j ==> run[i].at <= run[j].at;
  }
}
