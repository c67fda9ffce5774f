/** From one feed to one batch of writes: the fold into per-stop boards and what the batch does. */
module Hydration {
  import opened Models
  import opened Sequences
  import opened SortedSets
  import opened RedisStore

  // ----- what a feed reports -----

  /** Trip `trip` will be at `stop` at `time`. */
  datatype Report = Report(stop: string, trip: string, time: int)

  /** The arrival time when there is one, else the departure time. */
  function BoardTime(u: StopTimeUpdate): Option<int> {
    if u.arrival.Some? then u.arrival else u.departure
  }

  predicate Qualifies(u: StopTimeUpdate, now: int) {
    BoardTime(u).Some? && BoardTime(u).value >= now
  }

  function TripReports(trip: string, us: seq<StopTimeUpdate>, now: int): seq<Report> {
    if us == [] then [] else
      var n := |us| - 1;
      TripReports(trip, us[..n], now)
      + if Qualifies(us[n], now) then [Report(us[n].stopId, trip, BoardTime(us[n]).value)] else []
  }

  function Reports(es: seq<Option<TripUpdate>>, now: int): seq<Report> {
    if es == [] then [] else
      var n := |es| - 1;
      Reports(es[..n], now)
      + if es[n].Some? then TripReports(es[n].value.tripId, es[n].value.stopTimes, now) else []
  }

  function Updates(es: seq<Option<TripUpdate>>): seq<TripUpdate> {
    if es == [] then [] else
      var n := |es| - 1;
      Updates(es[..n]) + if es[n].Some? then [es[n].value] else []
  }

  /** The latest metadata the feed carries for a trip. */
  function LastUpdate(us: seq<TripUpdate>, trip: string): Option<TripUpdate> {
    if us == [] then None
    else if us[|us| - 1].tripId == trip then Some(us[|us| - 1])
    else LastUpdate(us[..|us| - 1], trip)
  }

  /** The stops of the reports, each once, in the order first met. */
  function Stops(rs: seq<Report>): seq<string> {
    if rs == [] then [] else
      var n := |rs| - 1;
      var before := Stops(rs[..n]);
      if rs[n].stop in before then before else before + [rs[n].stop]
  }

  ghost predicate Distinct(ss: seq<string>) {
    forall i, j :: 0 <= i < j < |ss| ==> ss[i] != ss[j]
  }

  /** Some report speaks of `stop`. */
  ghost predicate IsReported(rs: seq<Report>, stop: string) {
    exists r :: r in rs && r.stop == stop
  }

  lemma {:induction false} StopReported(rs: seq<Report>, stop: string)
    ensures stop in Stops(rs) <==> IsReported(rs, stop)
  {
    if rs == [] {
    } else {
      StopReported(rs[..|rs| - 1], stop);
      LastOrBefore(rs);
    }
  }

  lemma {:induction false} StopsDistinct(rs: seq<Report>)
    ensures Distinct(Stops(rs))
  {
    if rs == [] {
    } else {
      StopsDistinct(rs[..|rs| - 1]);
    }
  }

  /** Exactly the stops that are reported, each once. */
  lemma StopsMeaning(rs: seq<Report>)
    ensures forall stop :: stop in Stops(rs) <==> IsReported(rs, stop)
    ensures Distinct(Stops(rs))
  {
    forall stop ensures stop in Stops(rs) <==> IsReported(rs, stop) {
      StopReported(rs, stop);
    }
    StopsDistinct(rs);
  }

  /** The board of a stop: later reports of a trip overwrite earlier ones. */
  function BoardOf(rs: seq<Report>, stop: string): map<string, int> {
    if rs == [] then map[] else
      var n := |rs| - 1;
      if rs[n].stop == stop then BoardOf(rs[..n], stop)[rs[n].trip := rs[n].time] else BoardOf(rs[..n], stop)
  }

  /** Report `i` is the last one about this trip at this stop. */
  ghost predicate IsLast(rs: seq<Report>, i: int, stop: string, trip: string) {
    && 0 <= i < |rs| && rs[i].stop == stop && rs[i].trip == trip
    && forall j :: i < j < |rs| ==> !(rs[j].stop == stop && rs[j].trip == trip)
  }

  /** A board holds the last report of each trip, and no trip without one. */
  lemma {:induction false} BoardHoldsLastReports(rs: seq<Report>, stop: string, trip: string)
    ensures trip in BoardOf(rs, stop) <==> exists i :: IsLast(rs, i, stop, trip)
    ensures forall i :: IsLast(rs, i, stop, trip) ==> BoardOf(rs, stop)[trip] == rs[i].time
  {
    if rs == [] {
    } else {
      var n := |rs| - 1;
      BoardHoldsLastReports(rs[..n], stop, trip);
      if rs[n].stop == stop && rs[n].trip == trip {
        assert IsLast(rs, n, stop, trip);
      } else {
        assert forall i :: IsLast(rs, i, stop, trip) <==> IsLast(rs[..n], i, stop, trip);
      }
    }
  }

  lemma {:induction false} BoardNonEmpty(rs: seq<Report>, stop: string)
    ensures BoardOf(rs, stop) != map[] <==> stop in Stops(rs)
    ensures forall k | k in BoardOf(rs, stop) ::
              exists i :: 0 <= i < |rs| && rs[i] == Report(stop, k, BoardOf(rs, stop)[k])
  {
    if rs == [] {
    } else {
      var n := |rs| - 1;
      BoardNonEmpty(rs[..n], stop);
      if rs[n].stop == stop {
        assert rs[n].trip in BoardOf(rs, stop);
      }
      forall k | k in BoardOf(rs, stop)
        ensures exists i :: 0 <= i < |rs| && rs[i] == Report(stop, k, BoardOf(rs, stop)[k])
      {
        if rs[n].stop == stop && rs[n].trip == k {
          assert rs[n] == Report(stop, k, BoardOf(rs, stop)[k]);
        } else {
          var i :| 0 <= i < n && rs[..n][i] == Report(stop, k, BoardOf(rs[..n], stop)[k]);
          assert rs[i] == Report(stop, k, BoardOf(rs, stop)[k]);
        }
      }
    }
  }

  /** A stop time speaks of `stop` at `time`: by its arrival, or by its departure for want of one. */
  predicate Says(u: StopTimeUpdate, stop: string, time: int) {
    u.stopId == stop && (u.arrival == Some(time) || (u.arrival.None? && u.departure == Some(time)))
  }

  ghost predicate Tells(t: TripUpdate, stop: string, time: int) {
    exists u :: u in t.stopTimes && Says(u, stop, time)
  }

  lemma {:induction false} TripReportsMeaning(trip: string, us: seq<StopTimeUpdate>, now: int, r: Report)
    ensures r in TripReports(trip, us, now) <==>
            r.trip == trip && r.time >= now && exists u :: u in us && Says(u, r.stop, r.time)
  {
    if us == [] {
    } else {
      var n := |us| - 1;
      TripReportsMeaning(trip, us[..n], now, r);
      assert forall u :: u in us <==> u in us[..n] || u == us[n];
      assert r.trip == trip && r.time >= now && Says(us[n], r.stop, r.time) <==>
             Qualifies(us[n], now) && r == Report(us[n].stopId, trip, BoardTime(us[n]).value);
    }
  }

  /** The reports are exactly the stop times, of trip updates present in the feed, that carry a time
      not before `now`. */
  lemma {:induction false} ReportsMeaning(es: seq<Option<TripUpdate>>, now: int, r: Report)
    ensures r in Reports(es, now) <==>
            r.time >= now && exists t :: t in Updates(es) && t.tripId == r.trip && Tells(t, r.stop, r.time)
  {
    if es == [] {
    } else {
      var n := |es| - 1;
      ReportsMeaning(es[..n], now, r);
      if es[n].Some? {
        TripReportsMeaning(es[n].value.tripId, es[n].value.stopTimes, now, r);
      }
      assert forall t :: t in Updates(es) <==> t in Updates(es[..n]) || es[n] == Some(t);
    }
  }

  lemma {:induction false} LastUpdateMeaning(us: seq<TripUpdate>, trip: string)
    ensures LastUpdate(us, trip).Some? <==> exists u :: u in us && u.tripId == trip
    ensures LastUpdate(us, trip).Some? ==> LastUpdate(us, trip).value in us && LastUpdate(us, trip).value.tripId == trip
  {
    if us == [] {
    } else {
      var n := |us| - 1;
      LastUpdateMeaning(us[..n], trip);
      assert us == us[..n] + [us[n]];
    }
  }

  lemma {:induction false} UpdatesMeaning(es: seq<Option<TripUpdate>>, u: TripUpdate)
    ensures u in Updates(es) <==> Some(u) in es
  {
    if es == [] {
    } else {
      UpdatesMeaning(es[..|es| - 1], u);
      LastOrBefore(es);
    }
  }

  // ----- the last word on a trip, in the feed's own order -----

  ghost predicate Carries(e: Option<TripUpdate>, trip: string) { e.Some? && e.value.tripId == trip }

  /** Entity `i` is the last one of the feed to carry the trip. */
  ghost predicate LastCarries(es: seq<Option<TripUpdate>>, i: int, trip: string) {
    0 <= i < |es| && Carries(es[i], trip) && forall j :: i < j < |es| ==> !Carries(es[j], trip)
  }

  lemma LastUpdateSnoc(us: seq<TripUpdate>, u: TripUpdate, trip: string)
    ensures LastUpdate(us + [u], trip) == if u.tripId == trip then Some(u) else LastUpdate(us, trip)
  {
    assert (us + [u])[..|us|] == us;
  }

  /** The metadata written for a trip is that of the last entity to carry it. */
  lemma {:induction false} LastUpdateIsLast(es: seq<Option<TripUpdate>>, trip: string)
    ensures LastUpdate(Updates(es), trip).Some? <==> exists i :: LastCarries(es, i, trip)
    ensures forall i | LastCarries(es, i, trip) :: LastUpdate(Updates(es), trip) == es[i]
  {
    if es == [] {
    } else {
      var n := |es| - 1;
      LastUpdateIsLast(es[..n], trip);
      if es[n].Some? {
        LastUpdateSnoc(Updates(es[..n]), es[n].value, trip);
      } else {
        assert Updates(es) == Updates(es[..n]);
      }
      if Carries(es[n], trip) {
        assert LastCarries(es, n, trip);
      } else {
        forall i ensures LastCarries(es, i, trip) <==> LastCarries(es[..n], i, trip) { }
      }
    }
  }

  /** A stop time puts its trip on the stop's board for `time`. */
  predicate Puts(u: StopTimeUpdate, stop: string, time: int, now: int) { Says(u, stop, time) && time >= now }

  ghost predicate PutsAny(u: StopTimeUpdate, stop: string, now: int) { exists time :: Puts(u, stop, time, now) }

  ghost predicate Silent(us: seq<StopTimeUpdate>, stop: string, now: int) {
    forall j :: 0 <= j < |us| ==> !PutsAny(us[j], stop, now)
  }

  /** Stop time `j` of the trip is its last one for this stop. */
  ghost predicate LastPuts(us: seq<StopTimeUpdate>, j: int, stop: string, time: int, now: int) {
    && 0 <= j < |us| && Puts(us[j], stop, time, now)
    && forall j' :: j < j' < |us| ==> !PutsAny(us[j'], stop, now)
  }

  /** Stop time `j` of entity `i` is the last one in the feed to put the trip on the stop's board, for
      `time`. */
  ghost predicate LastTold(
    es: seq<Option<TripUpdate>>, i: int, j: int, stop: string, trip: string, time: int, now: int)
  {
    && 0 <= i < |es| && Carries(es[i], trip) && LastPuts(es[i].value.stopTimes, j, stop, time, now)
    && forall i' :: i < i' < |es| && Carries(es[i'], trip) ==> Silent(es[i'].value.stopTimes, stop, now)
  }

  lemma {:induction false} BoardOfConcat(a: seq<Report>, b: seq<Report>, stop: string)
    ensures BoardOf(a + b, stop) == BoardOf(a, stop) + BoardOf(b, stop)
  {
    if b == [] {
      assert a + b == a;
    } else {
      var n := |b| - 1;
      assert (a + b)[..|a + b| - 1] == a + b[..n];
      BoardOfConcat(a, b[..n], stop);
    }
  }

  lemma OneReport(r: Report, stop: string)
    ensures BoardOf([r], stop) == if r.stop == stop then map[r.trip := r.time] else map[]
  {
    assert [r][..0] == [];
  }

  lemma OnePuts(u: StopTimeUpdate, trip: string, stop: string, now: int)
    ensures var rs := if Qualifies(u, now) then [Report(u.stopId, trip, BoardTime(u).value)] else [];
            var board := BoardOf(rs, stop);
            && (forall time | Puts(u, stop, time, now) :: board == map[trip := time])
            && (!PutsAny(u, stop, now) ==> board == map[])
  {
    if Qualifies(u, now) {
      OneReport(Report(u.stopId, trip, BoardTime(u).value), stop);
      assert u.stopId == stop ==> Puts(u, stop, BoardTime(u).value, now);
    }
  }

  /** The board that one trip's stop times make. */
  ghost predicate IsTripBoard(
    board: map<string, int>, trip: string, us: seq<StopTimeUpdate>, stop: string, now: int)
  {
    && (forall j, time :: LastPuts(us, j, stop, time, now) ==> board == map[trip := time])
    && (Silent(us, stop, now) ==> board == map[])
    && (Silent(us, stop, now) || exists j, time :: LastPuts(us, j, stop, time, now))
  }

  lemma TripBoardStep(
    before: map<string, int>, one: map<string, int>, trip: string, us: seq<StopTimeUpdate>, stop: string, now: int)
    requires us != []
    requires var n := |us| - 1;
             && IsTripBoard(before, trip, us[..n], stop, now)
             && (forall time | Puts(us[n], stop, time, now) :: one == map[trip := time])
             && (!PutsAny(us[n], stop, now) ==> one == map[])
    ensures IsTripBoard(before + one, trip, us, stop, now)
  {
    var n := |us| - 1;
    assert forall j :: 0 <= j < n ==> us[j] == us[..n][j];
    if PutsAny(us[n], stop, now) {
      var time :| Puts(us[n], stop, time, now);
      assert LastPuts(us, n, stop, time, now);
      assert Silent(us[..n], stop, now) ==> before == map[];
      forall j, time' | LastPuts(us, j, stop, time', now) ensures before + one == map[trip := time'] {
        assert j == n;
        assert forall k :: k in before ==> k == trip;
      }
    } else {
      assert before + one == before;
      forall j, time ensures LastPuts(us, j, stop, time, now) <==> LastPuts(us[..n], j, stop, time, now) { }
      assert Silent(us, stop, now) <==> Silent(us[..n], stop, now);
      if j, time :| LastPuts(us[..n], j, stop, time, now) {
        assert LastPuts(us, j, stop, time, now);
      }
    }
  }

  lemma {:induction false} TripBoard(trip: string, us: seq<StopTimeUpdate>, stop: string, now: int)
    ensures IsTripBoard(BoardOf(TripReports(trip, us, now), stop), trip, us, stop, now)
  {
    if us == [] {
    } else {
      var n := |us| - 1;
      var last := if Qualifies(us[n], now) then [Report(us[n].stopId, trip, BoardTime(us[n]).value)] else [];
      TripBoard(trip, us[..n], stop, now);
      OnePuts(us[n], trip, stop, now);
      BoardOfConcat(TripReports(trip, us[..n], now), last, stop);
      TripBoardStep(BoardOf(TripReports(trip, us[..n], now), stop), BoardOf(last, stop), trip, us, stop, now);
    }
  }

  /** The board's entry for the trip is what the feed last tells. */
  ghost predicate IsFeedBoard(
    board: map<string, int>, es: seq<Option<TripUpdate>>, stop: string, trip: string, now: int)
  {
    && (forall i, j, time :: LastTold(es, i, j, stop, trip, time, now) ==> trip in board && board[trip] == time)
    && (trip in board ==> exists i, j :: LastTold(es, i, j, stop, trip, board[trip], now))
  }

  lemma FeedBoardSkips(
    before: map<string, int>, after: map<string, int>, es: seq<Option<TripUpdate>>, stop: string, trip: string,
      now: int)
    requires es != [] && IsFeedBoard(before, es[..|es| - 1], stop, trip, now)
    requires Carries(es[|es| - 1], trip) ==> Silent(es[|es| - 1].value.stopTimes, stop, now)
    requires trip in after <==> trip in before
    requires trip in after ==> after[trip] == before[trip]
    ensures IsFeedBoard(after, es, stop, trip, now)
  {
    var n := |es| - 1;
    forall i, j, time ensures LastTold(es, i, j, stop, trip, time, now) <==> LastTold(es[..n], i, j, stop, trip,
      time, now) {
      assert forall i' :: 0 <= i' < n ==> es[i'] == es[..n][i'];
    }
    if trip in before {
      var i, j :| LastTold(es[..n], i, j, stop, trip, before[trip], now);
      assert LastTold(es, i, j, stop, trip, after[trip], now);
    }
  }

  lemma FeedBoardTells(
    after: map<string, int>, es: seq<Option<TripUpdate>>, stop: string, trip: string, time: int, now: int, j: int)
    requires es != [] && Carries(es[|es| - 1], trip) && LastPuts(es[|es| - 1].value.stopTimes, j, stop, time, now)
    requires trip in after && after[trip] == time
    ensures IsFeedBoard(after, es, stop, trip, now)
  {
    var n := |es| - 1;
    assert LastTold(es, n, j, stop, trip, time, now);
    forall i', j', time' | LastTold(es, i', j', stop, trip, time', now) ensures time' == time {
      assert PutsAny(es[n].value.stopTimes[j], stop, now);
      assert i' == n;
      assert PutsAny(es[n].value.stopTimes[j'], stop, now);
      assert j' == j;
    }
  }

  /** The boards of a feed, in the feed's own terms: a stop gets a trip at the last time that the feed puts
      it there for, entity by entity and stop time by stop time. */
  lemma {:induction false} FeedBoards(es: seq<Option<TripUpdate>>, stop: string, trip: string, now: int)
    ensures IsFeedBoard(BoardOf(Reports(es, now), stop), es, stop, trip, now)
  {
    if es == [] {
    } else {
      var n := |es| - 1;
      var before, after := BoardOf(Reports(es[..n], now), stop), BoardOf(Reports(es, now), stop);
      FeedBoards(es[..n], stop, trip, now);
      if es[n].Some? {
        var u := es[n].value;
        var own := BoardOf(TripReports(u.tripId, u.stopTimes, now), stop);
        TripBoard(u.tripId, u.stopTimes, stop, now);
        BoardOfConcat(Reports(es[..n], now), TripReports(u.tripId, u.stopTimes, now), stop);
        assert after == before + own;
        if Carries(es[n], trip) && !Silent(u.stopTimes, stop, now) {
          var j, time :| LastPuts(u.stopTimes, j, stop, time, now);
          FeedBoardTells(after, es, stop, trip, time, now, j);
        } else {
          FeedBoardSkips(before, after, es, stop, trip, now);
        }
      } else {
        assert Reports(es, now) == Reports(es[..n], now);
        FeedBoardSkips(before, after, es, stop, trip, now);
      }
    }
  }

  /** The times on a board are not in the past, and the feed carries metadata for every trip on it. */
  lemma BoardTimes(es: seq<Option<TripUpdate>>, now: int, stop: string, trip: string)
    requires trip in BoardOf(Reports(es, now), stop)
    ensures BoardOf(Reports(es, now), stop)[trip] >= now
    ensures LastUpdate(Updates(es), trip).Some?
  {
    var rs := Reports(es, now);
    BoardNonEmpty(rs, stop);
    var i :| 0 <= i < |rs| && rs[i] == Report(stop, trip, BoardOf(rs, stop)[trip]);
    ReportsMeaning(es, now, rs[i]);
    LastUpdateMeaning(Updates(es), trip);
  }

  // ----- one more loop iteration -----

  lemma TripReportsSnoc(trip: string, us: seq<StopTimeUpdate>, i: nat, now: int)
    requires i < |us|
    ensures TripReports(trip, us[..i + 1], now) == TripReports(trip, us[..i], now)
            + if Qualifies(us[i], now) then [Report(us[i].stopId, trip, BoardTime(us[i]).value)] else []
  {
    assert us[..i + 1][..i] == us[..i];
  }

  lemma EntitySnoc(es: seq<Option<TripUpdate>>, i: nat, now: int)
    requires i < |es|
    ensures es[i].None? ==>
              Reports(es[..i + 1], now) == Reports(es[..i], now) && Updates(es[..i + 1]) == Updates(es[..i])
    ensures es[i].Some? ==>
              var u := es[i].value;
              && Reports(es[..i + 1], now) == Reports(es[..i], now) + TripReports(u.tripId, u.stopTimes, now)
              && Updates(es[..i + 1]) == Updates(es[..i]) + [u]
  {
    assert es[..i + 1][..i] == es[..i];
  }

  // ----- the batch -----

  function TripCommand(cfg: Settings, u: TripUpdate): Command {
    Set(TripKey(u.tripId), TripDoc(u), Some(cfg.tripTtl))
  }

  function TripCommands(cfg: Settings, us: seq<TripUpdate>): seq<Command> {
    if us == [] then [] else TripCommands(cfg, us[..|us| - 1]) + [TripCommand(cfg, us[|us| - 1])]
  }

  lemma TripCommandsSnoc(cfg: Settings, us: seq<TripUpdate>, u: TripUpdate)
    ensures TripCommands(cfg, us + [u]) == TripCommands(cfg, us) + [TripCommand(cfg, u)]
  {
    assert (us + [u])[..|us|] == us;
  }

  function RefreshCommands(cfg: Settings, stop: string, board: map<string, int>, now: int): seq<Command> {
    SyncCommands(ArrivalsKey(stop), board, now - cfg.windowPast, cfg.gtfsTtl)
  }

  function BoardCommands(cfg: Settings, rs: seq<Report>, stops: seq<string>, now: int): seq<Command> {
    if stops == [] then [] else
      var n := |stops| - 1;
      BoardCommands(cfg, rs, stops[..n], now)
      + RefreshCommands(cfg, stops[n], BoardOf(rs, stops[n]), now)
  }

  lemma BoardCommandsSnoc(cfg: Settings, rs: seq<Report>, stops: seq<string>, i: nat, now: int, before: seq<Command>)
    requires i < |stops|
    ensures before + BoardCommands(cfg, rs, stops[..i + 1], now)
         == before + BoardCommands(cfg, rs, stops[..i], now)
            + RefreshCommands(cfg, stops[i], BoardOf(rs, stops[i]), now)
  {
    assert stops[..i + 1][..i] == stops[..i];
  }

  function HydrateCommands(cfg: Settings, feed: Feed, now: int): seq<Command> {
    var rs := Reports(feed.entities, now);
    TripCommands(cfg, Updates(feed.entities)) + BoardCommands(cfg, rs, Stops(rs), now)
  }

  method UpdateTripStatus(cfg: Settings, store: RedisStateStore, thread: string, u: TripUpdate, at: int)
    modifies store
    ensures thread !in old(store.pipes) ==>
              store.State() == Steps(old(store.State()), Writes(thread, [TripCommand(cfg, u)], at))
    ensures thread in old(store.pipes) ==>
              && store.db == old(store.db)
              && store.pipes == old(store.pipes)[thread := old(store.pipes[thread]) + [TripCommand(cfg, u)]]
  {
    if thread in store.pipes { WritesBuffer(store.State(), thread, [TripCommand(cfg, u)], at); }
    store.SetKv(thread, TripKey(u.tripId), TripDoc(u), cfg.tripTtl, at);
  }

  method UpdateArrivalsBoard(
    cfg: Settings, store: RedisStateStore, thread: string, stop: string, board: map<string, int>, now: int, at: int)
    modifies store
    ensures thread !in old(store.pipes) ==>
              store.State() == Steps(old(store.State()), Writes(thread, RefreshCommands(cfg, stop, board, now), at))
    ensures thread in old(store.pipes) ==>
              && store.db == old(store.db)
              && store.pipes ==
                   old(store.pipes)[thread := old(store.pipes[thread]) + RefreshCommands(cfg, stop, board, now)]
  {
    if thread in store.pipes { WritesBuffer(store.State(), thread, RefreshCommands(cfg, stop, board, now), at); }
    store.SyncSet(thread, ArrivalsKey(stop), board, now - cfg.windowPast, cfg.gtfsTtl, at);
  }

  /** The dictionary of boards under construction: what it holds and the order its stops came in. */
  ghost predicate IsFold(boards: map<string, map<string, int>>, order: seq<string>, rs: seq<Report>) {
    && order == Stops(rs)
    && (forall s :: s in boards <==> s in order)
    && (forall s | s in boards :: boards[s] == BoardOf(rs, s))
  }

  lemma FoldBoards(boards: map<string, map<string, int>>, order: seq<string>, rs: seq<Report>)
    requires IsFold(boards, order, rs)
    ensures order == Stops(rs)
    ensures forall i | 0 <= i < |order| :: order[i] in boards && boards[order[i]] == BoardOf(rs, order[i])
  {
    forall i | 0 <= i < |order| ensures order[i] in boards && boards[order[i]] == BoardOf(rs, order[i]) {
      assert order[i] in order;
    }
  }

  /** One qualifying stop time, into the board of a stop that may be new. */
  method AddReport(
    boards: map<string, map<string, int>>, order: seq<string>, ghost rs: seq<Report>, r: Report)
    returns (boards': map<string, map<string, int>>, order': seq<string>)
    requires IsFold(boards, order, rs)
    ensures IsFold(boards', order', rs + [r])
  {
    BoardNonEmpty(rs, r.stop);
    assert (rs + [r])[..|rs|] == rs;
    boards', order' := boards, order;
    if r.stop !in boards {
      boards', order' := boards[r.stop := map[]], order + [r.stop];
    }
    boards' := boards'[r.stop := boards'[r.stop][r.trip := r.time]];
  }

  /** The inner loop: one trip's stop times. */
  method AddTrip(
    boards: map<string, map<string, int>>, order: seq<string>, ghost rs: seq<Report>, update: TripUpdate, now: int)
    returns (boards': map<string, map<string, int>>, order': seq<string>)
    requires IsFold(boards, order, rs)
    ensures IsFold(boards', order', rs + TripReports(update.tripId, update.stopTimes, now))
  {
    boards', order' := boards, order;
    ghost var told: seq<Report> := [];
    assert rs + [] == rs;
    for j := 0 to |update.stopTimes|
      invariant told == TripReports(update.tripId, update.stopTimes[..j], now)
      invariant IsFold(boards', order', rs + told)
    {
      var u := update.stopTimes[j];
      TripReportsSnoc(update.tripId, update.stopTimes, j, now);
      if !Qualifies(u, now) {
        continue;
      }
      var r := Report(u.stopId, update.tripId, BoardTime(u).value);
      boards', order' := AddReport(boards', order', rs + told, r);
      assert rs + told + [r] == rs + (told + [r]);
      told := told + [r];
    }
    assert update.stopTimes[..|update.stopTimes|] == update.stopTimes;
  }

  /** One entity of the feed, with a batch open: its metadata is buffered, its stop times go on the boards. */
  method AddEntity(
    cfg: Settings, store: RedisStateStore, thread: string, boards: map<string, map<string, int>>, order: seq<string>,
    ghost us: seq<TripUpdate>, ghost rs: seq<Report>, update: TripUpdate, now: int)
    returns (boards': map<string, map<string, int>>, order': seq<string>)
    requires thread in store.pipes && store.pipes[thread] == TripCommands(cfg, us) && IsFold(boards, order, rs)
    modifies store
    ensures store.db == old(store.db)
    ensures store.pipes == old(store.pipes)[thread := TripCommands(cfg, us + [update])]
    ensures IsFold(boards', order', rs + TripReports(update.tripId, update.stopTimes, now))
  {
    TripCommandsSnoc(cfg, us, update);
    UpdateTripStatus(cfg, store, thread, update, now);
    boards', order' := AddTrip(boards, order, rs, update, now);
  }

  /** The outer loop over the feed: buffers each trip's metadata and builds the boards. */
  method FoldFeed(cfg: Settings, store: RedisStateStore, thread: string, feed: Feed, now: int)
    returns (boards: map<string, map<string, int>>, order: seq<string>)
    requires thread in store.pipes && store.pipes[thread] == []
    modifies store
    ensures store.db == old(store.db)
    ensures store.pipes == old(store.pipes)[thread := TripCommands(cfg, Updates(feed.entities))]
    ensures IsFold(boards, order, Reports(feed.entities, now))
  {
    boards, order := map[], [];
    ghost var us, rs := Updates(feed.entities[..0]), Reports(feed.entities[..0], now);
    for i := 0 to |feed.entities|
      invariant us == Updates(feed.entities[..i]) && rs == Reports(feed.entities[..i], now)
      invariant store.db == old(store.db) && store.pipes == old(store.pipes)[thread := TripCommands(cfg, us)]
      invariant IsFold(boards, order, rs)
    {
      EntitySnoc(feed.entities, i, now);
      if feed.entities[i].Some? {
        var update := feed.entities[i].value;
        boards, order := AddEntity(cfg, store, thread, boards, order, us, rs, update, now);
        us, rs := us + [update], rs + TripReports(update.tripId, update.stopTimes, now);
      }
    }
    assert feed.entities[..|feed.entities|] == feed.entities;
  }

  /** The second loop: one refresh per stop, in the order the stops were met. */
  method WriteBoards(
    cfg: Settings, store: RedisStateStore, thread: string,
    boards: map<string, map<string, int>>, order: seq<string>, ghost rs: seq<Report>, now: int)
    requires thread in store.pipes
    requires forall i | 0 <= i < |order| :: order[i] in boards && boards[order[i]] == BoardOf(rs, order[i])
    modifies store
    ensures store.db == old(store.db)
    ensures store.pipes == old(store.pipes)[thread := old(store.pipes[thread]) + BoardCommands(cfg, rs, order, now)]
  {
    ghost var before, issued := store.pipes[thread], store.pipes[thread];
    assert issued == before + BoardCommands(cfg, rs, order[..0], now);
    for i := 0 to |order|
      invariant issued == before + BoardCommands(cfg, rs, order[..i], now)
      invariant store.db == old(store.db) && store.pipes == old(store.pipes)[thread := issued]
    {
      var stop := order[i];
      BoardCommandsSnoc(cfg, rs, order, i, now, before);
      ghost var cs := RefreshCommands(cfg, stop, BoardOf(rs, stop), now);
      UpdateArrivalsBoard(cfg, store, thread, stop, boards[stop], now, now);
      issued := issued + cs;
    }
    assert order[..|order|] == order;
  }

  /** One feed, one batch. `now` is the worker's clock inside the batch, `at` the server's when the
      batch executes. */
  method HydrateRealtimeData(
    cfg: Settings, store: RedisStateStore, thread: string, feed: Feed, now: int, at: int, ending: Ending)
    requires thread !in store.pipes
    modifies store
    ensures store.pipes == old(store.pipes)
    ensures ending == Committed || ending == ReplyLost ==>
              store.db == ApplyAll(old(store.db), HydrateCommands(cfg, feed, now), at)
    ensures ending == NotExecuted || ending == BodyRaised ==> store.db == old(store.db)
  {
    store.BeginBatch(thread);
    var boards, order := FoldFeed(cfg, store, thread, feed, now);
    FoldBoards(boards, order, Reports(feed.entities, now));
    WriteBoards(cfg, store, thread, boards, order, Reports(feed.entities, now), now);
    ghost var cs := HydrateCommands(cfg, feed, now);
    assert store.State() == StoreState(old(store.db), old(store.pipes)[thread := cs]);
    EndAfterBegin(old(store.State()), thread, cs, ending, at);
    store.EndBatch(thread, ending, at);
  }

  lemma EndAfterBegin(was: StoreState, thread: string, cs: seq<Command>, ending: Ending, at: int)
    requires thread !in was.pipes
    ensures Step(StoreState(was.db, was.pipes[thread := cs]), End(thread, ending, at))
         == StoreState(if ending.Executed() then ApplyAll(was.db, cs, at) else was.db, was.pipes)
  {
    assert was.pipes[thread := cs] - {thread} == was.pipes;
  }

  // ----- what the batch does to each key -----

  ghost predicate ArrivalsAreSets(db: Db) {
    forall p :: ArrivalsKey(p) in db ==> db[ArrivalsKey(p)].value.ZSet?
  }

  /** The cell of a stop after a refresh: what it kept, overwritten by the board, on a new lease. */
  function Refreshed(cfg: Settings, members: map<string, int>, board: map<string, int>, now: int, at: int): Cell {
    Cell(ZSet(RemoveRange(members, 0, now - cfg.windowPast) + board), Some(at + cfg.gtfsTtl))
  }

  lemma SyncEffect(db: Db, key: string, mapping: map<string, int>, minScore: int, ttl: int, at: int)
    requires mapping != map[] && 0 < ttl && (key in db ==> db[key].value.ZSet?)
    ensures var after := ApplyAll(db, SyncCommands(key, mapping, minScore, ttl), at);
            key in after &&
            after[key] == Cell(ZSet(RemoveRange(Members(db, key, at), 0, minScore) + mapping), Some(at + ttl))
  {
    var cs := SyncCommands(key, mapping, minScore, ttl);
    var db1 := Apply(db, cs[0], at);
    var db2 := Apply(db1, cs[1], at);
    assert ApplyAll(db, cs, at) == ApplyAll(db1, cs[1..], at);
    assert ApplyAll(db1, cs[1..], at) == ApplyAll(db2, cs[1..][1..], at);
    assert cs[1..][1..] == [cs[2]];
    assert ApplyAll(db2, [cs[2]], at) == ApplyAll(Apply(db2, cs[2], at), [], at);
    assert Members(db1, key, at) == RemoveRange(Members(db, key, at), 0, minScore);
    assert Present(db2, key, at) && db2[key].value == ZSet(Members(db1, key, at) + mapping);
  }

  /** With nothing to add, a refresh only purges: the lease stays what it was. */
  lemma SyncNothing(db: Db, key: string, minScore: int, ttl: int, at: int)
    requires HoldsSet(db, key, at)
    ensures var after, rest := ApplyAll(db, SyncCommands(key, map[], minScore, ttl), at),
                               RemoveRange(Members(db, key, at), 0, minScore);
            && (rest == map[] <==> key !in after)
            && (rest != map[] ==> after[key] == Cell(ZSet(rest), db[key].expiry))
  {
    var c := ZRemRangeByScore(key, 0, minScore);
    assert ApplyAll(db, [c], at) == ApplyAll(Apply(db, c, at), [], at);
  }

  lemma {:induction false} TripCommandsEffect(cfg: Settings, db: Db, us: seq<TripUpdate>, at: int, trip: string)
    ensures var after, key := ApplyAll(db, TripCommands(cfg, us), at), TripKey(trip);
            match LastUpdate(us, trip)
            case Some(u) => key in after && after[key] == Cell(TripDoc(u), Some(at + cfg.tripTtl))
            case None => SameAt(after, db, key)
  {
    if us == [] {
    } else {
      var n := |us| - 1;
      TripCommandsEffect(cfg, db, us[..n], at, trip);
      ApplyAllConcat(db, TripCommands(cfg, us[..n]), [TripCommand(cfg, us[n])], at);
      var mid := ApplyAll(db, TripCommands(cfg, us[..n]), at);
      assert ApplyAll(mid, [TripCommand(cfg, us[n])], at) == Apply(mid, TripCommand(cfg, us[n]), at);
      KeysApart(us[n].tripId, trip);
    }
  }

  lemma {:induction false} TripCommandKeys(cfg: Settings, us: seq<TripUpdate>)
    ensures forall c | c in TripCommands(cfg, us) :: exists u :: u in us && c == TripCommand(cfg, u)
  {
    if us == [] {
    } else {
      var n := |us| - 1;
      TripCommandKeys(cfg, us[..n]);
      assert forall u :: u in us[..n] ==> u in us;
    }
  }

  lemma {:induction false} BoardCommandKeys(cfg: Settings, rs: seq<Report>, stops: seq<string>, now: int)
    ensures forall c | c in BoardCommands(cfg, rs, stops, now) :: exists p :: p in stops && c.key == ArrivalsKey(p)
  {
    if stops == [] {
    } else {
      var n := |stops| - 1;
      BoardCommandKeys(cfg, rs, stops[..n], now);
      assert forall p :: p in stops[..n] ==> p in stops;
      assert stops[n] in stops;
    }
  }

  lemma {:induction false} BoardCommandsEffect(
    cfg: Settings, db: Db, rs: seq<Report>, stops: seq<string>, now: int, at: int, p: string)
    requires 0 < cfg.gtfsTtl && ArrivalsAreSets(db)
    requires Distinct(stops) && NoneEmpty(rs, stops)
    ensures var after, key := ApplyAll(db, BoardCommands(cfg, rs, stops, now), at), ArrivalsKey(p);
            if p in stops then
              key in after && after[key] ==
                Refreshed(cfg, Members(db, key, at), BoardOf(rs, p), now, at)
            else SameAt(after, db, key)
  {
    if stops == [] {
    } else {
      var n := |stops| - 1;
      LastStopApart(stops);
      BoardCommandsEffect(cfg, db, rs, stops[..n], now, at, p);
      var before, board := BoardCommands(cfg, rs, stops[..n], now), BoardOf(rs, stops[n]);
      ApplyAllConcat(db, before, RefreshCommands(cfg, stops[n], board, now), at);
      OneRefresh(cfg, ApplyAll(db, before, at), stops[n], board, now, at, p);
    }
  }

  ghost predicate NoneEmpty(rs: seq<Report>, stops: seq<string>) {
    forall s | s in stops :: BoardOf(rs, s) != map[]
  }

  lemma LastStopApart(stops: seq<string>)
    requires stops != [] && Distinct(stops)
    ensures var n := |stops| - 1;
            && Distinct(stops[..n]) && stops[n] !in stops[..n]
            && (forall s :: s in stops <==> s in stops[..n] || s == stops[n])
  {
    assert stops == stops[..|stops| - 1] + [stops[|stops| - 1]];
  }

  lemma OneRefresh(cfg: Settings, db: Db, stop: string, board: map<string, int>, now: int, at: int, p: string)
    requires 0 < cfg.gtfsTtl && board != map[]
    requires p == stop && ArrivalsKey(p) in db ==> db[ArrivalsKey(p)].value.ZSet?
    ensures var after, key := ApplyAll(db, RefreshCommands(cfg, stop, board, now), at), ArrivalsKey(p);
            if p == stop then key in after && after[key] == Refreshed(cfg, Members(db, key, at), board, now, at)
            else SameAt(after, db, key)
  {
    if p == stop {
      SyncEffect(db, ArrivalsKey(p), board, now - cfg.windowPast, cfg.gtfsTtl, at);
    } else {
      OtherBoardKept(cfg, db, stop, board, now, at, p);
    }
  }

  lemma OtherBoardKept(cfg: Settings, db: Db, stop: string, board: map<string, int>, now: int, at: int, p: string)
    requires p != stop
    ensures SameAt(ApplyAll(db, RefreshCommands(cfg, stop, board, now), at), db, ArrivalsKey(p))
  {
    var cs := RefreshCommands(cfg, stop, board, now);
    KeysApart(stop, p);
    forall c | c in cs ensures c.key == ArrivalsKey(stop) { }
    ApplyAllFrame(db, cs, at, ArrivalsKey(p));
  }

  /** The database after the batch of `feed`. */
  function Hydrate(cfg: Settings, db: Db, feed: Feed, now: int, at: int): Db {
    ApplyAll(db, HydrateCommands(cfg, feed, now), at)
  }

  lemma BatchParts(cfg: Settings, db: Db, feed: Feed, now: int, at: int)
    ensures var us, rs := Updates(feed.entities), Reports(feed.entities, now);
            var trips, boards := TripCommands(cfg, us), BoardCommands(cfg, rs, Stops(rs), now);
            && Hydrate(cfg, db, feed, now, at) == ApplyAll(ApplyAll(db, trips, at), boards, at)
            && (forall c | c in trips :: exists k :: c.key == TripKey(k))
            && (forall c | c in boards :: exists p :: c.key == ArrivalsKey(p))
  {
    var us, rs := Updates(feed.entities), Reports(feed.entities, now);
    ApplyAllConcat(db, TripCommands(cfg, us), BoardCommands(cfg, rs, Stops(rs), now), at);
    TripCommandKeys(cfg, us);
    BoardCommandKeys(cfg, rs, Stops(rs), now);
  }

  /** A trip of the feed gets its last metadata and a new lease; other trips are untouched. */
  lemma TripAfter(cfg: Settings, db: Db, feed: Feed, now: int, at: int, k: string)
    ensures var after := Hydrate(cfg, db, feed, now, at);
            match LastUpdate(Updates(feed.entities), k)
            case Some(u) => TripKey(k) in after && after[TripKey(k)] == Cell(TripDoc(u), Some(at + cfg.tripTtl))
            case None => SameAt(after, db, TripKey(k))
  {
    var us, rs := Updates(feed.entities), Reports(feed.entities, now);
    var boards := BoardCommands(cfg, rs, Stops(rs), now);
    BatchParts(cfg, db, feed, now, at);
    TripCommandsEffect(cfg, db, us, at, k);
    forall c | c in boards ensures c.key != TripKey(k) {
      var p :| c.key == ArrivalsKey(p);
      KeysApart(k, p);
    }
    ApplyAllFrame(ApplyAll(db, TripCommands(cfg, us), at), boards, at, TripKey(k));
  }

  /** Writing trips leaves every board as it was. */
  lemma TripsSpareBoards(cfg: Settings, db: Db, us: seq<TripUpdate>, at: int)
    ensures var mid := ApplyAll(db, TripCommands(cfg, us), at);
            forall p ::
              SameAt(mid, db, ArrivalsKey(p)) && Members(mid, ArrivalsKey(p), at) == Members(db, ArrivalsKey(p), at)
  {
    TripCommandKeys(cfg, us);
    var mid := ApplyAll(db, TripCommands(cfg, us), at);
    forall p ensures SameAt(mid, db, ArrivalsKey(p)) {
      forall c | c in TripCommands(cfg, us) ensures c.key != ArrivalsKey(p) {
        var k :| c.key == TripKey(k);
        KeysApart(k, p);
      }
      ApplyAllFrame(db, TripCommands(cfg, us), at, ArrivalsKey(p));
    }
  }

  /** A stop the feed reports keeps what is not older than the window, takes over the reported times
      and gets a new lease; other stops are untouched. */
  lemma BoardAfter(cfg: Settings, db: Db, feed: Feed, now: int, at: int, p: string)
    requires 0 < cfg.gtfsTtl && ArrivalsAreSets(db)
    ensures var after, rs, key := Hydrate(cfg, db, feed, now, at), Reports(feed.entities, now), ArrivalsKey(p);
            if p in Stops(rs)
            then key in after && after[key] == Refreshed(cfg, Members(db, key, at), BoardOf(rs, p), now, at)
            else SameAt(after, db, key)
  {
    var us, rs := Updates(feed.entities), Reports(feed.entities, now);
    var mid := ApplyAll(db, TripCommands(cfg, us), at);
    BatchParts(cfg, db, feed, now, at);
    TripsSpareBoards(cfg, db, us, at);
    forall s | s in Stops(rs) ensures BoardOf(rs, s) != map[] {
      BoardNonEmpty(rs, s);
    }
    StopsDistinct(rs);
    BoardCommandsEffect(cfg, mid, rs, Stops(rs), now, at, p);
  }

  /** Keys outside the two families are untouched. */
  lemma OtherAfter(cfg: Settings, db: Db, feed: Feed, now: int, at: int, key: string)
    requires (forall k :: key != TripKey(k)) && (forall p :: key != ArrivalsKey(p))
    ensures SameAt(Hydrate(cfg, db, feed, now, at), db, key)
  {
    var us, rs := Updates(feed.entities), Reports(feed.entities, now);
    BatchParts(cfg, db, feed, now, at);
    ApplyAllFrame(db, TripCommands(cfg, us), at, key);
    ApplyAllFrame(ApplyAll(db, TripCommands(cfg, us), at), BoardCommands(cfg, rs, Stops(rs), now), at, key);
  }

  lemma SetsAfter(cfg: Settings, db: Db, feed: Feed, now: int, at: int)
    requires 0 < cfg.gtfsTtl && ArrivalsAreSets(db)
    ensures ArrivalsAreSets(Hydrate(cfg, db, feed, now, at))
  {
    var after := Hydrate(cfg, db, feed, now, at);
    forall p | ArrivalsKey(p) in after ensures after[ArrivalsKey(p)].value.ZSet? {
      BoardAfter(cfg, db, feed, now, at, p);
    }
  }
}
