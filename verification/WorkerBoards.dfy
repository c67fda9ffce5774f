/** From the worker machine to the reader: what a platform's board shows in any reachable state. */
module WorkerBoards {
  import opened Models
  import opened Sequences
  import opened RedisStore
  import opened History
  import opened Workers
  import opened ArrivalsBoard
  import opened BoardLaws
  import opened LiveBoards

  /** The run of executed batches explains trip `k` at the stop at time `s`, and the board looks at that
      time. */
  ghost predicate Due(cfg: Settings, run: seq<Batch>, q: Query, k: string, s: int) {
    InWindow(q, s) && exists i :: Explains(cfg, run, i, q.stopId, k, s, q.now)
  }

  /** The run whose batches have reached the server in `w`, for a reader who asks in that state. */
  ghost predicate AsksAfter(cfg: Settings, keyOf: Assignment, acts: seq<Action>, q: Query, run: seq<Batch>) {
    var w := Exec(cfg, keyOf, acts);
    q.db == w.store.db && q.now == w.clock && run == Executions(w.log)
  }

  lemma ShownIsDue(
    cfg: Settings, keyOf: Assignment, acts: seq<Action>, q: Query, run: seq<Batch>, k: string, s: int)
    requires cfg.Sane() && IsPlatform(q.stopId) && AsksAfter(cfg, keyOf, acts, q, run)
    ensures Shows(q.db, q.stopId, k, s, q.now) && InWindow(q, s) <==> Due(cfg, run, q, k, s)
  {
    var key := ArrivalsKey(q.stopId);
    WorkersRefineHistory(cfg, keyOf, acts);
    assert IsLiveKey(key);
    assert SameAt(q.db, StoreAfter(cfg, run), key);
    StoreRefinesHistory(cfg, run, q.stopId, k, s, q.now);
  }

  /** However the workers interleave and fail, a platform's board without the schedule has, for each trip
      that the log of executed batches makes due there, exactly one row, and no others; it is sorted. */
  lemma WorkersShowOnBoards(
    cfg: Settings, keyOf: Assignment, acts: seq<Action>, q: Query, run: seq<Batch>, k: string, s: int)
    requires cfg.Sane() && IsPlatform(q.stopId) && !q.useSchedules && AsksAfter(cfg, keyOf, acts, q, run)
    ensures Filter(BoardFor(q), IsTrip(k)) == [RowAt(q, k, s)] <==> Due(cfg, run, q, k, s)
    ensures |Filter(BoardFor(q), IsTrip(k))| <= 1
    ensures SortedBy(BoardFor(q), ByTime)
  {
    ShownIsDue(cfg, keyOf, acts, q, run, k, s);
    TripOnPlatform(q, k);
    BoardIsSorted(q);
  }

  lemma {:induction false} SeenAmongTrip(board: seq<Arrival>, sighting: Sighting)
    ensures sighting in Map(board, Seen) <==> sighting in Map(Filter(board, IsTrip(sighting.tripId)), Seen)
  {
    if board == [] {
    } else {
      SeenAmongTrip(board[1..], sighting);
      SeenHead(board, sighting);
      if IsTrip(sighting.tripId)(board[0]) {
        var rest := Filter(board[1..], IsTrip(sighting.tripId));
        SeenHead([board[0]] + rest, sighting);
        assert ([board[0]] + rest)[1..] == rest;
      }
    }
  }

  lemma SeenHead(board: seq<Arrival>, sighting: Sighting)
    requires board != []
    ensures sighting in Map(board, Seen) <==> sighting == Seen(board[0]) || sighting in Map(board[1..], Seen)
  {
    assert Map(board, Seen) == [Seen(board[0])] + Map(board[1..], Seen);
  }

  /** A sighting is on a live-only board exactly when its row is. */
  lemma SeenAmongRows(q: Query, k: string, s: int)
    requires IsPlatform(q.stopId) && !q.useSchedules
    ensures Sighting(k, Letter(q.stopId), s) in Map(BoardFor(q), Seen) <==>
            Filter(BoardFor(q), IsTrip(k)) == [RowAt(q, k, s)]
  {
    TripOnPlatform(q, k);
    SeenAmongTrip(BoardFor(q), Sighting(k, Letter(q.stopId), s));
    SeenOnly(q, k, Members(q.db, ArrivalsKey(q.stopId), q.now), s);
  }

  lemma SeenOnly(q: Query, k: string, m: map<string, int>, s: int)
    requires IsPlatform(q.stopId)
    ensures var rows := if k in m && InWindow(q, m[k]) then [RowAt(q, k, m[k])] else [];
            Sighting(k, Letter(q.stopId), s) in Map(rows, Seen) <==> rows == [RowAt(q, k, s)]
  {
    if k in m && InWindow(q, m[k]) {
      SeenHead([RowAt(q, k, m[k])], Sighting(k, Letter(q.stopId), s));
      assert Seen(RowAt(q, k, m[k])) == Sighting(k, Letter(q.stopId), m[k]);
      assert Seen(RowAt(q, k, s)) == Sighting(k, Letter(q.stopId), s);
    }
  }

  lemma SameWindow(q: Query, r: Query, s: int)
    requires q.cfg == r.cfg && q.now == r.now && q.lookahead == r.lookahead
    ensures InWindow(q, s) <==> InWindow(r, s)
  {
  }

  lemma DueWithoutSchedule(cfg: Settings, run: seq<Batch>, q: Query, k: string, s: int)
    ensures Due(cfg, run, LiveOnly(q), k, s) <==> Due(cfg, run, q, k, s)
  {
    SameWindow(q, LiveOnly(q), s);
  }

  /** The live trains of a platform's board, with the schedule merged or not, are exactly those due. */
  lemma WorkersShowLiveTrains(
    cfg: Settings, keyOf: Assignment, acts: seq<Action>, q: Query, run: seq<Batch>, k: string, s: int)
    requires cfg.Sane() && IsPlatform(q.stopId) && AsksAfter(cfg, keyOf, acts, q, run)
    ensures Sighting(k, Letter(q.stopId), s) in LiveTrains(q) <==> Due(cfg, run, q, k, s)
  {
    MergePreservesLive(q);
    SeenIsDue(cfg, keyOf, acts, LiveOnly(q), run, k, s);
    DueWithoutSchedule(cfg, run, q, k, s);
  }

  lemma SeenIsDue(
    cfg: Settings, keyOf: Assignment, acts: seq<Action>, q: Query, run: seq<Batch>, k: string, s: int)
    requires cfg.Sane() && IsPlatform(q.stopId) && !q.useSchedules && AsksAfter(cfg, keyOf, acts, q, run)
    ensures Sighting(k, Letter(q.stopId), s) in Map(BoardFor(q), Seen) <==> Due(cfg, run, q, k, s)
  {
    WorkersShowOnBoards(cfg, keyOf, acts, q, run, k, s);
    SeenAmongRows(q, k, s);
  }
}
