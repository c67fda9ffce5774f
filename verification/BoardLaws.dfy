/** What every arrivals board satisfies, whatever the store and the schedule hold. */
module BoardLaws {
  import opened Models
  import opened Sequences
  import opened Matching
  import opened ArrivalsBoard

  /** The scheduled trip each live entry of the request got. */
  ghost function LivePicks(q: Query): (r: seq<Option<ScheduledTrip>>)
    ensures |r| == |LiveEntries(q)|
  {
    PicksOf(q, LiveEntries(q))
  }

  ghost function TakenBy(q: Query): set<string> { Taken(LivePicks(q)) }

  ghost function LivePart(q: Query): seq<Arrival> { LiveRows(q, LiveEntries(q), LivePicks(q)) }

  ghost function GhostPart(q: Query): seq<Arrival> { GhostRows(q, TakenBy(q)) }

  // ----- sorting and cut-off -----

  lemma BoardMembers(q: Query, a: Arrival)
    ensures a in BoardFor(q) <==>
            (a in LivePart(q) || a in GhostPart(q)) && a.arrivalTime >= q.now - q.cfg.recentlyPassed
    ensures multiset(BoardFor(q))[a] ==
            if a.arrivalTime >= q.now - q.cfg.recentlyPassed then multiset(LivePart(q) + GhostPart(q))[a] else 0
  {
    var shown := Filter(UnifiedBoard(q), StillShown(q));
    SortSorts(shown, ByTime);
    FilterMultiset(UnifiedBoard(q), StillShown(q));
    assert a in BoardFor(q) <==> a in multiset(BoardFor(q));
    assert a in shown <==> a in multiset(shown);
  }

  /** The board is in time order and shows no train that passed too long ago. */
  lemma BoardIsSorted(q: Query)
    ensures SortedBy(BoardFor(q), ByTime)
    ensures forall a | a in BoardFor(q) :: a.arrivalTime >= q.now - q.cfg.recentlyPassed
  {
    SortSorts(Filter(UnifiedBoard(q), StillShown(q)), ByTime);
    forall a | a in BoardFor(q) ensures a.arrivalTime >= q.now - q.cfg.recentlyPassed {
      BoardMembers(q, a);
    }
  }

  // ----- live trains survive the merge -----

  /** What the merge may not change about a live train. */
  datatype Sighting = Sighting(tripId: string, direction: string, time: int)

  function Seen(a: Arrival): Sighting { Sighting(a.tripId, a.direction, a.arrivalTime) }

  function SeenTime(s: Sighting): int { s.time }

  function IsLive(): Arrival -> bool { (a: Arrival) => a.isRealtime }

  function SightedSince(cutoff: int): Sighting -> bool {
    (s: Sighting) => s.time >= cutoff
  }

  function Sight(e: LiveEntry): Sighting { Sighting(e.tripId, e.direction, e.time) }

  lemma RowsSightings(q: Query, entries: seq<LiveEntry>, picks: seq<Option<ScheduledTrip>>)
    requires |picks| == |entries|
    ensures Map(LiveRows(q, entries, picks), Seen) == Map(entries, Sight)
    ensures forall a | a in LiveRows(q, entries, picks) :: a.isRealtime
  {
    var rows := LiveRows(q, entries, picks);
    forall i | 0 <= i < |entries| ensures rows[i].isRealtime && Seen(rows[i]) == Sight(entries[i]) {
      assert rows[i] == LiveRow(q, entries[i], picks[i]);
    }
  }

  /** The live part has one row per live entry: the same trip, platform letter and time. */
  lemma LivePartSightings(q: Query)
    ensures Map(LivePart(q), Seen) == Map(LiveEntries(q), Sight)
    ensures forall a | a in LivePart(q) :: a.isRealtime
    ensures forall a | a in GhostPart(q) :: !a.isRealtime && a.status == Scheduled
  {
    RowsSightings(q, LiveEntries(q), LivePicks(q));
  }

  /** The shown sightings of the live entries, in time order. */
  function LiveSequence(entries: seq<LiveEntry>, cutoff: int): seq<Sighting> {
    StableSort(Filter(Map(entries, Sight), SightedSince(cutoff)), SeenTime)
  }

  /** The live trains of any board, as a sequence, depend only on the live entries. */
  lemma LiveSightings(q: Query)
    ensures Map(Filter(BoardFor(q), IsLive()), Seen) == LiveSequence(LiveEntries(q), q.now - q.cfg.recentlyPassed)
  {
    var live, ghosts := LivePart(q), GhostPart(q);
    LivePartSightings(q);
    SortFilter(Filter(live + ghosts, StillShown(q)), ByTime, IsLive());
    FilterFilter(live + ghosts, StillShown(q), IsLive());
    FilterConcat(live, ghosts, IsLive());
    FilterAll(live, IsLive());
    FilterNone(ghosts, IsLive());
    assert live + [] == live;
    SortMap(Filter(live, StillShown(q)), ByTime, Seen, SeenTime);
    FilterMap(live, Seen, SightedSince(q.now - q.cfg.recentlyPassed), StillShown(q));
  }

  /** Without the schedule every row is live. */
  lemma LiveOnlyIsLive(q: Query)
    requires !q.useSchedules
    ensures Filter(BoardFor(q), IsLive()) == BoardFor(q)
  {
    forall a | a in BoardFor(q) ensures a.isRealtime {
      BoardMembers(q, a);
      LivePartSightings(q);
    }
    FilterAll(BoardFor(q), IsLive());
  }

  lemma LiveOnlySequence(q: Query)
    requires !q.useSchedules
    ensures Map(BoardFor(q), Seen) == LiveSequence(LiveEntries(q), q.now - q.cfg.recentlyPassed)
  {
    LiveSightings(q);
    LiveOnlyIsLive(q);
  }

  function LiveOnly(q: Query): Query { q.(useSchedules := false) }

  /** The live trains of the board, in board order. */
  ghost function LiveTrains(q: Query): seq<Sighting> { Map(Filter(BoardFor(q), IsLive()), Seen) }

  ghost function LiveOnlyTrains(q: Query): seq<Sighting> { Map(BoardFor(LiveOnly(q)), Seen) }

  lemma LiveTrainsFromEntries(q: Query)
    ensures LiveTrains(q) == LiveSequence(LiveEntries(q), q.now - q.cfg.recentlyPassed)
  {
    LiveSightings(q);
  }

  lemma LiveOnlyTrainsFromEntries(q: Query)
    ensures LiveOnlyTrains(q)
         == LiveSequence(LiveEntries(LiveOnly(q)), LiveOnly(q).now - LiveOnly(q).cfg.recentlyPassed)
  {
    LiveOnlySequence(LiveOnly(q));
  }

  lemma SameEntries(q: Query, r: Query)
    requires q.db == r.db && q.stopId == r.stopId && q.lookahead == r.lookahead && q.now == r.now
    ensures LiveEntries(q) == LiveEntries(r)
  {
    assert Horizon(q) == Horizon(r);
  }

  lemma SameSequence(q: Query)
    ensures LiveSequence(LiveEntries(LiveOnly(q)), LiveOnly(q).now - LiveOnly(q).cfg.recentlyPassed)
         == LiveSequence(LiveEntries(q), q.now - q.cfg.recentlyPassed)
  {
    SameEntries(q, LiveOnly(q));
  }

  /** Merging the schedule adds, drops, retimes and reorders no live train. */
  lemma MergePreservesLive(q: Query)
    ensures LiveTrains(q) == LiveOnlyTrains(q)
  {
    LiveTrainsFromEntries(q);
    SameSequence(q);
    LiveOnlyTrainsFromEntries(q);
  }

  // ----- live and scheduled rows never show the same train -----

  lemma ScheduledRowOrigin(q: Query, a: Arrival) returns (s: ScheduledTrip)
    requires a in BoardFor(q) && !a.isRealtime
    ensures s in Rows(q) && s.tripId !in TakenBy(q) && a == GhostRow(s)
    ensures !WrongPlatform(q, s) && !TooOld(q, s)
  {
    BoardMembers(q, a);
    LivePartSightings(q);
    var kept := Filter(Rows(q), IsGhost(q, TakenBy(q)));
    var i :| 0 <= i < |kept| && GhostRow(kept[i]) == a;
    s := kept[i];
    assert s in kept && IsGhost(q, TakenBy(q))(s);
  }

  lemma LiveRowOrigin(q: Query, a: Arrival) returns (i: int)
    requires a in BoardFor(q) && a.isRealtime
    ensures 0 <= i < |LiveEntries(q)| && a == LiveRow(q, LiveEntries(q)[i], LivePicks(q)[i])
  {
    BoardMembers(q, a);
    LivePartSightings(q);
    i :| 0 <= i < |LivePart(q)| && LivePart(q)[i] == a;
  }

  ghost function Trains(q: Query): (r: seq<Train>)
    ensures |r| == |LiveEntries(q)|
  {
    Map(LiveEntries(q), TrainOf(q))
  }

  /** A train seen live is never also shown as merely scheduled: neither under its own identifier nor
      under the row its identifier selects, even when another live train was given that row. */
  lemma SeenLiveIsNotGhost(q: Query)
    ensures forall a, e | a in BoardFor(q) && !a.isRealtime && e in LiveEntries(q) ::
              && a.tripId != e.tripId
              && (IdHit(Rows(q), e.tripId).Some? ==> a.tripId != IdHit(Rows(q), e.tripId).value.tripId)
  {
    forall a, e | a in BoardFor(q) && !a.isRealtime && e in LiveEntries(q)
      ensures a.tripId != e.tripId
      ensures IdHit(Rows(q), e.tripId).Some? ==> a.tripId != IdHit(Rows(q), e.tripId).value.tripId
    {
      var s := ScheduledRowOrigin(q, a);
      SelectedIsTaken(q, e);
      assert s.tripId !in TakenBy(q);
    }
  }

  /** If a row carries the identifier of a live entry, or is selected by it, it is taken. */
  lemma SelectedIsTaken(q: Query, e: LiveEntry)
    requires e in LiveEntries(q)
    ensures IdHit(Rows(q), e.tripId).Some? ==> IdHit(Rows(q), e.tripId).value.tripId in TakenBy(q)
    ensures forall s | s in Rows(q) && s.tripId == e.tripId :: s.tripId in TakenBy(q)
  {
    var i :| 0 <= i < |LiveEntries(q)| && LiveEntries(q)[i] == e;
    IdHitMeaning(Rows(q), e.tripId);
    if IdHit(Rows(q), e.tripId).Some? {
      IdHitIsTaken(Rows(q), Trains(q), q.cfg.fuzzyWindow, i);
    }
  }

  /** No live train is marked as added while the board also offers a scheduled train of its route and
      direction that close in time: such a pair would have been matched. */
  lemma NoMissedMatch(q: Query, a: Arrival, b: Arrival)
    requires a in BoardFor(q) && a.isRealtime && a.status == LiveAdded
    requires b in BoardFor(q) && !b.isRealtime
    requires RouteOf(q, a.tripId) != UNKNOWN && b.routeId == RouteOf(q, a.tripId) && b.direction == a.direction
    ensures Abs(b.arrivalTime - a.arrivalTime) >= q.cfg.fuzzyWindow
  {
    var s := ScheduledRowOrigin(q, b);
    var i := LiveRowOrigin(q, a);
    var t := TrainBehind(q, i, a);
    if Abs(s.arrival - t.time) < q.cfg.fuzzyWindow {
      assert Compatible(Rows(q), t, s.tripId, q.cfg.fuzzyWindow);
      MatchingIsMaximal(Rows(q), Trains(q), q.cfg.fuzzyWindow, i, s.tripId);
    }
  }

  lemma TrainBehind(q: Query, i: int, a: Arrival) returns (t: Train)
    requires 0 <= i < |LiveEntries(q)| && a == LiveRow(q, LiveEntries(q)[i], LivePicks(q)[i])
    ensures t == Trains(q)[i] && t == Train(a.tripId, a.arrivalTime, a.direction, RouteOf(q, a.tripId))
    ensures a.status == LiveAdded ==> LivePicks(q)[i].None?
  {
    t := Trains(q)[i];
  }

  /** The status of a live row tells whether the schedule was consulted and had no trip for the train. */
  lemma LiveStatus(q: Query, i: int)
    requires 0 <= i < |LiveEntries(q)|
    ensures LivePart(q)[i] == LiveRow(q, LiveEntries(q)[i], LivePicks(q)[i])
    ensures LivePart(q)[i].status == if q.useSchedules && LivePicks(q)[i].None? then LiveAdded else Live
  {
    if !q.useSchedules {
      PickAt([], Trains(q), q.cfg.fuzzyWindow, i);
      NoRowsNoPick(Trains(q)[i], Taken(Picks([], Trains(q)[..i], q.cfg.fuzzyWindow)), q.cfg.fuzzyWindow);
    }
  }

  // ----- conservation -----

  function IsConsumed(taken: set<string>): ScheduledTrip -> bool {
    (s: ScheduledTrip) => s.tripId in taken
  }

  function IsMisplaced(q: Query, taken: set<string>): ScheduledTrip -> bool {
    (s: ScheduledTrip) => s.tripId !in taken && WrongPlatform(q, s)
  }

  function IsStale(q: Query, taken: set<string>): ScheduledTrip -> bool {
    (s: ScheduledTrip) => s.tripId !in taken && !WrongPlatform(q, s) && TooOld(q, s)
  }

  ghost predicate DistinctIds(rows: seq<ScheduledTrip>) {
    forall i, j :: 0 <= i < j < |rows| ==> rows[i].tripId != rows[j].tripId
  }

  lemma {:induction false} FourWays(q: Query, rows: seq<ScheduledTrip>, taken: set<string>)
    ensures |rows| == |Filter(rows, IsConsumed(taken))| + |Filter(rows, IsGhost(q, taken))|
                    + |Filter(rows, IsMisplaced(q, taken))| + |Filter(rows, IsStale(q, taken))|
  {
    if rows == [] {
    } else {
      FourWays(q, rows[1..], taken);
    }
  }

  /** With distinct identifiers, as many rows carry a given set of identifiers as there are of them. */
  lemma {:induction false} CountById(rows: seq<ScheduledTrip>, ids: set<string>)
    requires DistinctIds(rows) && forall id | id in ids :: exists r :: r in rows && r.tripId == id
    ensures |Filter(rows, IsConsumed(ids))| == |ids|
    decreases |rows|
  {
    if rows == [] {
      assert ids == {};
    } else {
      var id := rows[0].tripId;
      var rest := ids - {id};
      forall x | x in rest ensures exists r :: r in rows[1..] && r.tripId == x {
        var r :| r in rows && r.tripId == x;
        assert r in rows[1..];
      }
      CountById(rows[1..], rest);
      forall r | r in rows[1..] ensures IsConsumed(ids)(r) == IsConsumed(rest)(r) {
        assert r.tripId != id;
      }
      FilterAgree(rows[1..], IsConsumed(ids), IsConsumed(rest));
      assert id in ids ==> |ids| == |rest| + 1;
      assert id !in ids ==> ids == rest;
    }
  }

  /** Every live entry has one row; and when the schedule lists each trip once, each of its rows either
      went to exactly one live train, or is a scheduled row of the board, or was left out for its
      platform, or was left out for its age. */
  lemma TrainsAreConserved(q: Query)
    requires DistinctIds(Rows(q))
    ensures |UnifiedBoard(q)| == |LiveEntries(q)| + |GhostPart(q)|
    ensures |Rows(q)| == |Matched(LivePicks(q))| + |GhostPart(q)|
                       + |Filter(Rows(q), IsMisplaced(q, TakenBy(q)))| + |Filter(Rows(q), IsStale(q, TakenBy(q)))|
    ensures forall s | s in Rows(q) :: s.tripId in TakenBy(q) <==>
              exists i :: 0 <= i < |LivePicks(q)| && LivePicks(q)[i] == Some(s)
    ensures Injective(LivePicks(q))
  {
    var rows, picks, taken := Rows(q), LivePicks(q), TakenBy(q);
    MatchingIsInjective(rows, Trains(q), q.cfg.fuzzyWindow);
    MatchedIsTaken(rows, Trains(q), q.cfg.fuzzyWindow);
    forall id | id in taken ensures exists r :: r in rows && r.tripId == id {
      var i :| 0 <= i < |picks| && picks[i].Some? && picks[i].value.tripId == id;
      assert picks[i].value in rows;
    }
    CountById(rows, taken);
    FourWays(q, rows, taken);
    forall s | s in rows ensures s.tripId in taken <==> exists i :: 0 <= i < |picks| && picks[i] == Some(s) {
      TakenRow(rows, picks, s);
    }
  }

  lemma TakenRow(rows: seq<ScheduledTrip>, picks: seq<Option<ScheduledTrip>>, s: ScheduledTrip)
    requires DistinctIds(rows) && s in rows
    requires forall i | 0 <= i < |picks| && picks[i].Some? :: picks[i].value in rows
    ensures s.tripId in Taken(picks) <==> exists i :: 0 <= i < |picks| && picks[i] == Some(s)
  {
    if s.tripId in Taken(picks) {
      var i :| 0 <= i < |picks| && picks[i].Some? && picks[i].value.tripId == s.tripId;
      assert picks[i].value in rows;
      assert picks[i] == Some(s);
    }
  }

  // ----- the age limit on scheduled rows -----

  function AnyAge(q: Query, taken: set<string>): ScheduledTrip -> bool {
    (s: ScheduledTrip) => s.tripId !in taken && !WrongPlatform(q, s)
  }

  lemma {:induction false} AgeLimitLost(q: Query, rows: seq<ScheduledTrip>, taken: set<string>)
    requires q.cfg.recentlyPassed <= q.cfg.windowPast
    ensures Filter(Map(Filter(rows, IsGhost(q, taken)), GhostRow), StillShown(q))
         == Filter(Map(Filter(rows, AnyAge(q, taken)), GhostRow), StillShown(q))
  {
    if rows == [] {
    } else {
      AgeLimitLost(q, rows[1..], taken);
      var s, young, all := rows[0], Filter(rows[1..], IsGhost(q, taken)), Filter(rows[1..], AnyAge(q, taken));
      assert ([s] + young)[1..] == young && ([s] + all)[1..] == all;
      assert Map([s] + young, GhostRow) == [GhostRow(s)] + Map(young, GhostRow);
      assert Map([s] + all, GhostRow) == [GhostRow(s)] + Map(all, GhostRow);
      assert ([GhostRow(s)] + Map(young, GhostRow))[1..] == Map(young, GhostRow);
      assert ([GhostRow(s)] + Map(all, GhostRow))[1..] == Map(all, GhostRow);
    }
  }

  /** The board as it would be without the age limit on unmatched scheduled trains. */
  ghost function WithoutAgeLimit(q: Query): seq<Arrival> {
    var rows := LivePart(q) + Map(Filter(Rows(q), AnyAge(q, TakenBy(q))), GhostRow);
    StableSort(Filter(rows, StillShown(q)), ByTime)
  }

  /** When the final cut-off is at least as strict as the age limit, the age limit never shows. */
  lemma AgeLimitIsRedundant(q: Query)
    requires q.cfg.recentlyPassed <= q.cfg.windowPast
    ensures BoardFor(q) == WithoutAgeLimit(q)
  {
    AgeLimitLost(q, Rows(q), TakenBy(q));
    FilterConcat(LivePart(q), GhostPart(q), StillShown(q));
    FilterConcat(LivePart(q), Map(Filter(Rows(q), AnyAge(q, TakenBy(q))), GhostRow), StillShown(q));
  }

  /** An empty store and one scheduled trip, due when the board's look back begins. */
  function LateTrip(cfg: Settings): Query {
    var s := ScheduledTrip("A", "R", None, "N", -cfg.recentlyPassed);
    Query(cfg, map[], StaticStore((stop: string, ahead: int) => [s], (stop: string) => "", (trip: string) => None),
          "N", 0, true, 0)
  }

  lemma NoLiveEntries(q: Query)
    requires q.db == map[] && IsPlatform(q.stopId)
    ensures LiveEntries(q) == [] && LivePart(q) == [] && TakenBy(q) == {}
  {
  }

  /** Otherwise some board lacks a train for the age limit alone. */
  lemma AgeLimitShows(cfg: Settings)
    requires cfg.recentlyPassed > cfg.windowPast
    ensures BoardFor(LateTrip(cfg)) != WithoutAgeLimit(LateTrip(cfg))
  {
    var q := LateTrip(cfg);
    var s := Rows(q)[0];
    NoLiveEntries(q);
    assert Rows(q) == [s];
    assert GhostPart(q) == [];
    assert UnifiedBoard(q) == [] && BoardFor(q) == [];
    assert Filter([s], AnyAge(q, {})) == [s];
    assert Map([s], GhostRow) == [GhostRow(s)];
    assert [] + [GhostRow(s)] == [GhostRow(s)];
    assert Filter([GhostRow(s)], StillShown(q)) == [GhostRow(s)];
    assert StableSort([GhostRow(s)], ByTime) == [GhostRow(s)];
  }

  /** The age limit on unmatched scheduled trains is redundant exactly when boards look back no further than
      it does. */
  lemma AgeLimitIsRedundantIff(cfg: Settings)
    ensures cfg.recentlyPassed <= cfg.windowPast <==>
            forall q: Query | q.cfg == cfg :: BoardFor(q) == WithoutAgeLimit(q)
  {
    if cfg.recentlyPassed <= cfg.windowPast {
      forall q: Query | q.cfg == cfg ensures BoardFor(q) == WithoutAgeLimit(q) {
        AgeLimitIsRedundant(q);
      }
    } else {
      AgeLimitShows(cfg);
      assert LateTrip(cfg).cfg == cfg;
    }
  }
}
