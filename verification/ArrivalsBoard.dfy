/**
 The arrivals board of a stop: live trains read from the store, merged with the schedule, completed
 with scheduled trains nobody has seen, cut off and sorted.
 */
module ArrivalsBoard {
  import opened Models
  import opened Sequences
  import opened SortedSets
  import opened RedisStore
  import opened Matching
  import opened TripIds

  /** The schedule database, as the three lookups the board makes. */
  datatype StaticStore = StaticStore(
    scheduledArrivals: (string, int) -> seq<ScheduledTrip>,
    stopName: string -> string,
    tripMetadata: string -> Option<TripMetadata>)

  /** One request, with the state of the world it is answered in. `stopId` is already upper-case. */
  datatype Query = Query(
    cfg: Settings, db: Db, statics: StaticStore, stopId: string, lookahead: int, useSchedules: bool, now: int)

  // ----- stops and platforms -----

  function UpperChar(c: char): char {
    if 'a' <= c <= 'z' then ((c as int) - 32) as char else c
  }

  /** `upper()` on ASCII text. */
  function Upper(s: string): string {
    Map(s, UpperChar)
  }

  predicate IsPlatform(stopId: string) {
    stopId != "" && (stopId[|stopId| - 1] == 'N' || stopId[|stopId| - 1] == 'S')
  }

  function BaseStop(stopId: string): string {
    if IsPlatform(stopId) then stopId[..|stopId| - 1] else stopId
  }

  function Platforms(stopId: string): seq<string> {
    if IsPlatform(stopId) then [stopId] else [stopId + "N", stopId + "S"]
  }

  function Letter(platform: string): string
    requires platform != ""
  {
    [platform[|platform| - 1]]
  }

  // ----- live entries -----

  function ToEntry(direction: string): ZEntry -> LiveEntry {
    (e: ZEntry) => LiveEntry(e.member, e.score, direction)
  }

  function PlatformEntries(db: Db, platform: string, horizon: int, now: int): seq<LiveEntry>
    requires platform != ""
  {
    Map(GetZset(db, ArrivalsKey(platform), horizon, now), ToEntry(Letter(platform)))
  }

  function Horizon(q: Query): int { q.now + q.lookahead * 60 }

  function StopEntries(db: Db, stopId: string, horizon: int, now: int): seq<LiveEntry> {
    if IsPlatform(stopId) then PlatformEntries(db, stopId, horizon, now)
    else PlatformEntries(db, stopId + "N", horizon, now) + PlatformEntries(db, stopId + "S", horizon, now)
  }

  function LiveEntries(q: Query): seq<LiveEntry> {
    StopEntries(q.db, q.stopId, Horizon(q), q.now)
  }

  function Rows(q: Query): seq<ScheduledTrip> {
    if q.useSchedules then q.statics.scheduledArrivals(BaseStop(q.stopId), q.lookahead) else []
  }

  // ----- one live train -----

  function RouteOf(q: Query, tripId: string): string {
    var live := GetTrip(q.db, tripId, q.now);
    InferRoute(if live.Some? then live.value.routeId else UNKNOWN, tripId)
  }

  function TrainOf(q: Query): LiveEntry -> Train {
    (e: LiveEntry) => Train(e.tripId, e.time, e.direction, RouteOf(q, e.tripId))
  }

  /** Python's `a or b` on optional text: an empty string counts as nothing. */
  function Or(a: Option<string>, b: Option<string>): Option<string> {
    if a.Some? && a.value != "" then a else b
  }

  /** The name of the last stop in the live metadata. */
  function LiveHeadsign(q: Query, tripId: string): Option<string> {
    var live := GetTrip(q.db, tripId, q.now);
    if live.Some? && live.value.stopTimes != []
    then Some(q.statics.stopName(live.value.stopTimes[|live.value.stopTimes| - 1].stopId))
    else None
  }

  const IN_TRANSIT := Some("In Transit")

  function DeepMetadata(q: Query, tripId: string): Option<TripMetadata> {
    var exact := q.statics.tripMetadata(tripId);
    if exact.Some? then exact else q.statics.tripMetadata("%" + tripId)
  }

  function LiveRow(q: Query, e: LiveEntry, pick: Option<ScheduledTrip>): Arrival {
    var route, live := RouteOf(q, e.tripId), LiveHeadsign(q, e.tripId);
    if pick.Some? then
      Arrival(e.tripId, if route != UNKNOWN then route else pick.value.routeId, Or(live, pick.value.headsign),
              e.direction, e.time, true, Live)
    else
      var headsign := Or(live, IN_TRANSIT);
      var meta := if route == UNKNOWN || headsign == IN_TRANSIT then DeepMetadata(q, e.tripId) else None;
      Arrival(e.tripId,
              if route == UNKNOWN && meta.Some? then meta.value.routeId else route,
              if headsign == IN_TRANSIT && meta.Some? then meta.value.headsign else headsign,
              e.direction, e.time, true, if q.useSchedules then LiveAdded else Live)
  }

  // ----- the board -----

  ghost function PicksOf(q: Query, entries: seq<LiveEntry>): (r: seq<Option<ScheduledTrip>>)
    ensures |r| == |entries|
  {
    Picks(Rows(q), Map(entries, TrainOf(q)), q.cfg.fuzzyWindow)
  }

  function LiveRows(q: Query, entries: seq<LiveEntry>, picks: seq<Option<ScheduledTrip>>): (r: seq<Arrival>)
    requires |picks| == |entries|
    ensures |r| == |entries|
    ensures forall i :: 0 <= i < |entries| ==> r[i] == LiveRow(q, entries[i], picks[i])
  {
    if entries == [] then [] else
      var n := |entries| - 1;
      LiveRows(q, entries[..n], picks[..n]) + [LiveRow(q, entries[n], picks[n])]
  }

  predicate WrongPlatform(q: Query, s: ScheduledTrip) {
    IsPlatform(q.stopId) && s.direction != Letter(q.stopId)
  }

  predicate TooOld(q: Query, s: ScheduledTrip) {
    s.arrival < q.now - q.cfg.windowPast
  }

  function IsGhost(q: Query, taken: set<string>): ScheduledTrip -> bool {
    (s: ScheduledTrip) => s.tripId !in taken && !WrongPlatform(q, s) && !TooOld(q, s)
  }

  function GhostRow(s: ScheduledTrip): Arrival {
    Arrival(s.tripId, s.routeId, s.headsign, s.direction, s.arrival, false, Scheduled)
  }

  function GhostRows(q: Query, taken: set<string>): seq<Arrival> {
    Map(Filter(Rows(q), IsGhost(q, taken)), GhostRow)
  }

  ghost function UnifiedBoard(q: Query): seq<Arrival> {
    var entries := LiveEntries(q);
    var picks := PicksOf(q, entries);
    LiveRows(q, entries, picks) + GhostRows(q, Taken(picks))
  }

  function StillShown(q: Query): Arrival -> bool {
    (a: Arrival) => a.arrivalTime >= q.now - q.cfg.recentlyPassed
  }

  function ByTime(a: Arrival): int { a.arrivalTime }

  ghost function BoardFor(q: Query): seq<Arrival> {
    StableSort(Filter(UnifiedBoard(q), StillShown(q)), ByTime)
  }

  // ----- the reader -----

  /** One more train served. */
  lemma PicksOfSnoc(q: Query, entries: seq<LiveEntry>, i: nat)
    requires i < |entries|
    ensures PicksOf(q, entries[..i + 1]) == PicksOf(q, entries[..i])
            + [Pick(Rows(q), TrainOf(q)(entries[i]), Taken(PicksOf(q, entries[..i])), q.cfg.fuzzyWindow)]
  {
    MapSnoc(entries, i, TrainOf(q));
    PicksSnoc(Rows(q), Map(entries[..i], TrainOf(q)), TrainOf(q)(entries[i]), q.cfg.fuzzyWindow);
  }

  lemma LiveRowsPush(q: Query, es: seq<LiveEntry>, picks: seq<Option<ScheduledTrip>>, e: LiveEntry,
    p: Option<ScheduledTrip>)
    requires |es| == |picks|
    ensures LiveRows(q, es + [e], picks + [p]) == LiveRows(q, es, picks) + [LiveRow(q, e, p)]
  {
    assert (es + [e])[..|es|] == es && (picks + [p])[..|es|] == picks;
  }

  /** The loop's state once `done` have been served. */
  ghost predicate Merged(
    q: Query, done: seq<LiveEntry>, picks: seq<Option<ScheduledTrip>>, rows: seq<Arrival>, taken: set<string>)
  {
    picks == PicksOf(q, done) && rows == LiveRows(q, done, picks) && taken == Taken(picks)
  }

  lemma MergeStart(q: Query, entries: seq<LiveEntry>)
    ensures Merged(q, entries[..0], [], [], {})
  {
  }

  lemma MergeStep(
    q: Query, entries: seq<LiveEntry>, i: nat, picks: seq<Option<ScheduledTrip>>, rows: seq<Arrival>,
    taken: set<string>, best: Option<ScheduledTrip>)
    requires i < |entries| && Merged(q, entries[..i], picks, rows, taken)
    requires best == Pick(Rows(q), TrainOf(q)(entries[i]), taken, q.cfg.fuzzyWindow)
    ensures Merged(q, entries[..i + 1], picks + [best], rows + [LiveRow(q, entries[i], best)],
                   if best.Some? then taken + {best.value.tripId} else taken)
  {
    PicksOfSnoc(q, entries, i);
    assert entries[..i + 1] == entries[..i] + [entries[i]];
    LiveRowsPush(q, entries[..i], picks, entries[i], best);
    TakenSnoc(picks, best);
  }

  lemma GhostStep(q: Query, taken: set<string>, rows: seq<ScheduledTrip>, i: nat, before: seq<Arrival>)
    requires i < |rows|
    ensures var kept := IsGhost(q, taken);
            before + Map(Filter(rows[..i + 1], kept), GhostRow)
            == before + Map(Filter(rows[..i], kept), GhostRow) + if kept(rows[i]) then [GhostRow(rows[i])] else []
  {
    var kept := IsGhost(q, taken);
    FilterSnoc(rows, i, kept);
    var shown := Filter(rows[..i], kept);
    if kept(rows[i]) {
      MapPush(shown, rows[i], GhostRow);
    } else {
      assert shown + [] == shown;
    }
  }

  lemma NoRowsNoPick(t: Train, taken: set<string>, window: int)
    ensures Pick([], t, taken, window) == None
  {
    NearestExists([], t, taken, window);
  }

  class StopReader {
    const cfg: Settings
    const store: RedisStateStore
    const statics: StaticStore

    constructor (cfg: Settings, store: RedisStateStore, statics: StaticStore)
      ensures this.cfg == cfg && this.store == store && this.statics == statics
    {
      this.cfg, this.store, this.statics := cfg, store, statics;
    }

    method GetArrivalsBoard(stopId: string, lookahead: int, getSchedules: bool, now: int)
      returns (board: seq<Arrival>)
      ensures board == BoardFor(Query(cfg, store.db, statics, Upper(stopId), lookahead, getSchedules, now))
    {
      var q := Query(cfg, store.db, statics, Upper(stopId), lookahead, getSchedules, now);
      var entries := GatherLive(q);
      var rows := if getSchedules then statics.scheduledArrivals(BaseStop(q.stopId), lookahead) else [];
      var order, byId, groups := IndexSchedule(rows);
      var liveRows, taken := MergeLive(q, entries, order, byId, groups);
      var unified := AddGhosts(q, rows, liveRows, taken);
      board := StableSort(Filter(unified, StillShown(q)), ByTime);
    }

    method GatherLive(q: Query) returns (entries: seq<LiveEntry>)
      ensures entries == LiveEntries(q)
    {
      entries := [];
      var platforms := Platforms(q.stopId);
      for i := 0 to |platforms|
        invariant i == 0 ==> entries == []
        invariant i == 1 ==> entries == PlatformEntries(q.db, platforms[0], Horizon(q), q.now)
        invariant i == 2 ==> entries == LiveEntries(q)
      {
        var p := platforms[i];
        var zset := GetZset(q.db, ArrivalsKey(p), Horizon(q), q.now);
        var more := AppendEntries(entries, zset, Letter(p));
        assert entries == [] ==> more == Map(zset, ToEntry(Letter(p)));
        entries := more;
      }
    }

    method AppendEntries(before: seq<LiveEntry>, zset: seq<ZEntry>, direction: string) returns (entries: seq<LiveEntry>)
      ensures entries == before + Map(zset, ToEntry(direction))
    {
      entries := before;
      for j := 0 to |zset|
        invariant entries == before + Map(zset[..j], ToEntry(direction))
      {
        MapSnoc(zset, j, ToEntry(direction));
        entries := entries + [LiveEntry(zset[j].member, zset[j].score, direction)];
      }
      assert zset[..|zset|] == zset;
    }

    /** The scheduled trip for one live entry: by identifier unless that trip is taken, else the nearest. */
    method Choose(
      q: Query, e: LiveEntry, order: seq<string>, byId: map<string, ScheduledTrip>, groups: Groups, taken: set<string>)
      returns (best: Option<ScheduledTrip>)
      requires Indexes(Rows(q), order, byId, groups)
      ensures best == Pick(Rows(q), TrainOf(q)(e), taken, q.cfg.fuzzyWindow)
    {
      if !q.useSchedules {
        NoRowsNoPick(TrainOf(q)(e), taken, q.cfg.fuzzyWindow);
        return None;
      }
      best := FindById(Rows(q), order, byId, groups, e.tripId);
      if best.Some? && best.value.tripId in taken {
        best := None;
      }
      var route := RouteOf(q, e.tripId);
      if best.None? && route != UNKNOWN {
        best := FindNearest(GroupOf(groups, route, e.direction), TrainOf(q)(e), taken, q.cfg.fuzzyWindow);
      }
    }

    /** One row per live entry, in order; each match is recorded before the next entry is served. */
    method MergeLive(
      q: Query, entries: seq<LiveEntry>, order: seq<string>, byId: map<string, ScheduledTrip>, groups: Groups)
      returns (unified: seq<Arrival>, taken: set<string>)
      requires Indexes(Rows(q), order, byId, groups)
      ensures unified == LiveRows(q, entries, PicksOf(q, entries))
      ensures taken == Taken(PicksOf(q, entries))
    {
      unified, taken := [], {};
      ghost var picks: seq<Option<ScheduledTrip>> := [];
      MergeStart(q, entries);
      for i := 0 to |entries|
        invariant Merged(q, entries[..i], picks, unified, taken)
      {
        var best := Choose(q, entries[i], order, byId, groups, taken);
        MergeStep(q, entries, i, picks, unified, taken, best);
        if best.Some? {
          taken := taken + {best.value.tripId};
        }
        unified := unified + [LiveRow(q, entries[i], best)];
        picks := picks + [best];
      }
      assert entries[..|entries|] == entries;
    }

    method AddGhosts(q: Query, rows: seq<ScheduledTrip>, liveRows: seq<Arrival>, taken: set<string>)
      returns (unified: seq<Arrival>)
      requires rows == Rows(q)
      ensures unified == liveRows + GhostRows(q, taken)
    {
      unified := liveRows;
      ghost var kept := IsGhost(q, taken);
      for i := 0 to |rows|
        invariant unified == liveRows + Map(Filter(rows[..i], kept), GhostRow)
      {
        var s := rows[i];
        GhostStep(q, taken, rows, i, liveRows);
        if s.tripId !in taken {
          if IsPlatform(q.stopId) && s.direction != Letter(q.stopId) {
            continue;
          }
          if s.arrival < q.now - q.cfg.windowPast {
            continue;
          }
          unified := unified + [GhostRow(s)];
        }
      }
      assert rows[..|rows|] == rows;
    }
  }
}
