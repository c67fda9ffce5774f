/**
 What the parts of a board are, said in the store's cells, the schedule's rows and plain text, without
 the functions that compute them.
 */
module PlainTerms {
  import opened Models
  import opened Sequences
  import opened SortedSets
  import opened RedisStore
  import opened History
  import opened TripIds
  import opened ArrivalsBoard
  import opened BoardLaws

  // ----- stops -----

  const SMALL := "abcdefghijklmnopqrstuvwxyz"
  const CAPITAL := "ABCDEFGHIJKLMNOPQRSTUVWXYZ"

  /** Small letters become the capitals of the same place in the alphabet; nothing else changes. */
  lemma UpperMeaning(s: string)
    ensures |Upper(s)| == |s|
    ensures forall i, k | 0 <= i < |s| && 0 <= k < 26 && s[i] == SMALL[k] :: Upper(s)[i] == CAPITAL[k]
    ensures forall i | 0 <= i < |s| && s[i] !in SMALL :: Upper(s)[i] == s[i]
  {
    forall i, k | 0 <= i < |s| && 0 <= k < 26 && s[i] == SMALL[k] ensures Upper(s)[i] == CAPITAL[k] {
      LetterUp(k);
    }
    forall i | 0 <= i < |s| && s[i] !in SMALL ensures Upper(s)[i] == s[i] {
      IsSmall(s[i]);
    }
  }

  lemma LetterUp(k: int)
    requires 0 <= k < 26
    ensures UpperChar(SMALL[k]) == CAPITAL[k]
  {
    assert SMALL[k] as int == 'a' as int + k && CAPITAL[k] as int == 'A' as int + k;
  }

  lemma IsSmall(c: char)
    ensures 'a' <= c <= 'z' ==> c in SMALL
  {
    if 'a' <= c <= 'z' {
      assert SMALL[c as int - 'a' as int] == c;
    }
  }

  ghost predicate EndsIn(s: string, letter: string) { exists base :: s == base + letter }

  lemma EndsInLetter(s: string, letter: string)
    requires letter == "N" || letter == "S"
    ensures EndsIn(s, letter) <==> s != "" && [s[|s| - 1]] == letter
  {
    if s != "" && [s[|s| - 1]] == letter {
      assert s == s[..|s| - 1] + letter;
    }
  }

  lemma PlatformEnds(s: string)
    ensures IsPlatform(s) <==> EndsIn(s, "N") || EndsIn(s, "S")
  {
    EndsInLetter(s, "N");
    EndsInLetter(s, "S");
  }

  /** The stop that the schedule is asked for: the request's without its platform letter. */
  lemma RowsMeaning(q: Query, base: string)
    ensures !q.useSchedules ==> Rows(q) == []
    ensures q.useSchedules && (q.stopId == base + "N" || q.stopId == base + "S") ==>
              Rows(q) == q.statics.scheduledArrivals(base, q.lookahead)
    ensures q.useSchedules && !EndsIn(q.stopId, "N") && !EndsIn(q.stopId, "S") ==>
              Rows(q) == q.statics.scheduledArrivals(q.stopId, q.lookahead)
  {
    PlatformEnds(q.stopId);
    assert (base + "N")[..|base|] == base && (base + "S")[..|base|] == base;
  }

  // ----- live entries -----

  /** A reader of `stopId` reads platform `p`, whose letter is `letter`: the platform asked for, or both of a
      station. */
  ghost predicate Serves(stopId: string, p: string, letter: string) {
    && (letter == "N" || letter == "S")
    && (if EndsIn(stopId, "N") || EndsIn(stopId, "S") then p == stopId && EndsIn(p, letter) else p == stopId + letter)
  }

  lemma ListedAt(db: Db, p: string, horizon: int, now: int, e: LiveEntry)
    requires p != ""
    ensures e in PlatformEntries(db, p, horizon, now) <==>
            StoredTime(db, p, e.tripId, e.time, now) && 0 <= e.time <= horizon && e.direction == [p[|p| - 1]]
  {
    var m, es := Members(db, ArrivalsKey(p), now), PlatformEntries(db, p, horizon, now);
    var zset, z := RangeByScore(m, 0, horizon), ZEntry(e.tripId, e.time);
    MembersMeaning(db, p, e.tripId, e.time, now);
    InOrderSorted(m);
    if e in es {
      var i :| 0 <= i < |es| && es[i] == e;
      assert zset[i] in zset;
    }
    if z in zset && e.direction == [p[|p| - 1]] {
      var i :| 0 <= i < |zset| && zset[i] == z;
      assert es[i] == e;
    }
  }

  lemma ServesPlatform(stopId: string, p: string, letter: string)
    requires IsPlatform(stopId)
    ensures Serves(stopId, p, letter) <==> p == stopId && letter == [stopId[|stopId| - 1]]
  {
    PlatformEnds(stopId);
    EndsInLetter(stopId, "N");
    EndsInLetter(stopId, "S");
  }

  lemma ServesStation(stopId: string, p: string, letter: string)
    requires !IsPlatform(stopId)
    ensures Serves(stopId, p, letter) <==> (letter == "N" || letter == "S") && p == stopId + letter
  {
    PlatformEnds(stopId);
  }

  /** A train is listed if and only if the store holds it at a platform the reader reads, for a time that is
      not negative and at most `lookahead` minutes ahead. */
  ghost predicate IsListed(q: Query, e: LiveEntry) {
    exists p :: Serves(q.stopId, p, e.direction) && StoredTime(q.db, p, e.tripId, e.time, q.now)
                && 0 <= e.time <= q.now + 60 * q.lookahead
  }

  lemma ListedOnOne(q: Query, e: LiveEntry)
    requires IsPlatform(q.stopId)
    ensures e in PlatformEntries(q.db, q.stopId, q.now + 60 * q.lookahead, q.now) <==> IsListed(q, e)
  {
    var stop := q.stopId;
    ListedAt(q.db, stop, q.now + 60 * q.lookahead, q.now, e);
    forall p ensures Serves(stop, p, e.direction) <==> p == stop && e.direction == [stop[|stop| - 1]] {
      ServesPlatform(stop, p, e.direction);
    }
  }

  lemma ListedNeedsPlatform(q: Query, e: LiveEntry)
    requires !IsPlatform(q.stopId)
    ensures var p := q.stopId + e.direction;
            IsListed(q, e) <==>
            (e.direction == "N" || e.direction == "S") && StoredTime(q.db, p, e.tripId, e.time, q.now)
            && 0 <= e.time <= q.now + 60 * q.lookahead
  {
    ServesStation(q.stopId, q.stopId + e.direction, e.direction);
    if p :| Serves(q.stopId, p, e.direction) && StoredTime(q.db, p, e.tripId, e.time, q.now)
            && 0 <= e.time <= q.now + 60 * q.lookahead
    {
      ServesStation(q.stopId, p, e.direction);
    }
  }

  lemma ListedAtLetter(q: Query, letter: string, e: LiveEntry)
    requires letter == "N" || letter == "S"
    ensures e in PlatformEntries(q.db, q.stopId + letter, q.now + 60 * q.lookahead, q.now) <==>
            StoredTime(q.db, q.stopId + letter, e.tripId, e.time, q.now)
            && 0 <= e.time <= q.now + 60 * q.lookahead && e.direction == letter
  {
    var p := q.stopId + letter;
    assert [p[|p| - 1]] == letter;
    ListedAt(q.db, p, q.now + 60 * q.lookahead, q.now, e);
  }

  lemma ListedOnEither(q: Query, e: LiveEntry)
    requires !IsPlatform(q.stopId)
    ensures var horizon := q.now + 60 * q.lookahead;
            var n, s := q.stopId + "N", q.stopId + "S";
            (e in PlatformEntries(q.db, n, horizon, q.now) || e in PlatformEntries(q.db, s, horizon, q.now))
            <==> IsListed(q, e)
  {
    ListedNeedsPlatform(q, e);
    ListedAtLetter(q, "N", e);
    ListedAtLetter(q, "S", e);
  }

  lemma ListedMeaning(q: Query, e: LiveEntry)
    ensures e in LiveEntries(q) <==> IsListed(q, e)
  {
    if IsPlatform(q.stopId) {
      ListedOnOne(q, e);
    } else {
      ListedOnEither(q, e);
    }
  }

  /** `a` is served before `b`: northbound first, then by time, then by identifier. */
  predicate ServedFirst(a: LiveEntry, b: LiveEntry) {
    || (a.direction == "N" && b.direction == "S")
    || (a.direction == b.direction && (a.time < b.time || (a.time == b.time && LexLess(a.tripId, b.tripId))))
  }

  lemma PlatformOrder(db: Db, p: string, horizon: int, now: int, i: int, j: int)
    requires p != "" && 0 <= i < j < |PlatformEntries(db, p, horizon, now)|
    ensures ServedFirst(PlatformEntries(db, p, horizon, now)[i], PlatformEntries(db, p, horizon, now)[j])
  {
    var m := Members(db, ArrivalsKey(p), now);
    InOrderSorted(m);
    FilterOrdered(InOrder(m), InRange(0, horizon));
    var zset := RangeByScore(m, 0, horizon);
    assert Before(zset[i], zset[j]);
  }

  lemma StationOrder(north: seq<LiveEntry>, south: seq<LiveEntry>, i: int, j: int)
    requires 0 <= i < j < |north + south|
    requires forall e | e in north :: e.direction == "N"
    requires forall e | e in south :: e.direction == "S"
    requires forall a, b | 0 <= a < b < |north| :: ServedFirst(north[a], north[b])
    requires forall a, b | 0 <= a < b < |south| :: ServedFirst(south[a], south[b])
    ensures ServedFirst((north + south)[i], (north + south)[j])
  {
  }

  lemma EntriesInOrder(q: Query, i: int, j: int)
    requires 0 <= i < j < |LiveEntries(q)|
    ensures ServedFirst(LiveEntries(q)[i], LiveEntries(q)[j])
  {
    if IsPlatform(q.stopId) {
      PlatformOrder(q.db, q.stopId, Horizon(q), q.now, i, j);
    } else {
      var n, s := q.stopId + "N", q.stopId + "S";
      OnePlatform(q.db, n, Horizon(q), q.now);
      OnePlatform(q.db, s, Horizon(q), q.now);
      assert Letter(n) == "N" && Letter(s) == "S";
      StationOrder(PlatformEntries(q.db, n, Horizon(q), q.now), PlatformEntries(q.db, s, Horizon(q), q.now), i, j);
    }
  }

  lemma OnePlatform(db: Db, p: string, horizon: int, now: int)
    requires p != ""
    ensures var es := PlatformEntries(db, p, horizon, now);
            && (forall e | e in es :: e.direction == Letter(p))
            && (forall a, b | 0 <= a < b < |es| :: ServedFirst(es[a], es[b]))
  {
    var es := PlatformEntries(db, p, horizon, now);
    forall e | e in es ensures e.direction == Letter(p) {
      ListedAt(db, p, horizon, now, e);
    }
    forall a, b | 0 <= a < b < |es| ensures ServedFirst(es[a], es[b]) {
      PlatformOrder(db, p, horizon, now, a, b);
    }
  }

  // ----- the route of a live train -----

  /** The live metadata of the trip names a route. */
  ghost predicate NamesRoute(q: Query, k: string, route: string) {
    route != "???" && exists u :: StoredTrip(q.db, k, u, q.now) && u.routeId == route
  }

  /** The trip identifier spells a route. */
  ghost predicate SpellsRoute(k: string, route: string) {
    route != "???" && exists prefix, tail :: LaidOut(k, prefix, route, tail)
  }

  /** A route named by the live metadata is the train's, whatever its identifier looks like; without one it is
      the route its identifier spells; and it is unknown exactly when neither tells. */
  lemma RouteMeaning(q: Query, k: string)
    ensures forall route | NamesRoute(q, k, route) :: RouteOf(q, k) == route
    ensures (forall route :: !NamesRoute(q, k, route)) ==>
              forall route | SpellsRoute(k, route) :: RouteOf(q, k) == route
    ensures RouteOf(q, k) == "???" <==> forall route :: !NamesRoute(q, k, route) && !SpellsRoute(k, route)
  {
    var live, route := GetTrip(q.db, k, q.now), RouteOf(q, k);
    forall u ensures StoredTrip(q.db, k, u, q.now) <==> live == Some(u) {
      GetTripMeaning(q.db, k, u, q.now);
    }
    if live.Some? && live.value.routeId != "???" {
      assert NamesRoute(q, k, live.value.routeId);
    } else {
      forall r | SpellsRoute(k, r) ensures route == r {
        InferenceInvertsLayout(k, r);
      }
      InferenceInvertsLayout(k, route);
      assert route != "???" ==> SpellsRoute(k, route);
    }
  }

  /** Over runs: the route in the last metadata written for the trip, while that is in force. */
  lemma RouteOverRuns(cfg: Settings, run: seq<Batch>, q: Query, i: int, k: string)
    requires q.db == StoreAfter(cfg, run) && LastMentioned(run, i, k) && q.now < run[i].at + cfg.tripTtl
    requires run[i].Metadata(k).value.routeId != "???"
    ensures RouteOf(q, k) == run[i].Metadata(k).value.routeId
  {
    TripKeyRefinesHistory(cfg, run, k);
    assert StoredTrip(q.db, k, run[i].Metadata(k).value, q.now);
    assert NamesRoute(q, k, run[i].Metadata(k).value.routeId);
    RouteMeaning(q, k);
  }

  // ----- the texts of a live row -----

  /** The live metadata of the trip ends at a stop of this name. */
  ghost predicate EndsAt(q: Query, k: string, name: string) {
    exists u, before, last ::
      StoredTrip(q.db, k, u, q.now) && u.stopTimes == before + [last] && q.statics.stopName(last.stopId) == name
  }

  lemma HeadsignMeaning(q: Query, k: string, name: string)
    ensures LiveHeadsign(q, k) == Some(name) <==> EndsAt(q, k, name)
  {
    var live := GetTrip(q.db, k, q.now);
    if live.Some? {
      GetTripMeaning(q.db, k, live.value, q.now);
      var stops := live.value.stopTimes;
      if stops != [] && LiveHeadsign(q, k) == Some(name) {
        assert stops == stops[..|stops| - 1] + [stops[|stops| - 1]];
      }
    }
    if u, before, last :|
        StoredTrip(q.db, k, u, q.now) && u.stopTimes == before + [last] && q.statics.stopName(last.stopId) == name
    {
      GetTripMeaning(q.db, k, u, q.now);
      assert u.stopTimes[|u.stopTimes| - 1] == last;
    }
  }

  /** What the static metadata knows of the trip, by its identifier or by any identifier that ends with it. */
  function Static(q: Query, k: string): Option<TripMetadata> {
    if q.statics.tripMetadata(k).Some? then q.statics.tripMetadata(k) else q.statics.tripMetadata("%" + k)
  }

  /** The route shown: the live metadata's, else the identifier's, else the matched row's, else the static
      metadata's, else "???". */
  lemma LiveRowRoute(q: Query, e: LiveEntry, pick: Option<ScheduledTrip>)
    ensures var shown, k := LiveRow(q, e, pick).routeId, e.tripId;
            && (forall route | NamesRoute(q, k, route) :: shown == route)
            && ((forall route :: !NamesRoute(q, k, route)) ==> forall route | SpellsRoute(k, route) :: shown == route)
            && ((forall route :: !NamesRoute(q, k, route) && !SpellsRoute(k, route)) ==>
                  shown == if pick.Some? then pick.value.routeId
                           else if Static(q, k).Some? then Static(q, k).value.routeId else "???")
  {
    var k := e.tripId;
    RouteMeaning(q, k);
    if RouteOf(q, k) != "???" {
      assert LiveRow(q, e, pick).routeId == RouteOf(q, k);
    }
  }

  /** The headsign shown: the name of the last live stop; for a matched train any name but an empty one, for
      another train any but "In Transit" too. Else the matched row's, else the static metadata's, else
      "In Transit". */
  lemma LiveRowHeadsign(q: Query, e: LiveEntry, pick: Option<ScheduledTrip>)
    ensures var shown, k := LiveRow(q, e, pick).headsign, e.tripId;
            var usable := (name: string) => name != "" && (pick.Some? || name != "In Transit");
            && (forall name | EndsAt(q, k, name) && usable(name) :: shown == Some(name))
            && ((forall name | EndsAt(q, k, name) :: !usable(name)) ==>
                  shown == if pick.Some? then pick.value.headsign
                           else if Static(q, k).Some? then Static(q, k).value.headsign else Some("In Transit"))
  {
    forall name ensures LiveHeadsign(q, e.tripId) == Some(name) <==> EndsAt(q, e.tripId, name) {
      HeadsignMeaning(q, e.tripId, name);
    }
  }

  /** The row of the `i`-th live train: its own identifier, platform and time, and a status that says whether
      the schedule was consulted and had no trip for it. */
  lemma LiveRowOf(q: Query, i: int)
    requires 0 <= i < |LiveEntries(q)|
    ensures var e, a, pick := LiveEntries(q)[i], LivePart(q)[i], LivePicks(q)[i];
            && a == LiveRow(q, e, pick)
            && a.tripId == e.tripId && a.direction == e.direction && a.arrivalTime == e.time && a.isRealtime
            && a.status == if q.useSchedules && pick.None? then LiveAdded else Live
  {
    LiveStatus(q, i);
  }

  /** No row of a board is due before the row above it. */
  lemma TimeOrder(q: Query, i: int, j: int)
    requires 0 <= i < j < |BoardFor(q)|
    ensures BoardFor(q)[i].arrivalTime <= BoardFor(q)[j].arrivalTime
  {
    var board := BoardFor(q);
    BoardIsSorted(q);
    assert ByTime(board[i]) <= ByTime(board[j]);
  }

  // ----- scheduled rows -----

  /** The board shows an unmatched row of the schedule as it stands if and only if the row runs the way of the
      platform asked for, if one is, and is neither past the window nor past the cut-off. */
  ghost predicate IsScheduledRow(q: Query, s: ScheduledTrip) {
    && s in Rows(q) && s.tripId !in TakenBy(q)
    && (EndsIn(q.stopId, "N") ==> s.direction == "N") && (EndsIn(q.stopId, "S") ==> s.direction == "S")
    && s.arrival >= q.now - q.cfg.windowPast && s.arrival >= q.now - q.cfg.recentlyPassed
  }

  lemma RightPlatform(q: Query, s: ScheduledTrip)
    ensures !WrongPlatform(q, s) <==>
            (EndsIn(q.stopId, "N") ==> s.direction == "N") && (EndsIn(q.stopId, "S") ==> s.direction == "S")
  {
    PlatformEnds(q.stopId);
    EndsInLetter(q.stopId, "N");
    EndsInLetter(q.stopId, "S");
  }

  lemma ScheduledRowMeaning(q: Query, a: Arrival)
    ensures a in BoardFor(q) && !a.isRealtime <==>
            exists s :: IsScheduledRow(q, s) &&
              a == Arrival(s.tripId, s.routeId, s.headsign, s.direction, s.arrival, false, Scheduled)
  {
    if a in BoardFor(q) && !a.isRealtime {
      var s := ScheduledRowOrigin(q, a);
      RightPlatform(q, s);
      BoardIsSorted(q);
      assert IsScheduledRow(q, s);
    }
    if s :| IsScheduledRow(q, s) &&
            a == Arrival(s.tripId, s.routeId, s.headsign, s.direction, s.arrival, false, Scheduled)
    {
      RightPlatform(q, s);
      GhostListed(q, s);
      BoardMembers(q, a);
    }
  }

  lemma GhostListed(q: Query, s: ScheduledTrip)
    requires s in Rows(q) && s.tripId !in TakenBy(q) && !WrongPlatform(q, s) && s.arrival >= q.now - q.cfg.windowPast
    ensures GhostRow(s) in GhostPart(q)
  {
    assert IsGhost(q, TakenBy(q))(s);
    var kept := Filter(Rows(q), IsGhost(q, TakenBy(q)));
    var i :| 0 <= i < |kept| && kept[i] == s;
    assert GhostPart(q)[i] == GhostRow(s);
  }
}
