/** A station's board is its two platforms' boards merged: the directions do not interfere. */
module Directions {
  import opened Models
  import opened Sequences
  import opened RedisStore
  import opened Matching
  import opened ArrivalsBoard
  import opened BoardLaws

  // ----- matching -----

  /** Each scheduled trip runs one way. */
  ghost predicate OneWay(rows: seq<ScheduledTrip>) {
    forall r, s :: r in rows && s in rows && r.tripId == s.tripId ==> r.direction == s.direction
  }

  /** The row a train's identifier selects, if any, runs the train's way. */
  ghost predicate HitsAgree(rows: seq<ScheduledTrip>, trains: seq<Train>) {
    forall t :: t in trains && IdHit(rows, t.tripId).Some? ==> IdHit(rows, t.tripId).value.direction == t.direction
  }

  ghost predicate AllHead(trains: seq<Train>, direction: string) {
    forall t :: t in trains ==> t.direction == direction
  }

  /** Every row named by `ids` runs `direction`. */
  ghost predicate NamesOnly(rows: seq<ScheduledTrip>, ids: set<string>, direction: string) {
    forall r :: r in rows && r.tripId in ids ==> r.direction == direction
  }

  lemma PickDirection(rows: seq<ScheduledTrip>, t: Train, taken: set<string>, window: int)
    requires IdHit(rows, t.tripId).Some? ==> IdHit(rows, t.tripId).value.direction == t.direction
    ensures var p := Pick(rows, t, taken, window); p.Some? ==> p.value in rows && p.value.direction == t.direction
  {
    IdHitMeaning(rows, t.tripId);
    var group := Group(rows, t.route, t.direction);
    NearestExists(group, t, taken, window);
    assert forall r | r in group :: InGroup(t.route, t.direction)(r);
  }

  lemma TakenOneWay(rows: seq<ScheduledTrip>, trains: seq<Train>, window: int, direction: string)
    requires OneWay(rows) && HitsAgree(rows, trains) && AllHead(trains, direction)
    ensures NamesOnly(rows, Taken(Picks(rows, trains, window)), direction)
  {
    var picks := Picks(rows, trains, window);
    forall r | r in rows && r.tripId in Taken(picks) ensures r.direction == direction {
      var i :| 0 <= i < |picks| && picks[i].Some? && picks[i].value.tripId == r.tripId;
      PickAt(rows, trains, window, i);
      assert trains[i] in trains;
      PickDirection(rows, trains[i], Taken(Picks(rows, trains[..i], window)), window);
    }
  }

  lemma NearestIgnores(cs: seq<ScheduledTrip>, t: Train, taken: set<string>, foreign: set<string>, window: int)
    requires forall c | c in cs :: c.tripId !in foreign
    ensures Nearest(cs, t, taken + foreign, window) == Nearest(cs, t, taken, window)
  {
    forall i | 0 <= i < |cs| ensures Eligible(cs[i], t, taken + foreign, window) == Eligible(cs[i], t, taken, window) {
      assert cs[i] in cs;
    }
    forall i ensures IsNearest(cs, i, t, taken + foreign, window) <==> IsNearest(cs, i, t, taken, window) { }
    if i :| IsNearest(cs, i, t, taken, window) {
      NearestUnique(cs, i, t, taken, window);
      NearestUnique(cs, i, t, taken + foreign, window);
    }
  }

  /** What trains of the other direction have taken does not matter to a train. */
  lemma PickIgnores(rows: seq<ScheduledTrip>, t: Train, taken: set<string>, foreign: set<string>, other: string,
    window: int)
    requires IdHit(rows, t.tripId).Some? ==> IdHit(rows, t.tripId).value.direction == t.direction
    requires NamesOnly(rows, foreign, other) && t.direction != other
    ensures Pick(rows, t, taken + foreign, window) == Pick(rows, t, taken, window)
  {
    IdHitMeaning(rows, t.tripId);
    var group := Group(rows, t.route, t.direction);
    forall c | c in group ensures c.tripId !in foreign {
      assert InGroup(t.route, t.direction)(c);
    }
    NearestIgnores(group, t, taken, foreign, window);
  }

  lemma TakenConcat(a: seq<Option<ScheduledTrip>>, b: seq<Option<ScheduledTrip>>)
    ensures Taken(a + b) == Taken(a) + Taken(b)
  {
    if b == [] {
      assert a + b == a;
    } else {
      var n := |b| - 1;
      assert a + b == (a + b[..n]) + [b[n]] && b == b[..n] + [b[n]];
      TakenSnoc(a + b[..n], b[n]);
      TakenSnoc(b[..n], b[n]);
      TakenConcat(a, b[..n]);
    }
  }

  lemma LastApart<T>(a: seq<T>, b: seq<T>)
    requires b != []
    ensures b == b[..|b| - 1] + [b[|b| - 1]] && a + b == (a + b[..|b| - 1]) + [b[|b| - 1]]
  {
  }

  /** One more train of the second direction. */
  lemma PicksSplitSnoc(rows: seq<ScheduledTrip>, a: seq<Train>, b: seq<Train>, t: Train, da: string, window: int)
    requires Picks(rows, a + b, window) == Picks(rows, a, window) + Picks(rows, b, window)
    requires NamesOnly(rows, Taken(Picks(rows, a, window)), da) && t.direction != da
    requires IdHit(rows, t.tripId).Some? ==> IdHit(rows, t.tripId).value.direction == t.direction
    ensures Picks(rows, (a + b) + [t], window) == Picks(rows, a, window) + Picks(rows, b + [t], window)
  {
    var pa, pb := Picks(rows, a, window), Picks(rows, b, window);
    var p := Pick(rows, t, Taken(pb), window);
    PicksSnoc(rows, a + b, t, window);
    PicksSnoc(rows, b, t, window);
    TakenConcat(pa, pb);
    assert Taken(pa + pb) == Taken(pb) + Taken(pa);
    PickIgnores(rows, t, Taken(pb), Taken(pa), da, window);
    assert (pa + pb) + [p] == pa + (pb + [p]);
  }

  /** Serving the trains of one direction and then those of another gives each what it would have got
      alone. */
  lemma {:induction false} PicksSplit(
    rows: seq<ScheduledTrip>, a: seq<Train>, da: string, b: seq<Train>, db: string, window: int)
    requires OneWay(rows) && HitsAgree(rows, a) && HitsAgree(rows, b)
    requires AllHead(a, da) && AllHead(b, db) && da != db
    ensures Picks(rows, a + b, window) == Picks(rows, a, window) + Picks(rows, b, window)
  {
    if b == [] {
      assert a + b == a;
      assert Picks(rows, a, window) + [] == Picks(rows, a, window);
    } else {
      var b0, t := b[..|b| - 1], b[|b| - 1];
      assert t in b && forall u | u in b0 :: u in b;
      PicksSplit(rows, a, da, b0, db, window);
      TakenOneWay(rows, a, window, da);
      PicksSplitSnoc(rows, a, b0, t, da, window);
      LastApart(a, b);
    }
  }

  // ----- boards -----

  function Platform(q: Query, letter: string): Query { q.(stopId := q.stopId + letter) }

  /** Every row runs north or south, each trip one way, and no identifier points a live train at a row
      of the other direction. */
  ghost predicate Separable(q: Query) {
    && (forall r | r in Rows(q) :: r.direction == "N" || r.direction == "S")
    && OneWay(Rows(q)) && HitsAgree(Rows(q), Trains(q))
  }

  lemma PlatformName(stopId: string, letter: string)
    requires !IsPlatform(stopId) && letter in ["N", "S"]
    ensures var p := stopId + letter;
            IsPlatform(p) && BaseStop(p) == stopId && BaseStop(stopId) == stopId && Letter(p) == letter
  {
    assert (stopId + letter)[..|stopId|] == stopId;
  }

  lemma EntriesHead(db: Db, p: string, horizon: int, now: int)
    requires p != ""
    ensures forall e | e in PlatformEntries(db, p, horizon, now) :: e.direction == Letter(p)
  {
    var entries := PlatformEntries(db, p, horizon, now);
    assert forall i | 0 <= i < |entries| :: entries[i].direction == Letter(p);
  }

  lemma TrainsHead(q: Query, direction: string)
    requires forall e | e in LiveEntries(q) :: e.direction == direction
    ensures AllHead(Trains(q), direction)
  {
    forall t | t in Trains(q) ensures t.direction == direction {
      var i :| 0 <= i < |Trains(q)| && Trains(q)[i] == t;
      assert LiveEntries(q)[i] in LiveEntries(q);
    }
  }

  lemma PlatformQuery(q: Query, letter: string)
    requires !IsPlatform(q.stopId) && letter in ["N", "S"]
    ensures Rows(Platform(q, letter)) == Rows(q)
    ensures LiveEntries(Platform(q, letter)) == PlatformEntries(q.db, q.stopId + letter, Horizon(q), q.now)
    ensures AllHead(Trains(Platform(q, letter)), letter)
  {
    PlatformName(q.stopId, letter);
    EntriesHead(q.db, q.stopId + letter, Horizon(q), q.now);
    TrainsHead(Platform(q, letter), letter);
  }

  lemma TrainsMeaning(q: Query, letter: string)
    ensures Trains(Platform(q, letter)) == Map(LiveEntries(Platform(q, letter)), TrainOf(q))
  {
    var entries, p := LiveEntries(Platform(q, letter)), Platform(q, letter);
    forall i | 0 <= i < |entries| ensures TrainOf(p)(entries[i]) == TrainOf(q)(entries[i]) { }
  }

  /** The station serves the trains of its north platform, then those of its south platform. */
  lemma StationTrains(q: Query)
    requires !IsPlatform(q.stopId)
    ensures Trains(q) == Trains(Platform(q, "N")) + Trains(Platform(q, "S"))
    ensures LiveEntries(q) == LiveEntries(Platform(q, "N")) + LiveEntries(Platform(q, "S"))
  {
    PlatformQuery(q, "N");
    PlatformQuery(q, "S");
    TrainsMeaning(q, "N");
    TrainsMeaning(q, "S");
    MapConcat(LiveEntries(Platform(q, "N")), LiveEntries(Platform(q, "S")), TrainOf(q));
  }

  lemma StationPicks(q: Query)
    requires !IsPlatform(q.stopId) && Separable(q)
    ensures LivePicks(q) == LivePicks(Platform(q, "N")) + LivePicks(Platform(q, "S"))
    ensures TakenBy(q) == TakenBy(Platform(q, "N")) + TakenBy(Platform(q, "S"))
    ensures NamesOnly(Rows(q), TakenBy(Platform(q, "N")), "N") && NamesOnly(Rows(q), TakenBy(Platform(q, "S")), "S")
  {
    var n, s := Platform(q, "N"), Platform(q, "S");
    PlatformQuery(q, "N");
    PlatformQuery(q, "S");
    StationTrains(q);
    assert HitsAgree(Rows(q), Trains(n)) && HitsAgree(Rows(q), Trains(s));
    PicksSplit(Rows(q), Trains(n), "N", Trains(s), "S", q.cfg.fuzzyWindow);
    TakenConcat(LivePicks(n), LivePicks(s));
    TakenOneWay(Rows(q), Trains(n), q.cfg.fuzzyWindow, "N");
    TakenOneWay(Rows(q), Trains(s), q.cfg.fuzzyWindow, "S");
  }

  lemma {:induction false} LiveRowsConcat(
    q: Query, a: seq<LiveEntry>, b: seq<LiveEntry>, pa: seq<Option<ScheduledTrip>>, pb: seq<Option<ScheduledTrip>>)
    requires |a| == |pa| && |b| == |pb|
    ensures LiveRows(q, a + b, pa + pb) == LiveRows(q, a, pa) + LiveRows(q, b, pb)
  {
    if b == [] {
      assert a + b == a && pa + pb == pa;
    } else {
      LastApart(a, b);
      LastApart(pa, pb);
      var n := |b| - 1;
      LiveRowsConcat(q, a, b[..n], pa, pb[..n]);
      LiveRowsPush(q, a + b[..n], pa + pb[..n], b[n], pb[n]);
    }
  }

  /** A live row does not depend on which stop was asked for. */
  lemma RowOfPlatform(q: Query, letter: string, e: LiveEntry, pick: Option<ScheduledTrip>)
    ensures LiveRow(Platform(q, letter), e, pick) == LiveRow(q, e, pick)
  {
  }

  lemma {:induction false} RowsOfPlatform(q: Query, letter: string, entries: seq<LiveEntry>,
    picks: seq<Option<ScheduledTrip>>)
    requires |entries| == |picks|
    ensures LiveRows(Platform(q, letter), entries, picks) == LiveRows(q, entries, picks)
  {
    if entries == [] {
    } else {
      var n := |entries| - 1;
      RowsOfPlatform(q, letter, entries[..n], picks[..n]);
      RowOfPlatform(q, letter, entries[n], picks[n]);
    }
  }

  lemma PlatformGhost(q: Query, letter: string, taken: set<string>, r: ScheduledTrip)
    requires !IsPlatform(q.stopId) && letter in ["N", "S"]
    ensures IsGhost(Platform(q, letter), taken)(r) == (r.tripId !in taken && r.direction == letter && !TooOld(q, r))
  {
    PlatformName(q.stopId, letter);
  }

  /** An unmatched row of the station is one of exactly one platform. */
  lemma GhostOfOnePlatform(q: Query, r: ScheduledTrip, tn: set<string>, ts: set<string>)
    requires !IsPlatform(q.stopId) && (r.direction == "N" || r.direction == "S")
    requires (r.tripId in tn ==> r.direction == "N") && (r.tripId in ts ==> r.direction == "S")
    ensures IsGhost(Platform(q, "N"), tn)(r) == (IsGhost(q, tn + ts)(r) && r.direction == "N")
    ensures IsGhost(Platform(q, "S"), ts)(r) == (IsGhost(q, tn + ts)(r) && r.direction == "S")
  {
    PlatformGhost(q, "N", tn, r);
    PlatformGhost(q, "S", ts, r);
    assert "N" != "S";
  }

  lemma LivePartSplit(q: Query)
    requires !IsPlatform(q.stopId) && Separable(q)
    ensures LivePart(q) == LivePart(Platform(q, "N")) + LivePart(Platform(q, "S"))
  {
    var n, s := Platform(q, "N"), Platform(q, "S");
    StationTrains(q);
    StationPicks(q);
    LiveRowsConcat(q, LiveEntries(n), LiveEntries(s), LivePicks(n), LivePicks(s));
    RowsOfPlatform(q, "N", LiveEntries(n), LivePicks(n));
    RowsOfPlatform(q, "S", LiveEntries(s), LivePicks(s));
  }

  // ----- each direction on its own -----

  function Heading(letter: string): Arrival -> bool { (a: Arrival) => a.direction == letter }

  function RowHeading(letter: string): ScheduledTrip -> bool { (r: ScheduledTrip) => r.direction == letter }

  ghost predicate AllHeading(rows: seq<Arrival>, letter: string) {
    forall a | a in rows :: a.direction == letter
  }

  lemma RowsHead(q: Query, entries: seq<LiveEntry>, picks: seq<Option<ScheduledTrip>>, letter: string)
    requires |picks| == |entries| && forall e | e in entries :: e.direction == letter
    ensures AllHeading(LiveRows(q, entries, picks), letter)
  {
    forall a | a in LiveRows(q, entries, picks) ensures a.direction == letter {
      var i :| 0 <= i < |entries| && a == LiveRow(q, entries[i], picks[i]);
      assert entries[i] in entries;
    }
  }

  lemma LiveHead(q: Query, letter: string)
    requires !IsPlatform(q.stopId) && letter in ["N", "S"]
    ensures AllHeading(LivePart(Platform(q, letter)), letter)
  {
    var p := Platform(q, letter);
    PlatformQuery(q, letter);
    PlatformName(q.stopId, letter);
    EntriesHead(q.db, q.stopId + letter, Horizon(q), q.now);
    RowsHead(p, LiveEntries(p), LivePicks(p), letter);
  }

  lemma HeadingOfMerge(n: seq<Arrival>, s: seq<Arrival>)
    requires AllHeading(n, "N") && AllHeading(s, "S")
    ensures Filter(n + s, Heading("N")) == n && Filter(n + s, Heading("S")) == s
  {
    assert "N" != "S";
    FilterConcat(n, s, Heading("N"));
    FilterConcat(n, s, Heading("S"));
    FilterAll(n, Heading("N"));
    FilterNone(s, Heading("N"));
    FilterNone(n, Heading("S"));
    FilterAll(s, Heading("S"));
  }

  lemma LiveHeading(q: Query)
    requires !IsPlatform(q.stopId) && Separable(q)
    ensures Filter(LivePart(q), Heading("N")) == LivePart(Platform(q, "N"))
    ensures Filter(LivePart(q), Heading("S")) == LivePart(Platform(q, "S"))
    ensures forall a | a in LivePart(q) :: a.direction == "N" || a.direction == "S"
  {
    LivePartSplit(q);
    LiveHead(q, "N");
    LiveHead(q, "S");
    HeadingOfMerge(LivePart(Platform(q, "N")), LivePart(Platform(q, "S")));
  }

  lemma HeadingOfGhosts(
    rows: seq<ScheduledTrip>, all: ScheduledTrip -> bool, one: ScheduledTrip -> bool, letter: string)
    requires forall r | r in rows :: one(r) == (all(r) && RowHeading(letter)(r))
    ensures Filter(Map(Filter(rows, all), GhostRow), Heading(letter)) == Map(Filter(rows, one), GhostRow)
  {
    FilterMap(Filter(rows, all), GhostRow, Heading(letter), RowHeading(letter));
    FilterBoth(rows, all, RowHeading(letter), one);
  }

  lemma GhostHeading(q: Query)
    requires !IsPlatform(q.stopId) && Separable(q)
    ensures Filter(GhostPart(q), Heading("N")) == GhostPart(Platform(q, "N"))
    ensures Filter(GhostPart(q), Heading("S")) == GhostPart(Platform(q, "S"))
  {
    var n, s := Platform(q, "N"), Platform(q, "S");
    var tn, ts := TakenBy(n), TakenBy(s);
    StationPicks(q);
    PlatformQuery(q, "N");
    PlatformQuery(q, "S");
    forall r | r in Rows(q)
      ensures IsGhost(n, tn)(r) == (IsGhost(q, tn + ts)(r) && RowHeading("N")(r))
      ensures IsGhost(s, ts)(r) == (IsGhost(q, tn + ts)(r) && RowHeading("S")(r))
    {
      GhostOfOnePlatform(q, r, tn, ts);
    }
    HeadingOfGhosts(Rows(q), IsGhost(q, tn + ts), IsGhost(n, tn), "N");
    HeadingOfGhosts(Rows(q), IsGhost(q, tn + ts), IsGhost(s, ts), "S");
  }

  lemma GhostsHead(q: Query)
    requires forall r | r in Rows(q) :: r.direction == "N" || r.direction == "S"
    ensures forall a | a in GhostPart(q) :: a.direction == "N" || a.direction == "S"
  {
    var kept := Filter(Rows(q), IsGhost(q, TakenBy(q)));
    forall a | a in GhostPart(q) ensures a.direction == "N" || a.direction == "S" {
      var i :| 0 <= i < |kept| && GhostRow(kept[i]) == a;
      assert kept[i] in Rows(q);
    }
  }

  /** A direction of the sorted board is the sorted direction of the unsorted one. */
  lemma HeadingOfBoard(q: Query, letter: string)
    ensures Filter(BoardFor(q), Heading(letter)) ==
            StableSort(Filter(Filter(LivePart(q), Heading(letter)) + Filter(GhostPart(q), Heading(letter)),
              StillShown(q)), ByTime)
  {
    FilterConcat(LivePart(q), GhostPart(q), Heading(letter));
    FilterFilter(UnifiedBoard(q), StillShown(q), Heading(letter));
    SortFilter(Filter(UnifiedBoard(q), StillShown(q)), ByTime, Heading(letter));
  }

  lemma BoardOfPlatform(q: Query, letter: string)
    ensures BoardFor(Platform(q, letter)) ==
            StableSort(Filter(LivePart(Platform(q, letter)) + GhostPart(Platform(q, letter)), StillShown(q)), ByTime)
  {
    var p := Platform(q, letter);
    FilterAgree(LivePart(p) + GhostPart(p), StillShown(p), StillShown(q));
  }

  lemma RowsHeadOneWay(q: Query)
    requires !IsPlatform(q.stopId) && Separable(q)
    ensures forall a | a in BoardFor(q) :: Heading("N")(a) != Heading("S")(a)
  {
    LiveHeading(q);
    GhostsHead(q);
    assert "N" != "S";
    forall a | a in BoardFor(q) ensures a.direction == "N" || a.direction == "S" {
      BoardMembers(q, a);
    }
  }

  /** The rows of a board, whatever their order. */
  ghost function Bag(q: Query): multiset<Arrival> { multiset(BoardFor(q)) }

  /** The station board is the merge of its two platform boards: sorted, no row added or lost, and each
      direction exactly as its own platform shows it, order included. */
  lemma DirectionsDoNotInterfere(q: Query)
    requires !IsPlatform(q.stopId) && Separable(q)
    ensures Filter(BoardFor(q), Heading("N")) == BoardFor(Platform(q, "N"))
    ensures Filter(BoardFor(q), Heading("S")) == BoardFor(Platform(q, "S"))
    ensures Bag(q) == Bag(Platform(q, "N")) + Bag(Platform(q, "S"))
    ensures SortedBy(BoardFor(q), ByTime)
  {
    BoardIsSorted(q);
    LiveHeading(q);
    GhostHeading(q);
    HeadingOfBoard(q, "N");
    HeadingOfBoard(q, "S");
    BoardOfPlatform(q, "N");
    BoardOfPlatform(q, "S");
    RowsHeadOneWay(q);
    FilterSplits(BoardFor(q), Heading("N"), Heading("S"));
  }

  /** Without the schedule this holds of every store. */
  lemma LiveDirectionsDoNotInterfere(q: Query)
    requires !IsPlatform(q.stopId) && !q.useSchedules
    ensures Filter(BoardFor(q), Heading("N")) == BoardFor(Platform(q, "N"))
    ensures Filter(BoardFor(q), Heading("S")) == BoardFor(Platform(q, "S"))
    ensures Bag(q) == Bag(Platform(q, "N")) + Bag(Platform(q, "S"))
    ensures SortedBy(BoardFor(q), ByTime)
  {
    forall t | t in Trains(q) ensures IdHit(Rows(q), t.tripId).None? {
      IdHitMeaning(Rows(q), t.tripId);
    }
    DirectionsDoNotInterfere(q);
  }
}
