/**
 Assigning live trains to scheduled trips: by identifier, then by identifier suffix, then by the
 nearest scheduled time on the same route and direction. Trains are served in order and a scheduled
 trip is given away once.
 */
module Matching {
  import opened Models
  import opened Sequences

  const UNKNOWN := "???"

  /** A live train with its route resolved; the route is `UNKNOWN` when nothing tells it. */
  datatype Train = Train(tripId: string, time: int, direction: string, route: string)

  function Abs(x: int): (r: nat)
    ensures r == x || r == -x
  {
    if x < 0 then -x else x
  }

  predicate EndsWith(s: string, suffix: string) {
    |suffix| <= |s| && s[|s| - |suffix|..] == suffix
  }

  // ----- what the indexes mean -----

  /** The last row with identifier `id`. */
  function LastRow(rows: seq<ScheduledTrip>, id: string): Option<ScheduledTrip> {
    if rows == [] then None
    else if rows[|rows| - 1].tripId == id then Some(rows[|rows| - 1])
    else LastRow(rows[..|rows| - 1], id)
  }

  /** The identifiers of the rows, each once, in the order first met. */
  function FirstSeen(rows: seq<ScheduledTrip>): seq<string> {
    if rows == [] then [] else
      var before := FirstSeen(rows[..|rows| - 1]);
      var id := rows[|rows| - 1].tripId;
      if id in before then before else before + [id]
  }

  function InGroup(route: string, direction: string): ScheduledTrip -> bool {
    (r: ScheduledTrip) => r.routeId == route && r.direction == direction
  }

  /** The rows of a route and direction, in schedule order. */
  function Group(rows: seq<ScheduledTrip>, route: string, direction: string): seq<ScheduledTrip> {
    Filter(rows, InGroup(route, direction))
  }

  function HasSuffix(tripId: string): string -> bool {
    (id: string) => EndsWith(id, "_" + tripId)
  }

  /** The row an identifier selects: its own, else that of the first identifier it is a suffix of. */
  function IdHit(rows: seq<ScheduledTrip>, tripId: string): Option<ScheduledTrip> {
    if LastRow(rows, tripId).Some? then LastRow(rows, tripId) else
      var longer := Filter(FirstSeen(rows), HasSuffix(tripId));
      if longer == [] then None else LastRow(rows, longer[0])
  }

  ghost predicate Occurs(rows: seq<ScheduledTrip>, id: string) {
    exists r :: r in rows && r.tripId == id
  }

  /** `i` is where identifier `id` last occurs. */
  predicate LastAt(rows: seq<ScheduledTrip>, i: int, id: string) {
    0 <= i < |rows| && rows[i].tripId == id && forall j :: i < j < |rows| ==> rows[j].tripId != id
  }

  lemma {:induction false} LastRowAt(rows: seq<ScheduledTrip>, id: string) returns (i: int)
    requires LastRow(rows, id).Some?
    ensures LastAt(rows, i, id) && LastRow(rows, id) == Some(rows[i])
  {
    var n := |rows| - 1;
    if rows[n].tripId == id {
      i := n;
    } else {
      i := LastRowAt(rows[..n], id);
      assert forall j :: 0 <= j < n ==> rows[j] == rows[..n][j];
    }
  }

  lemma {:induction false} LastRowOccurs(rows: seq<ScheduledTrip>, id: string)
    ensures LastRow(rows, id).Some? <==> Occurs(rows, id)
  {
    if rows == [] {
    } else {
      LastRowOccurs(rows[..|rows| - 1], id);
      LastOrBefore(rows);
    }
  }

  lemma LastRowMeaning(rows: seq<ScheduledTrip>, id: string)
    ensures LastRow(rows, id).Some? <==> Occurs(rows, id)
    ensures LastRow(rows, id).Some? ==> exists i :: LastAt(rows, i, id) && LastRow(rows, id) == Some(rows[i])
  {
    LastRowOccurs(rows, id);
    if LastRow(rows, id).Some? {
      var i := LastRowAt(rows, id);
    }
  }

  /** `i` is where identifier `id` first occurs. */
  predicate FirstAt(rows: seq<ScheduledTrip>, i: int, id: string) {
    0 <= i < |rows| && rows[i].tripId == id && forall j :: 0 <= j < i ==> rows[j].tripId != id
  }

  lemma FirstAtPrefix(rows: seq<ScheduledTrip>, i: int, id: string)
    requires 0 <= i < |rows| - 1
    ensures FirstAt(rows, i, id) <==> FirstAt(rows[..|rows| - 1], i, id)
  {
  }

  lemma {:induction false} FirstSeenIds(rows: seq<ScheduledTrip>, id: string)
    ensures id in FirstSeen(rows) <==> Occurs(rows, id)
  {
    if rows == [] {
    } else {
      FirstSeenIds(rows[..|rows| - 1], id);
      LastOrBefore(rows);
    }
  }

  lemma {:induction false} FirstAtExists(rows: seq<ScheduledTrip>, id: string) returns (i: int)
    requires Occurs(rows, id)
    ensures FirstAt(rows, i, id)
  {
    var n := |rows| - 1;
    LastOrBefore(rows);
    if Occurs(rows[..n], id) {
      i := FirstAtExists(rows[..n], id);
      FirstAtPrefix(rows, i, id);
    } else {
      i := n;
      assert forall j :: 0 <= j < n ==> rows[j] == rows[..n][j] && rows[..n][j] in rows[..n];
    }
  }

  /** First-insertion order: the identifiers come in the order of their first occurrences. */
  lemma {:induction false} FirstSeenOrder(rows: seq<ScheduledTrip>, a: int, b: int, i: int, j: int)
    requires 0 <= a < b < |FirstSeen(rows)|
    requires FirstAt(rows, i, FirstSeen(rows)[a]) && FirstAt(rows, j, FirstSeen(rows)[b])
    ensures i < j
  {
    var n := |rows| - 1;
    var before, ids := FirstSeen(rows[..n]), FirstSeen(rows);
    assert ids[a] == before[a];
    FirstSeenIds(rows[..n], ids[a]);
    FirstSeenIds(rows[..n], ids[b]);
    var i' := FirstAtExists(rows[..n], ids[a]);
    FirstAtPrefix(rows, i', ids[a]);
    assert i == i' < n;
    if b < |before| {
      assert ids[b] == before[b];
      var j' := FirstAtExists(rows[..n], ids[b]);
      FirstAtPrefix(rows, j', ids[b]);
      assert j == j' < n;
      FirstSeenOrder(rows[..n], a, b, i, j);
    } else {
      assert forall j' :: 0 <= j' < n ==> rows[..n][j'] == rows[j'] && rows[..n][j'] in rows[..n];
    }
  }

  /** An identifier hit is one of the rows, and carries the identifier or extends it. */
  lemma IdHitMeaning(rows: seq<ScheduledTrip>, tripId: string)
    ensures IdHit(rows, tripId).Some? ==>
              IdHit(rows, tripId).value in rows &&
              var id := IdHit(rows, tripId).value.tripId; id == tripId || EndsWith(id, "_" + tripId)
    ensures Occurs(rows, tripId) ==>
              IdHit(rows, tripId).Some? && IdHit(rows, tripId).value.tripId == tripId
    ensures IdHit(rows, tripId).None? ==>
              forall r | r in rows :: r.tripId != tripId && !EndsWith(r.tripId, "_" + tripId)
  {
    LastRowMeaning(rows, tripId);
    var longer := Filter(FirstSeen(rows), HasSuffix(tripId));
    if longer != [] {
      assert longer[0] in longer && HasSuffix(tripId)(longer[0]);
      LastRowMeaning(rows, longer[0]);
      FirstSeenIds(rows, longer[0]);
    }
    if IdHit(rows, tripId).None? {
      forall r | r in rows ensures r.tripId != tripId && !EndsWith(r.tripId, "_" + tripId) {
        FirstSeenIds(rows, r.tripId);
        assert HasSuffix(tripId)(r.tripId) ==> r.tripId in longer;
      }
    }
  }

  // ----- which row an identifier selects -----

  /** `id` is some text, an underscore, and `tripId`. */
  ghost predicate Extends(id: string, tripId: string) { exists head :: id == head + "_" + tripId }

  lemma SuffixMeaning(id: string, tripId: string)
    ensures HasSuffix(tripId)(id) <==> Extends(id, tripId)
  {
    var suffix := "_" + tripId;
    if HasSuffix(tripId)(id) {
      assert id == id[..|id| - |suffix|] + suffix;
      assert id == id[..|id| - |suffix|] + "_" + tripId;
    }
    if head :| id == head + "_" + tripId {
      assert id == head + suffix;
      assert id[|head|..] == suffix;
    }
  }

  /** Row `i` is the first of the schedule whose identifier extends `tripId`. */
  ghost predicate FirstExtends(rows: seq<ScheduledTrip>, i: int, tripId: string) {
    0 <= i < |rows| && Extends(rows[i].tripId, tripId) && forall j :: 0 <= j < i ==> !Extends(rows[j].tripId, tripId)
  }

  lemma FirstExtendsPrefix(rows: seq<ScheduledTrip>, i: int, tripId: string)
    requires 0 <= i < |rows| - 1
    ensures FirstExtends(rows, i, tripId) <==> FirstExtends(rows[..|rows| - 1], i, tripId)
  {
    assert forall j :: 0 <= j < |rows| - 1 ==> rows[j] == rows[..|rows| - 1][j];
  }

  /** The first identifier that extends `tripId`, among the identifiers in the order first met, is that of the
      first row whose identifier does. */
  lemma {:induction false} FirstLonger(rows: seq<ScheduledTrip>, tripId: string)
    ensures var longer := Filter(FirstSeen(rows), HasSuffix(tripId));
            if longer == [] then forall r | r in rows :: !Extends(r.tripId, tripId)
            else exists i :: FirstExtends(rows, i, tripId) && rows[i].tripId == longer[0]
  {
    if rows == [] {
    } else {
      var n := |rows| - 1;
      var before, id := FirstSeen(rows[..n]), rows[n].tripId;
      var longer := Filter(before, HasSuffix(tripId));
      FirstLonger(rows[..n], tripId);
      LastOrBefore(rows);
      SuffixMeaning(id, tripId);
      FilterConcat(before, [id], HasSuffix(tripId));
      if longer != [] {
        var i :| FirstExtends(rows[..n], i, tripId) && rows[..n][i].tripId == longer[0];
        FirstExtendsPrefix(rows, i, tripId);
        assert Filter(FirstSeen(rows), HasSuffix(tripId))[0] == longer[0];
      } else if Extends(id, tripId) {
        assert id !in before;
        assert forall j :: 0 <= j < n ==> rows[..n][j] in rows[..n] && rows[..n][j] == rows[j];
        assert FirstExtends(rows, n, tripId);
      }
    }
  }

  /** The row selected, in the schedule's own terms. It is the last row of its identifier. That identifier is
      the train's own if some row has it, and else the one of the first row whose identifier extends it. */
  lemma IdHitSelects(rows: seq<ScheduledTrip>, tripId: string)
    ensures var hit := IdHit(rows, tripId);
            && (hit.Some? ==> exists i :: LastAt(rows, i, hit.value.tripId) && hit.value == rows[i])
            && (hit.None? <==> forall r | r in rows :: r.tripId != tripId && !Extends(r.tripId, tripId))
            && (hit.Some? && hit.value.tripId != tripId ==>
                  && (forall r | r in rows :: r.tripId != tripId)
                  && exists i :: FirstExtends(rows, i, tripId) && rows[i].tripId == hit.value.tripId)
  {
    LastRowMeaning(rows, tripId);
    FirstLonger(rows, tripId);
    var longer := Filter(FirstSeen(rows), HasSuffix(tripId));
    if longer != [] {
      LastRowMeaning(rows, longer[0]);
      assert longer[0] in longer;
      FirstSeenIds(rows, longer[0]);
    }
  }

  // ----- nearest time -----

  predicate Eligible(r: ScheduledTrip, t: Train, taken: set<string>, window: int) {
    r.tripId !in taken && Abs(r.arrival - t.time) < window
  }

  /** Candidate `i` is eligible, strictly nearer than every eligible one before it and at least as near
      as every eligible one after it. */
  ghost predicate IsNearest(cs: seq<ScheduledTrip>, i: int, t: Train, taken: set<string>, window: int) {
    && 0 <= i < |cs| && Eligible(cs[i], t, taken, window)
    && (forall j :: 0 <= j < i && Eligible(cs[j], t, taken, window) ==>
      Abs(cs[i].arrival - t.time) < Abs(cs[j].arrival - t.time))
    && (forall j :: i < j < |cs| && Eligible(cs[j], t, taken, window) ==>
      Abs(cs[i].arrival - t.time) <= Abs(cs[j].arrival - t.time))
  }

  ghost function Nearest(cs: seq<ScheduledTrip>, t: Train, taken: set<string>, window: int): Option<ScheduledTrip> {
    if exists i :: IsNearest(cs, i, t, taken, window)
    then var i :| IsNearest(cs, i, t, taken, window); Some(cs[i])
    else None
  }

  lemma NearestIndexUnique(cs: seq<ScheduledTrip>, i: int, k: int, t: Train, taken: set<string>, window: int)
    requires IsNearest(cs, i, t, taken, window) && IsNearest(cs, k, t, taken, window)
    ensures i == k
  {
  }

  lemma NearestUnique(cs: seq<ScheduledTrip>, i: int, t: Train, taken: set<string>, window: int)
    requires IsNearest(cs, i, t, taken, window)
    ensures Nearest(cs, t, taken, window) == Some(cs[i])
  {
    forall k | IsNearest(cs, k, t, taken, window) ensures k == i {
      NearestIndexUnique(cs, i, k, t, taken, window);
    }
  }

  /** What the loop knows after `i` candidates: none was eligible, or `best`, at index `at`, is the nearest
      of them. */
  ghost predicate Searched(
    cs: seq<ScheduledTrip>, i: int, t: Train, taken: set<string>, window: int,
    best: Option<ScheduledTrip>, minDiff: int, at: int)
  {
    && 0 <= i <= |cs|
    && match best
       case None => minDiff == window && forall j :: 0 <= j < i ==> !Eligible(cs[j], t, taken, window)
       case Some(c) =>
         && 0 <= at < i && c == cs[at] && minDiff == Abs(c.arrival - t.time)
         && IsNearest(cs[..i], at, t, taken, window)
  }

  lemma SearchStep(
    cs: seq<ScheduledTrip>, i: int, t: Train, taken: set<string>, window: int,
    best: Option<ScheduledTrip>, minDiff: int, at: int)
    requires i < |cs| && Searched(cs, i, t, taken, window, best, minDiff, at)
    ensures var diff := Abs(cs[i].arrival - t.time);
            if cs[i].tripId !in taken && diff < minDiff
            then Searched(cs, i + 1, t, taken, window, Some(cs[i]), diff, i)
            else Searched(cs, i + 1, t, taken, window, best, minDiff, at)
  {
    assert forall j :: 0 <= j < i ==> cs[..i + 1][j] == cs[..i][j] == cs[j];
    assert cs[..i + 1][i] == cs[i];
    if best.Some? {
      assert cs[..i][at] == cs[at];
    }
  }

  lemma SearchEnd(
    cs: seq<ScheduledTrip>, t: Train, taken: set<string>, window: int,
    best: Option<ScheduledTrip>, minDiff: int, at: int)
    requires Searched(cs, |cs|, t, taken, window, best, minDiff, at)
    ensures best == Nearest(cs, t, taken, window)
    ensures best.None? <==> forall r | r in cs :: !Eligible(r, t, taken, window)
    ensures best.Some? ==> best.value in cs && Eligible(best.value, t, taken, window)
  {
    assert cs[..|cs|] == cs;
    if best.Some? {
      NearestUnique(cs, at, t, taken, window);
    } else {
      forall i ensures !IsNearest(cs, i, t, taken, window) { }
    }
  }

  /** The loop over the candidates finds the nearest one, and finds none only if none is eligible. */
  method FindNearest(cs: seq<ScheduledTrip>, t: Train, taken: set<string>, window: int)
    returns (best: Option<ScheduledTrip>)
    ensures best == Nearest(cs, t, taken, window)
    ensures best.None? <==> forall r | r in cs :: !Eligible(r, t, taken, window)
    ensures best.Some? ==> best.value in cs && Eligible(best.value, t, taken, window)
  {
    best := None;
    var minDiff := window;
    ghost var at := -1;
    for i := 0 to |cs|
      invariant Searched(cs, i, t, taken, window, best, minDiff, at)
    {
      var cand := cs[i];
      SearchStep(cs, i, t, taken, window, best, minDiff, at);
      if cand.tripId in taken {
        continue;
      }
      var diff := Abs(cand.arrival - t.time);
      if diff < minDiff {
        minDiff := diff;
        best := Some(cand);
        at := i;
      }
    }
    SearchEnd(cs, t, taken, window, best, minDiff, at);
  }

  /** There is a nearest candidate as soon as one is eligible. */
  lemma {:induction false} NearestExists(cs: seq<ScheduledTrip>, t: Train, taken: set<string>, window: int)
    ensures Nearest(cs, t, taken, window).None? <==> forall r | r in cs :: !Eligible(r, t, taken, window)
    ensures var n := Nearest(cs, t, taken, window);
            n.Some? ==> n.value in cs && Eligible(n.value, t, taken, window)
  {
    if cs == [] {
    } else {
      var n := |cs| - 1;
      NearestExists(cs[..n], t, taken, window);
      LastOrBefore(cs);
      if Nearest(cs[..n], t, taken, window).Some? {
        var i :| IsNearest(cs[..n], i, t, taken, window);
        NearestStays(cs, i, t, taken, window);
      } else if Eligible(cs[n], t, taken, window) {
        assert forall j :: 0 <= j < n ==> cs[j] in cs[..n];
        assert IsNearest(cs, n, t, taken, window);
      }
    }
  }

  lemma NearestStays(cs: seq<ScheduledTrip>, i: int, t: Train, taken: set<string>, window: int)
    requires cs != [] && IsNearest(cs[..|cs| - 1], i, t, taken, window)
    ensures exists k :: IsNearest(cs, k, t, taken, window)
  {
    var n := |cs| - 1;
    assert forall j :: 0 <= j < n ==> cs[j] == cs[..n][j];
    if Eligible(cs[n], t, taken, window) && Abs(cs[n].arrival - t.time) < Abs(cs[i].arrival - t.time) {
      assert IsNearest(cs, n, t, taken, window);
    } else {
      assert IsNearest(cs, i, t, taken, window);
    }
  }

  // ----- building and using the indexes -----

  type Groups = map<(string, string), seq<ScheduledTrip>>

  function GroupOf(groups: Groups, route: string, direction: string): seq<ScheduledTrip> {
    if (route, direction) in groups then groups[(route, direction)] else []
  }

  /** The dictionaries are indexes of the rows: the last row per identifier, iterated in
      first-insertion order, and the rows of each route and direction in schedule order. */
  ghost predicate Indexes(
    rows: seq<ScheduledTrip>, order: seq<string>, byId: map<string, ScheduledTrip>, groups: Groups)
  {
    && order == FirstSeen(rows)
    && (forall id :: id in byId <==> LastRow(rows, id).Some?)
    && (forall id | id in byId :: LastRow(rows, id) == Some(byId[id]))
    && (forall route, direction :: GroupOf(groups, route, direction) == Group(rows, route, direction))
  }

  lemma IndexStep(rows: seq<ScheduledTrip>, i: nat, order: seq<string>, byId: map<string, ScheduledTrip>,
    groups: Groups)
    requires i < |rows| && Indexes(rows[..i], order, byId, groups)
    ensures var s := rows[i];
            Indexes(rows[..i + 1], if s.tripId !in byId then order + [s.tripId] else order, byId[s.tripId := s],
                    groups[(s.routeId, s.direction) := GroupOf(groups, s.routeId, s.direction) + [s]])
  {
    var s, key := rows[i], (rows[i].routeId, rows[i].direction);
    assert rows[..i + 1][..i] == rows[..i];
    FirstSeenIds(rows[..i], s.tripId);
    LastRowMeaning(rows[..i], s.tripId);
    assert s.tripId in byId <==> s.tripId in FirstSeen(rows[..i]);
    assert (if s.tripId !in byId then order + [s.tripId] else order) == FirstSeen(rows[..i + 1]);
    var groups' := groups[key := GroupOf(groups, s.routeId, s.direction) + [s]];
    forall route, direction ensures GroupOf(groups', route, direction) == Group(rows[..i + 1], route, direction) {
      FilterSnoc(rows, i, InGroup(route, direction));
      assert GroupOf(groups, route, direction) == Group(rows[..i], route, direction);
      assert GroupOf(groups', route, direction) ==
             GroupOf(groups, route, direction) + if (route, direction) == key then [s] else [];
    }
  }

  method IndexSchedule(rows: seq<ScheduledTrip>)
    returns (order: seq<string>, byId: map<string, ScheduledTrip>, groups: Groups)
    ensures Indexes(rows, order, byId, groups)
  {
    order, byId, groups := [], map[], map[];
    for i := 0 to |rows|
      invariant Indexes(rows[..i], order, byId, groups)
    {
      var s := rows[i];
      IndexStep(rows, i, order, byId, groups);
      if s.tripId !in byId {
        order := order + [s.tripId];
      }
      byId := byId[s.tripId := s];
      groups := groups[(s.routeId, s.direction) := GroupOf(groups, s.routeId, s.direction) + [s]];
    }
    assert rows[..|rows|] == rows;
  }

  /** Exact identifier, else the first indexed identifier that ends with it. */
  method FindById(
    ghost rows: seq<ScheduledTrip>, order: seq<string>, byId: map<string, ScheduledTrip>, ghost groups: Groups,
    tripId: string)
    returns (hit: Option<ScheduledTrip>)
    requires Indexes(rows, order, byId, groups)
    ensures hit == IdHit(rows, tripId)
  {
    if tripId in byId {
      return Some(byId[tripId]);
    }
    hit := None;
    var longer := HasSuffix(tripId);
    for i := 0 to |order|
      invariant Filter(order[..i], longer) == []
    {
      FilterSnoc(order, i, longer);
      if EndsWith(order[i], "_" + tripId) {
        FirstSeenIds(rows, order[i]);
        LastRowMeaning(rows, order[i]);
        assert order == order[..i + 1] + order[i + 1..];
        FilterConcat(order[..i + 1], order[i + 1..], longer);
        return Some(byId[order[i]]);
      }
    }
    assert order[..|order|] == order;
  }

  // ----- the assignment -----

  /** The scheduled trip a train gets, given the trips already taken. An identifier hit that is taken
      does not end the search: the train still competes for a nearest trip. */
  ghost function Pick(rows: seq<ScheduledTrip>, t: Train, taken: set<string>, window: int): Option<ScheduledTrip> {
    var hit := IdHit(rows, t.tripId);
    if hit.Some? && hit.value.tripId !in taken then hit
    else if t.route == UNKNOWN then None
    else Nearest(Group(rows, t.route, t.direction), t, taken, window)
  }

  // ----- the pick, in the schedule's own terms -----

  /** A free row of the train's route and direction, strictly inside the window. */
  predicate Fits(r: ScheduledTrip, t: Train, taken: set<string>, window: int) {
    && r.tripId !in taken && r.routeId == t.route && r.direction == t.direction
    && -window < r.arrival - t.time < window
  }

  /** Row `i` fits, is nearer in time than every fitting row before it and at least as near as every one
      after it. */
  ghost predicate FirstNearest(rows: seq<ScheduledTrip>, i: int, t: Train, taken: set<string>, window: int) {
    && 0 <= i < |rows| && Fits(rows[i], t, taken, window)
    && (forall j :: 0 <= j < i && Fits(rows[j], t, taken, window) ==>
          Abs(rows[i].arrival - t.time) < Abs(rows[j].arrival - t.time))
    && (forall j :: i < j < |rows| && Fits(rows[j], t, taken, window) ==>
          Abs(rows[i].arrival - t.time) <= Abs(rows[j].arrival - t.time))
  }

  lemma NearestBeaten(cs: seq<ScheduledTrip>, c: ScheduledTrip, i: int, t: Train, taken: set<string>, window: int)
    requires IsNearest(cs, i, t, taken, window) && Eligible(c, t, taken, window)
    requires Abs(c.arrival - t.time) < Abs(cs[i].arrival - t.time)
    ensures Nearest(cs + [c], t, taken, window) == Some(c)
  {
    var all := cs + [c];
    forall j | 0 <= j < |cs| && Eligible(all[j], t, taken, window)
      ensures Abs(c.arrival - t.time) < Abs(all[j].arrival - t.time)
    {
      assert all[j] == cs[j];
    }
    NearestUnique(all, |cs|, t, taken, window);
  }

  lemma NearestKept(cs: seq<ScheduledTrip>, c: ScheduledTrip, i: int, t: Train, taken: set<string>, window: int)
    requires IsNearest(cs, i, t, taken, window)
    requires Eligible(c, t, taken, window) ==> Abs(cs[i].arrival - t.time) <= Abs(c.arrival - t.time)
    ensures Nearest(cs + [c], t, taken, window) == Some(cs[i])
  {
    var all := cs + [c];
    assert all[i] == cs[i];
    forall j | 0 <= j < i && Eligible(all[j], t, taken, window)
      ensures Abs(all[i].arrival - t.time) < Abs(all[j].arrival - t.time)
    {
      assert all[j] == cs[j];
    }
    forall j | i < j < |all| && Eligible(all[j], t, taken, window)
      ensures Abs(all[i].arrival - t.time) <= Abs(all[j].arrival - t.time)
    {
      assert j < |cs| ==> all[j] == cs[j];
    }
    NearestUnique(all, i, t, taken, window);
  }

  lemma NearestFound(cs: seq<ScheduledTrip>, c: ScheduledTrip, t: Train, taken: set<string>, window: int)
    requires Nearest(cs, t, taken, window).None?
    ensures Nearest(cs + [c], t, taken, window) == if Eligible(c, t, taken, window) then Some(c) else None
  {
    var all := cs + [c];
    NearestExists(cs, t, taken, window);
    forall j | 0 <= j < |cs| ensures !Eligible(all[j], t, taken, window) {
      assert all[j] == cs[j] && cs[j] in cs;
    }
    if Eligible(c, t, taken, window) {
      NearestUnique(all, |cs|, t, taken, window);
    } else {
      forall j ensures !IsNearest(all, j, t, taken, window) { }
    }
  }

  lemma NearestAppend(cs: seq<ScheduledTrip>, c: ScheduledTrip, t: Train, taken: set<string>, window: int)
    ensures var before := Nearest(cs, t, taken, window);
            Nearest(cs + [c], t, taken, window) ==
            if Eligible(c, t, taken, window)
               && (before.None? || Abs(c.arrival - t.time) < Abs(before.value.arrival - t.time))
            then Some(c) else before
  {
    if i :| IsNearest(cs, i, t, taken, window) {
      NearestUnique(cs, i, t, taken, window);
      if Eligible(c, t, taken, window) && Abs(c.arrival - t.time) < Abs(cs[i].arrival - t.time) {
        NearestBeaten(cs, c, i, t, taken, window);
      } else {
        NearestKept(cs, c, i, t, taken, window);
      }
    } else {
      NearestFound(cs, c, t, taken, window);
    }
  }

  /** What a nearest row of the group is among all rows. */
  ghost predicate IsFirstNearest(
    rows: seq<ScheduledTrip>, t: Train, taken: set<string>, window: int, pick: Option<ScheduledTrip>)
  {
    match pick
    case None => forall i :: 0 <= i < |rows| ==> !Fits(rows[i], t, taken, window)
    case Some(r) => exists i :: FirstNearest(rows, i, t, taken, window) && rows[i] == r
  }

  lemma FirstBeaten(rows: seq<ScheduledTrip>, c: ScheduledTrip, i: int, t: Train, taken: set<string>, window: int)
    requires FirstNearest(rows, i, t, taken, window) && Fits(c, t, taken, window)
    requires Abs(c.arrival - t.time) < Abs(rows[i].arrival - t.time)
    ensures FirstNearest(rows + [c], |rows|, t, taken, window)
  {
    forall j | 0 <= j < |rows| && Fits((rows + [c])[j], t, taken, window)
      ensures Abs(c.arrival - t.time) < Abs((rows + [c])[j].arrival - t.time)
    {
      assert (rows + [c])[j] == rows[j];
    }
  }

  lemma FirstKept(rows: seq<ScheduledTrip>, c: ScheduledTrip, i: int, t: Train, taken: set<string>, window: int)
    requires FirstNearest(rows, i, t, taken, window)
    requires Fits(c, t, taken, window) ==> Abs(rows[i].arrival - t.time) <= Abs(c.arrival - t.time)
    ensures FirstNearest(rows + [c], i, t, taken, window)
  {
    var all := rows + [c];
    assert all[i] == rows[i];
    forall j | 0 <= j < i && Fits(all[j], t, taken, window)
      ensures Abs(all[i].arrival - t.time) < Abs(all[j].arrival - t.time)
    {
      assert all[j] == rows[j];
    }
    forall j | i < j < |all| && Fits(all[j], t, taken, window)
      ensures Abs(all[i].arrival - t.time) <= Abs(all[j].arrival - t.time)
    {
      assert j < |rows| ==> all[j] == rows[j];
    }
  }

  lemma FirstNearestAppend(
    rows: seq<ScheduledTrip>, c: ScheduledTrip, t: Train, taken: set<string>, window: int,
      before: Option<ScheduledTrip>)
    requires IsFirstNearest(rows, t, taken, window, before)
    ensures IsFirstNearest(rows + [c], t, taken, window,
              if Fits(c, t, taken, window)
                 && (before.None? || Abs(c.arrival - t.time) < Abs(before.value.arrival - t.time))
              then Some(c) else before)
  {
    if before.Some? {
      var i :| FirstNearest(rows, i, t, taken, window) && rows[i] == before.value;
      if Fits(c, t, taken, window) && Abs(c.arrival - t.time) < Abs(before.value.arrival - t.time) {
        FirstBeaten(rows, c, i, t, taken, window);
      } else {
        FirstKept(rows, c, i, t, taken, window);
      }
    } else {
      assert forall j :: 0 <= j < |rows| ==> (rows + [c])[j] == rows[j];
      assert Fits(c, t, taken, window) ==> FirstNearest(rows + [c], |rows|, t, taken, window);
    }
  }

  lemma GroupAppend(rows: seq<ScheduledTrip>, c: ScheduledTrip, route: string, direction: string)
    ensures Group(rows + [c], route, direction) ==
            if c.routeId == route && c.direction == direction
            then Group(rows, route, direction) + [c] else Group(rows, route, direction)
  {
    FilterConcat(rows, [c], InGroup(route, direction));
    assert Group(rows, route, direction) + [] == Group(rows, route, direction);
  }

  lemma GroupNearestStep(rows: seq<ScheduledTrip>, c: ScheduledTrip, t: Train, taken: set<string>, window: int)
    requires IsFirstNearest(rows, t, taken, window, Nearest(Group(rows, t.route, t.direction), t, taken, window))
    ensures IsFirstNearest(rows + [c], t, taken, window,
                           Nearest(Group(rows + [c], t.route, t.direction), t, taken, window))
  {
    var group := Group(rows, t.route, t.direction);
    GroupAppend(rows, c, t.route, t.direction);
    FirstNearestAppend(rows, c, t, taken, window, Nearest(group, t, taken, window));
    if c.routeId == t.route && c.direction == t.direction {
      NearestAppend(group, c, t, taken, window);
    }
  }

  lemma {:induction false} GroupNearest(rows: seq<ScheduledTrip>, t: Train, taken: set<string>, window: int)
    ensures IsFirstNearest(rows, t, taken, window, Nearest(Group(rows, t.route, t.direction), t, taken, window))
  {
    if rows == [] {
      NearestExists([], t, taken, window);
    } else {
      var n := |rows| - 1;
      GroupNearest(rows[..n], t, taken, window);
      GroupNearestStep(rows[..n], rows[n], t, taken, window);
      assert rows == rows[..n] + [rows[n]];
    }
  }

  /** The scheduled trip a train gets: the row its identifier selects while that is free, else the first
      nearest free row of its route and direction when its route is known, else none. */
  lemma PickMeaning(rows: seq<ScheduledTrip>, t: Train, taken: set<string>, window: int)
    ensures var hit, pick := IdHit(rows, t.tripId), Pick(rows, t, taken, window);
            if hit.Some? && hit.value.tripId !in taken then pick == hit
            else if t.route == "???" then pick == None
            else IsFirstNearest(rows, t, taken, window, pick)
  {
    GroupNearest(rows, t, taken, window);
  }

  function Taken(picks: seq<Option<ScheduledTrip>>): set<string> {
    set i | 0 <= i < |picks| && picks[i].Some? :: picks[i].value.tripId
  }

  ghost function Picks(rows: seq<ScheduledTrip>, trains: seq<Train>, window: int): (r: seq<Option<ScheduledTrip>>)
    ensures |r| == |trains|
  {
    if trains == [] then [] else
      var n := |trains| - 1;
      var before := Picks(rows, trains[..n], window);
      before + [Pick(rows, trains[n], Taken(before), window)]
  }

  lemma TakenSnoc(picks: seq<Option<ScheduledTrip>>, p: Option<ScheduledTrip>)
    ensures Taken(picks + [p]) == Taken(picks) + if p.Some? then {p.value.tripId} else {}
  {
    var all := picks + [p];
    assert all[|picks|] == p && forall i :: 0 <= i < |picks| ==> all[i] == picks[i];
    forall x ensures x in Taken(all) <==> x in Taken(picks) + if p.Some? then {p.value.tripId} else {} {
      if x in Taken(picks) {
        var i :| 0 <= i < |picks| && picks[i].Some? && picks[i].value.tripId == x;
        assert all[i].Some? && all[i].value.tripId == x;
      }
    }
  }

  /** Each pick is made knowing exactly the picks before it. */
  lemma {:induction false} PickAt(rows: seq<ScheduledTrip>, trains: seq<Train>, window: int, i: int)
    requires 0 <= i < |trains|
    ensures Picks(rows, trains, window)[..i] == Picks(rows, trains[..i], window)
    ensures Picks(rows, trains, window)[i] == Pick(rows, trains[i], Taken(Picks(rows, trains[..i], window)), window)
  {
    var n := |trains| - 1;
    var before := Picks(rows, trains[..n], window);
    assert Picks(rows, trains, window)[..n] == before;
    if i < n {
      PickAt(rows, trains[..n], window, i);
      assert trains[..n][..i] == trains[..i];
      assert Picks(rows, trains, window)[..i] == before[..i];
    }
  }

  lemma PicksSnoc(rows: seq<ScheduledTrip>, trains: seq<Train>, t: Train, window: int)
    ensures Picks(rows, trains + [t], window) ==
            Picks(rows, trains, window) + [Pick(rows, t, Taken(Picks(rows, trains, window)), window)]
  {
    assert (trains + [t])[..|trains|] == trains;
  }

  lemma TakenPrefix(picks: seq<Option<ScheduledTrip>>, i: int)
    requires 0 <= i <= |picks|
    ensures Taken(picks[..i]) <= Taken(picks)
  {
    forall x | x in Taken(picks[..i]) ensures x in Taken(picks) {
      var j :| 0 <= j < i && picks[..i][j].Some? && picks[..i][j].value.tripId == x;
      assert picks[j].Some? && picks[j].value.tripId == x;
    }
  }

  lemma PickIsFree(rows: seq<ScheduledTrip>, t: Train, taken: set<string>, window: int)
    ensures var p := Pick(rows, t, taken, window); p.Some? ==> p.value in rows && p.value.tripId !in taken
  {
    IdHitMeaning(rows, t.tripId);
    NearestExists(Group(rows, t.route, t.direction), t, taken, window);
  }

  /** No two trains hold the same scheduled trip. */
  ghost predicate Injective(picks: seq<Option<ScheduledTrip>>) {
    forall i, j :: 0 <= i < j < |picks| && picks[i].Some? && picks[j].Some? ==>
      picks[i].value.tripId != picks[j].value.tripId
  }

  /** Every pick is a row of the schedule, and no scheduled trip is given to two trains. */
  lemma MatchingIsInjective(rows: seq<ScheduledTrip>, trains: seq<Train>, window: int)
    ensures Injective(Picks(rows, trains, window))
    ensures forall i | 0 <= i < |trains| && Picks(rows, trains, window)[i].Some? ::
              Picks(rows, trains, window)[i].value in rows
  {
    var picks := Picks(rows, trains, window);
    forall j | 0 <= j < |picks| && picks[j].Some?
      ensures picks[j].value in rows
      ensures forall i | 0 <= i < j && picks[i].Some? :: picks[i].value.tripId != picks[j].value.tripId
    {
      PickAt(rows, trains, window, j);
      PickIsFree(rows, trains[j], Taken(Picks(rows, trains[..j], window)), window);
      forall i | 0 <= i < j && picks[i].Some? ensures picks[i].value.tripId != picks[j].value.tripId {
        assert picks[..j][i] == picks[i];
        assert picks[i].value.tripId in Taken(picks[..j]);
      }
    }
  }

  /** A row a train's identifier selects never stays free, even if another train got it. */
  lemma IdHitIsTaken(rows: seq<ScheduledTrip>, trains: seq<Train>, window: int, i: int)
    requires 0 <= i < |trains| && IdHit(rows, trains[i].tripId).Some?
    ensures IdHit(rows, trains[i].tripId).value.tripId in Taken(Picks(rows, trains, window))
  {
    var picks := Picks(rows, trains, window);
    PickAt(rows, trains, window, i);
    TakenPrefix(picks, i);
    if picks[i] == IdHit(rows, trains[i].tripId) {
      assert picks[i].value.tripId in Taken(picks);
    }
  }

  /** `id` names a scheduled trip on the train's route and direction, strictly within the window. */
  ghost predicate Compatible(rows: seq<ScheduledTrip>, t: Train, id: string, window: int) {
    t.route != UNKNOWN &&
    exists r :: r in rows && r.tripId == id && r.routeId == t.route && r.direction == t.direction
                && Abs(r.arrival - t.time) < window
  }

  /** The ways the train and the trip `id` can be matched: by identifier, or by route, direction and time. */
  ghost predicate Matchable(rows: seq<ScheduledTrip>, t: Train, id: string, window: int) {
    || (IdHit(rows, t.tripId).Some? && IdHit(rows, t.tripId).value.tripId == id)
    || Compatible(rows, t, id, window)
  }

  /** No train is left without a trip while a trip it could be matched with is left without a train. */
  lemma MatchingIsMaximal(rows: seq<ScheduledTrip>, trains: seq<Train>, window: int, i: int, id: string)
    requires 0 <= i < |trains| && Matchable(rows, trains[i], id, window)
    ensures Picks(rows, trains, window)[i].Some? || id in Taken(Picks(rows, trains, window))
  {
    var picks, t := Picks(rows, trains, window), trains[i];
    if !Compatible(rows, t, id, window) {
      IdHitIsTaken(rows, trains, window, i);
    } else if picks[i].None? {
      PickAt(rows, trains, window, i);
      var r :| r in rows && r.tripId == id && r.routeId == t.route && r.direction == t.direction
               && Abs(r.arrival - t.time) < window;
      assert InGroup(t.route, t.direction)(r);
      assert r in Group(rows, t.route, t.direction);
      var taken := Taken(picks[..i]);
      NearestExists(Group(rows, t.route, t.direction), t, taken, window);
      assert !Eligible(r, t, taken, window);
      TakenPrefix(picks, i);
    }
  }

  // ----- at least half of optimal -----

  /** An assignment that uses each train and each scheduled trip at most once. */
  ghost predicate IsAssignment(m: set<(int, string)>) {
    forall a, b | a in m && b in m && a != b :: a.0 != b.0 && a.1 != b.1
  }

  lemma {:induction false} InjectionBound<A, B>(a: set<A>, b: set<B>, f: A -> B)
    requires forall x | x in a :: f(x) in b
    requires forall x, y | x in a && y in a && x != y :: f(x) != f(y)
    ensures |a| <= |b|
    decreases |a|
  {
    if a != {} {
      var x :| x in a;
      assert forall y | y in a - {x} :: f(y) in b - {f(x)};
      InjectionBound(a - {x}, b - {f(x)}, f);
    }
  }

  function Matched(picks: seq<Option<ScheduledTrip>>): set<int> {
    set i | 0 <= i < |picks| && picks[i].Some?
  }

  /** As many trains are matched as scheduled trips are taken. */
  lemma MatchedIsTaken(rows: seq<ScheduledTrip>, trains: seq<Train>, window: int)
    ensures var picks := Picks(rows, trains, window); |Matched(picks)| == |Taken(picks)|
  {
    var picks := Picks(rows, trains, window);
    MatchingIsInjective(rows, trains, window);
    var id: int -> string := i => if 0 <= i < |picks| && picks[i].Some? then picks[i].value.tripId else "";
    forall x, y | x in Matched(picks) && y in Matched(picks) && x != y ensures id(x) != id(y) {
      var a, b := if x < y then x else y, if x < y then y else x;
      assert picks[a].value.tripId != picks[b].value.tripId;
    }
    InjectionBound(Matched(picks), Taken(picks), id);
    var holder: string -> int := x => HolderOf(picks, x);
    InjectionBound(Taken(picks), Matched(picks), holder);
  }

  /** Which train took trip `id`. */
  function HolderOf(picks: seq<Option<ScheduledTrip>>, id: string): (i: int)
    ensures id in Taken(picks) ==> i in Matched(picks) && picks[i].value.tripId == id
  {
    if picks == [] then -1
    else if picks[|picks| - 1].Some? && picks[|picks| - 1].value.tripId == id then |picks| - 1
    else
      assert id in Taken(picks) ==> id in Taken(picks[..|picks| - 1]) by {
        assert picks == picks[..|picks| - 1] + [picks[|picks| - 1]];
        TakenSnoc(picks[..|picks| - 1], picks[|picks| - 1]);
      }
      HolderOf(picks[..|picks| - 1], id)
  }

  /** Whatever assignment of pairs that can be matched, by identifier or otherwise, one could make, the
      greedy one matches at least half as many trains. */
  lemma MatchingIsHalfOptimal(rows: seq<ScheduledTrip>, trains: seq<Train>, window: int, m: set<(int, string)>)
    requires IsAssignment(m)
    requires forall a | a in m :: 0 <= a.0 < |trains| && Matchable(rows, trains[a.0], a.1, window)
    ensures |m| <= 2 * |Taken(Picks(rows, trains, window))|
  {
    var picks := Picks(rows, trains, window);
    var byTrain := set a | a in m && a.0 in Matched(picks);
    var byTrip := set a | a in m && a.1 in Taken(picks);
    forall a | a in m ensures a in byTrain + byTrip {
      MatchingIsMaximal(rows, trains, window, a.0, a.1);
    }
    assert m == byTrain + byTrip;
    var train := (a: (int, string)) => a.0;
    var trip := (a: (int, string)) => a.1;
    InjectionBound(byTrain, Matched(picks), train);
    InjectionBound(byTrip, Taken(picks), trip);
    MatchedIsTaken(rows, trains, window);
  }

  lemma OnlyNearest(rows: seq<ScheduledTrip>, t: Train, taken: set<string>, window: int)
    requires t.route != UNKNOWN
    requires forall r | r in rows :: r.routeId == t.route && r.direction == t.direction
    requires forall r | r in rows :: r.tripId != t.tripId && !EndsWith(r.tripId, "_" + t.tripId)
    ensures Pick(rows, t, taken, window) == Nearest(rows, t, taken, window)
  {
    IdHitMeaning(rows, t.tripId);
    FilterAll(rows, InGroup(t.route, t.direction));
  }

  lemma CompatibleRow(rows: seq<ScheduledTrip>, i: nat, t: Train, window: int)
    requires i < |rows| && t.route != UNKNOWN && rows[i].routeId == t.route && rows[i].direction == t.direction
    requires Abs(rows[i].arrival - t.time) < window
    ensures Compatible(rows, t, rows[i].tripId, window)
  {
    assert rows[i] in rows;
  }

  /** The factor two is attained: serving the first train greedily can leave the second with nothing
      where an assignment of both exists. */
  lemma HalfIsAttained(window: int)
    returns (rows: seq<ScheduledTrip>, trains: seq<Train>, m: set<(int, string)>)
    requires window >= 2
    ensures IsAssignment(m) && |m| == 2 && |Taken(Picks(rows, trains, window))| == 1
    ensures forall a | a in m :: 0 <= a.0 < |trains| && Compatible(rows, trains[a.0], a.1, window)
  {
    var a := ScheduledTrip("A", "R", None, "N", 0);
    var b := ScheduledTrip("B", "R", None, "N", 1 - window);
    var t, u := Train("x", 0, "N", "R"), Train("y", window - 1, "N", "R");
    rows, trains, m := [a, b], [] + [t] + [u], {(0, "B"), (1, "A")};
    GreedyTakesOne(a, b, t, u, window);
    CompatibleRow(rows, 1, t, window);
    CompatibleRow(rows, 0, u, window);
  }

  /** The first train is nearest to `A`, which leaves `B` out of the second train's window. */
  lemma GreedyPicks(a: ScheduledTrip, b: ScheduledTrip, t: Train, u: Train, window: int)
    requires window >= 2
    requires a == ScheduledTrip("A", "R", None, "N", 0) && b == ScheduledTrip("B", "R", None, "N", 1 - window)
    requires t == Train("x", 0, "N", "R") && u == Train("y", window - 1, "N", "R")
    ensures Pick([a, b], t, {}, window) == Some(a) && Pick([a, b], u, {"A"}, window) == None
  {
    var rows := [a, b];
    assert forall r | r in rows :: r == a || r == b;
    OnlyNearest(rows, t, {}, window);
    assert IsNearest(rows, 0, t, {}, window);
    NearestUnique(rows, 0, t, {}, window);
    OnlyNearest(rows, u, {"A"}, window);
    NearestExists(rows, u, {"A"}, window);
  }

  lemma GreedyTakesOne(a: ScheduledTrip, b: ScheduledTrip, t: Train, u: Train, window: int)
    requires window >= 2
    requires a == ScheduledTrip("A", "R", None, "N", 0) && b == ScheduledTrip("B", "R", None, "N", 1 - window)
    requires t == Train("x", 0, "N", "R") && u == Train("y", window - 1, "N", "R")
    ensures Taken(Picks([a, b], [] + [t] + [u], window)) == {"A"}
  {
    GreedyPicks(a, b, t, u, window);
    assert Taken([]) == {};
    PicksSnoc([a, b], [], t, window);
    var first := Picks([a, b], [] + [t], window);
    assert first == [] + [Some(a)];
    TakenSnoc([], Some(a));
    assert Taken(first) == {"A"};
    PicksSnoc([a, b], [] + [t], u, window);
    TakenSnoc(first, None);
  }
}
