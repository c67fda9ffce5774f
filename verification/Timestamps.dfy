/** The guard on feed timestamps: what one worker per feed makes of a read and a separate write. */
module Timestamps {
  import opened Models
  import opened RedisStore
  import opened Hydration
  import opened History
  import opened Workers

  ghost predicate OnePerFeed(keyOf: Assignment) {
    forall t, u :: t in keyOf && u in keyOf && t != u ==> keyOf[t] != keyOf[u]
  }

  /** The stored timestamp of a feed is the largest one compared so far, or 0. */
  ghost predicate StampIsMax(w: World, key: string) {
    && 0 <= StampOf(w, key)
    && (forall e | e in w.log && e.Compared? && e.key == key :: e.stamp <= StampOf(w, key))
    && (StampOf(w, key) != 0 ==> exists e :: e in w.log && e.Compared? && e.key == key && e.stamp == StampOf(w, key))
  }

  /** Feed keys never expire and hold timestamps. */
  ghost predicate StampsKept(w: World) {
    forall key :: FeedKey(key) in w.store.db ==>
      w.store.db[FeedKey(key)].value.Stamp? && w.store.db[FeedKey(key)].expiry.None?
  }

  predicate IsAccepted(e: Event, key: string) { e.Compared? && e.key == key && e.verdict.Stored? }

  predicate IsHydrated(e: Event, key: string) { e.Hydrated? && e.key == key }

  /** The stamps taken from a feed increase strictly; so do the stamps hydrated. */
  ghost predicate Increasing(log: seq<Event>, key: string) {
    && (forall i, j :: 0 <= i < j < |log| && IsAccepted(log[i], key) && IsAccepted(log[j], key) ==>
      log[i].stamp < log[j].stamp)
    && (forall i, j :: 0 <= i < j < |log| && IsHydrated(log[i], key) && IsHydrated(log[j], key) ==>
      log[i].stamp < log[j].stamp)
  }

  /** The stamp a worker is busy with, once it has been accepted. */
  function Held(pc: Pc): Option<int> {
    match pc
    case Accepted(raw) => Some(raw.stamp)
    case Batching(stamp, _, _, _) => Some(stamp)
    case _ => None
  }

  /** A worker's reading is still current, and what it holds is the stored stamp, not hydrated yet. */
  ghost predicate ThreadFresh(keyOf: Assignment, w: World, t: string) {
    t in w.pcs && t in keyOf ==>
      var pc, key := w.pcs[t], keyOf[t];
      && (pc.Read? ==> pc.last == StampOf(w, key))
      && (Held(pc).Some? ==>
            Held(pc).value == StampOf(w, key) &&
            forall e | e in w.log && IsHydrated(e, key) :: e.stamp < StampOf(w, key))
  }

  ghost predicate HydratedWithin(w: World, key: string) {
    forall e | e in w.log && IsHydrated(e, key) :: e.stamp <= StampOf(w, key)
  }

  ghost predicate Fresh(keyOf: Assignment, w: World) {
    && StampsKept(w)
    && (forall key :: StampIsMax(w, key) && Increasing(w.log, key) && HydratedWithin(w, key))
    && (forall t :: ThreadFresh(keyOf, w, t))
  }

  lemma HydrationSparesStamps(cfg: Settings, db: Db, feed: Feed, now: int, at: int, key: string)
    ensures SameAt(Hydrate(cfg, db, feed, now, at), db, FeedKey(key))
  {
    forall k ensures FeedKey(key) != TripKey(k) && FeedKey(key) != ArrivalsKey(k) {
      KeysApart(k, key);
    }
    OtherAfter(cfg, db, feed, now, at, FeedKey(key));
  }

  /** What one action does to the stored stamps: a comparison may raise the stamp of its own feed, and
      nothing else touches any. */
  lemma StampStep(cfg: Settings, keyOf: Assignment, w: World, a: Action, key: string)
    requires Buffered(cfg, w) && StampsKept(w)
    ensures var next := Act(cfg, keyOf, w, a);
            StampOf(next, key) ==
              if a.Compare? && a.thread in w.pcs && a.thread in keyOf && w.pcs[a.thread].Read?
                 && w.pcs[a.thread].last < w.pcs[a.thread].raw.stamp && keyOf[a.thread] == key
              then w.pcs[a.thread].raw.stamp else StampOf(w, key)
    ensures FeedKey(key) in Act(cfg, keyOf, w, a).store.db ==>
              var cell := Act(cfg, keyOf, w, a).store.db[FeedKey(key)]; cell.value.Stamp? && cell.expiry.None?
  {
    if !a.Tick? && a.thread in w.pcs && a.thread in keyOf {
      var t, pc := a.thread, w.pcs[a.thread];
      KeysApart(key, keyOf[t]);
      assert ThreadBuffered(cfg, w, t);
      if a.Finish? && pc.Batching? && pc.rest == [] {
        FinishCommits(cfg, keyOf, w, t, a.ending);
        HydrationSparesStamps(cfg, w.store.db, pc.feed, pc.now, w.clock, key);
      }
    }
  }

  lemma MaxStep(cfg: Settings, keyOf: Assignment, w: World, a: Action, key: string)
    requires Buffered(cfg, w) && StampsKept(w) && StampIsMax(w, key)
    requires !a.Tick? ==> ThreadFresh(keyOf, w, a.thread)
    ensures StampIsMax(Act(cfg, keyOf, w, a), key)
  {
    StampStep(cfg, keyOf, w, a, key);
    LogStep(cfg, keyOf, w, a);
    var next := Act(cfg, keyOf, w, a);
    assert forall e :: e in next.log <==> e in w.log || e in NewEvents(keyOf, w, a);
    if StampOf(next, key) != StampOf(w, key) {
      assert NewEvents(keyOf, w, a)[0] in next.log;
    }
  }

  lemma IncreasingSnoc(log: seq<Event>, e: Event, key: string)
    requires Increasing(log, key)
    requires IsAccepted(e, key) ==> forall d | d in log && IsAccepted(d, key) :: d.stamp < e.stamp
    requires IsHydrated(e, key) ==> forall d | d in log && IsHydrated(d, key) :: d.stamp < e.stamp
    ensures Increasing(log + [e], key)
  {
    assert forall i | 0 <= i < |log| :: log[i] in log;
  }

  lemma LogOrderStep(cfg: Settings, keyOf: Assignment, w: World, a: Action, key: string)
    requires Buffered(cfg, w) && StampsKept(w) && StampIsMax(w, key) && Increasing(w.log, key) && HydratedWithin(w, key)
    requires !a.Tick? ==> ThreadFresh(keyOf, w, a.thread)
    ensures Increasing(Act(cfg, keyOf, w, a).log, key) && HydratedWithin(Act(cfg, keyOf, w, a), key)
  {
    StampStep(cfg, keyOf, w, a, key);
    LogStep(cfg, keyOf, w, a);
    var news := NewEvents(keyOf, w, a);
    if news == [] {
      assert w.log + [] == w.log;
    } else {
      assert news == [news[0]];
      IncreasingSnoc(w.log, news[0], key);
    }
  }

  lemma ThreadStep(cfg: Settings, keyOf: Assignment, w: World, a: Action, u: string)
    requires Buffered(cfg, w) && StampsKept(w) && ThreadFresh(keyOf, w, u)
    requires OnePerFeed(keyOf) && u in keyOf && StampIsMax(w, keyOf[u]) && HydratedWithin(w, keyOf[u])
    ensures ThreadFresh(keyOf, Act(cfg, keyOf, w, a), u)
  {
    var key := keyOf[u];
    StampStep(cfg, keyOf, w, a, key);
    LogStep(cfg, keyOf, w, a);
    if a.Tick? || a.thread != u {
      ActFrame(cfg, keyOf, w, a, u);
      assert forall e | e in NewEvents(keyOf, w, a) :: e.key != key;
    }
  }

  /** With one thread per feed, everything the guard relies on survives every action. */
  lemma FreshStep(cfg: Settings, keyOf: Assignment, w: World, a: Action)
    requires OnePerFeed(keyOf) && Buffered(cfg, w) && Fresh(keyOf, w)
    ensures Fresh(keyOf, Act(cfg, keyOf, w, a))
  {
    var next := Act(cfg, keyOf, w, a);
    forall key ensures StampIsMax(next, key) && Increasing(next.log, key) && HydratedWithin(next, key) {
      assert StampIsMax(w, key) && Increasing(w.log, key) && HydratedWithin(w, key);
      MaxStep(cfg, keyOf, w, a, key);
      LogOrderStep(cfg, keyOf, w, a, key);
    }
    forall t ensures ThreadFresh(keyOf, next, t) {
      assert ThreadFresh(keyOf, w, t);
      if t in keyOf {
        assert StampIsMax(w, keyOf[t]) && HydratedWithin(w, keyOf[t]);
        ThreadStep(cfg, keyOf, w, a, t);
      }
    }
    forall key | FeedKey(key) in next.store.db
      ensures next.store.db[FeedKey(key)].value.Stamp? && next.store.db[FeedKey(key)].expiry.None?
    {
      StampStep(cfg, keyOf, w, a, key);
    }
  }

  lemma {:induction false} AlwaysFresh(cfg: Settings, keyOf: Assignment, acts: seq<Action>)
    requires OnePerFeed(keyOf)
    ensures Fresh(keyOf, Exec(cfg, keyOf, acts))
  {
    if acts == [] {
    } else {
      var before := acts[..|acts| - 1];
      AlwaysBuffered(cfg, keyOf, before);
      AlwaysFresh(cfg, keyOf, before);
      FreshStep(cfg, keyOf, Exec(cfg, keyOf, before), acts[|acts| - 1]);
    }
  }

  /** Under every interleaving and every failure: the stored timestamp of a feed is the largest compared
      so far, and both the accepted and the hydrated timestamps of a feed increase strictly. */
  lemma StampsAreMonotone(cfg: Settings, keyOf: Assignment, acts: seq<Action>, key: string)
    requires OnePerFeed(keyOf)
    ensures var w := Exec(cfg, keyOf, acts); StampIsMax(w, key) && Increasing(w.log, key)
  {
    AlwaysFresh(cfg, keyOf, acts);
  }

  /** No action ever lowers a stored timestamp. */
  lemma StampNeverDecreases(cfg: Settings, keyOf: Assignment, acts: seq<Action>, a: Action, key: string)
    requires OnePerFeed(keyOf)
    ensures StampOf(Exec(cfg, keyOf, acts + [a]), key) >= StampOf(Exec(cfg, keyOf, acts), key)
  {
    var w := Exec(cfg, keyOf, acts);
    AlwaysFresh(cfg, keyOf, acts);
    AlwaysBuffered(cfg, keyOf, acts);
    ExecSnoc(cfg, keyOf, acts, a);
    StampStep(cfg, keyOf, w, a, key);
    if !a.Tick? {
      assert ThreadFresh(keyOf, w, a.thread);
    }
  }

  // ----- one worker per feed is needed -----

  /** No feed timestamp is hydrated twice. */
  ghost predicate AtMostOnce(log: seq<Event>) {
    forall i, j :: 0 <= i < j < |log| && log[i].Hydrated? && log[j].Hydrated? && log[i].key == log[j].key
      ==> log[i].stamp != log[j].stamp
  }

  /** One action of a run, given where the run is. */
  lemma Next(cfg: Settings, keyOf: Assignment, acts: seq<Action>, w: World, a: Action)
    returns (acts': seq<Action>, w': World)
    requires w == Exec(cfg, keyOf, acts)
    ensures acts' == acts + [a] && w' == Act(cfg, keyOf, w, a) && w' == Exec(cfg, keyOf, acts')
  {
    acts', w' := acts + [a], Act(cfg, keyOf, w, a);
    ExecSnoc(cfg, keyOf, acts, a);
  }

  lemma EmptyFeedWritesNothing(cfg: Settings, now: int)
    ensures HydrateCommands(cfg, Feed([]), now) == []
  {
    assert Updates([]) == [] && Reports([], now) == [];
  }

  /** Both threads fetch the same feed and read the stored stamp before either writes it: both accept. */
  lemma BothAccept(cfg: Settings, keyOf: Assignment, t: string, u: string) returns (acts: seq<Action>, w: World)
    requires t in keyOf && u in keyOf && t != u && keyOf[t] == keyOf[u]
    ensures var raw := Raw(1, Some(Feed([])));
            && w == Exec(cfg, keyOf, acts) && t in w.pcs && u in w.pcs
            && w.pcs[t] == Accepted(raw) && w.pcs[u] == Accepted(raw)
            && t !in w.store.pipes && u !in w.store.pipes
  {
    var raw := Raw(1, Some(Feed([])));
    acts, w := [], Init(keyOf);
    acts, w := Next(cfg, keyOf, acts, w, Fetch(t, raw));
    acts, w := Next(cfg, keyOf, acts, w, Fetch(u, raw));
    acts, w := Next(cfg, keyOf, acts, w, GetStamp(t));
    acts, w := Next(cfg, keyOf, acts, w, GetStamp(u));
    assert w.pcs[t] == Read(raw, 0) && w.pcs[u] == Read(raw, 0);
    acts, w := Next(cfg, keyOf, acts, w, Compare(t, false));
    acts, w := Next(cfg, keyOf, acts, w, Compare(u, false));
  }

  /** A thread that holds an accepted empty feed validates it and commits its batch. */
  lemma HydrateEmpty(cfg: Settings, keyOf: Assignment, acts: seq<Action>, w: World, t: string)
    returns (acts': seq<Action>, w': World)
    requires w == Exec(cfg, keyOf, acts) && t in keyOf && t in w.pcs && t !in w.store.pipes
    requires w.pcs[t] == Accepted(Raw(1, Some(Feed([]))))
    ensures w' == Exec(cfg, keyOf, acts')
    ensures w'.log == w.log + [Hydrated(keyOf[t], 1, Batch(Feed([]), w.clock, w.clock))]
    ensures forall u | u != t && u in w.pcs :: u in w'.pcs && w'.pcs[u] == w.pcs[u]
    ensures forall u | u !in w.store.pipes :: u !in w'.store.pipes
  {
    EmptyFeedWritesNothing(cfg, w.clock);
    acts', w' := Next(cfg, keyOf, acts, w, Validate(t));
    assert w'.pcs[t] == Batching(1, Feed([]), w.clock, []);
    acts', w' := Next(cfg, keyOf, acts', w', Finish(t, Committed));
  }

  lemma TwoThreadsHydrateTwice(cfg: Settings, keyOf: Assignment, t: string, u: string) returns (acts: seq<Action>)
    requires t in keyOf && u in keyOf && t != u && keyOf[t] == keyOf[u]
    ensures !AtMostOnce(Exec(cfg, keyOf, acts).log)
  {
    var w0: World, w1: World, w2: World;
    acts, w0 := BothAccept(cfg, keyOf, t, u);
    acts, w1 := HydrateEmpty(cfg, keyOf, acts, w0, t);
    acts, w2 := HydrateEmpty(cfg, keyOf, acts, w1, u);
    var i := |w0.log|;
    assert w2.log[i].Hydrated? && w2.log[i + 1].Hydrated?;
    assert w2.log[i].key == w2.log[i + 1].key && w2.log[i].stamp == w2.log[i + 1].stamp;
  }

  /** The action does not lower the stored timestamp of the feed. */
  ghost predicate KeepsStamp(cfg: Settings, keyOf: Assignment, acts: seq<Action>, a: Action, key: string) {
    StampOf(Exec(cfg, keyOf, acts + [a]), key) >= StampOf(Exec(cfg, keyOf, acts), key)
  }

  /** Two threads on a feed: both read 0, one stores 2, then the other stores 1. */
  lemma TwoThreadsLowerStamp(cfg: Settings, keyOf: Assignment, t: string, u: string)
    returns (acts: seq<Action>, a: Action)
    requires t in keyOf && u in keyOf && t != u && keyOf[t] == keyOf[u]
    ensures !KeepsStamp(cfg, keyOf, acts, a, keyOf[t])
  {
    var raw2, raw1 := Raw(2, None), Raw(1, None);
    var w: World;
    acts, w := [], Init(keyOf);
    acts, w := Next(cfg, keyOf, acts, w, Fetch(t, raw2));
    acts, w := Next(cfg, keyOf, acts, w, Fetch(u, raw1));
    acts, w := Next(cfg, keyOf, acts, w, GetStamp(t));
    acts, w := Next(cfg, keyOf, acts, w, GetStamp(u));
    assert w.pcs[t] == Read(raw2, 0) && w.pcs[u] == Read(raw1, 0) && u !in w.store.pipes;
    acts, w := Next(cfg, keyOf, acts, w, Compare(t, false));
    assert StampOf(w, keyOf[t]) == 2 && w.pcs[u] == Read(raw1, 0);
    a := Compare(u, false);
    var acts', w' := Next(cfg, keyOf, acts, w, a);
    assert StampOf(w', keyOf[t]) == 1;
  }

  /** Stored timestamps never go down, in any run, exactly when no two threads share a feed. */
  lemma StampsNeverDecreaseIff(cfg: Settings, keyOf: Assignment)
    ensures OnePerFeed(keyOf) <==> forall acts, a, key :: KeepsStamp(cfg, keyOf, acts, a, key)
  {
    if OnePerFeed(keyOf) {
      forall acts, a, key ensures KeepsStamp(cfg, keyOf, acts, a, key) {
        StampNeverDecreases(cfg, keyOf, acts, a, key);
      }
    } else {
      var t, u :| t in keyOf && u in keyOf && t != u && keyOf[t] == keyOf[u];
      var acts, a := TwoThreadsLowerStamp(cfg, keyOf, t, u);
    }
  }

  /** The read and the write of a timestamp are separate round trips, so the guard works exactly when no
      two threads share a feed: then, and only then, no run hydrates a timestamp twice. */
  lemma AtMostOnceNeedsOneWorkerPerFeed(cfg: Settings, keyOf: Assignment)
    ensures OnePerFeed(keyOf) <==> forall acts :: AtMostOnce(Exec(cfg, keyOf, acts).log)
  {
    if OnePerFeed(keyOf) {
      forall acts ensures AtMostOnce(Exec(cfg, keyOf, acts).log) {
        AlwaysFresh(cfg, keyOf, acts);
        var log := Exec(cfg, keyOf, acts).log;
        forall i, j | 0 <= i < j < |log| && log[i].Hydrated? && log[j].Hydrated? && log[i].key == log[j].key
          ensures log[i].stamp != log[j].stamp
        {
          assert Increasing(log, log[i].key);
          assert IsHydrated(log[i], log[i].key) && IsHydrated(log[j], log[i].key);
        }
      }
    } else {
      var t, u :| t in keyOf && u in keyOf && t != u && keyOf[t] == keyOf[u];
      var acts := TwoThreadsHydrateTwice(cfg, keyOf, t, u);
    }
  }
}
