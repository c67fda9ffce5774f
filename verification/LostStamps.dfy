/**
 Storing a timestamp before its feed is hydrated: when a compared timestamp is hydrated, when it still
 can be, and that one which no longer can is lost for good.
 */
module LostStamps {
  import opened Models
  import opened RedisStore
  import opened Workers
  import opened Timestamps
  import opened WorkerCycle

  ghost predicate WasHydrated(log: seq<Event>, key: string, stamp: int) {
    exists e :: e in log && IsHydrated(e, key) && e.stamp == stamp
  }

  /** One uninterrupted cycle stores every newer timestamp, and hydrates it if and only if the write is
      acknowledged, the feed is valid and its batch is executed. */
  lemma CycleHydratesIff(
    cfg: Settings, keyOf: Assignment, w: World, t: string, raw: Raw, replyLost: bool, ending: Ending)
    requires Buffered(cfg, w) && StampsKept(w) && t in w.pcs && t in keyOf && w.pcs[t] == Idle
    requires StampOf(w, keyOf[t]) < raw.stamp
    ensures var done := FullCycle(cfg, keyOf, w, t, raw, replyLost, ending);
            && |w.log| <= |done.log|
            && (WasHydrated(done.log[|w.log|..], keyOf[t], raw.stamp) <==>
                  !replyLost && raw.feed.Some? && (ending == Committed || ending == ReplyLost))
            && StampOf(done, keyOf[t]) == raw.stamp
  {
    var done := FullCycle(cfg, keyOf, w, t, raw, replyLost, ending);
    var events := CycleEvents(keyOf[t], StampOf(w, keyOf[t]), raw, replyLost, w.clock, ending);
    UninterruptedCycle(cfg, keyOf, w, t, raw, replyLost, ending);
    CycleKeepsClock(cfg, keyOf, w, t, raw, replyLost, ending);
    StampAfterCycle(cfg, w.store.db, keyOf[t], raw, replyLost, w.clock, ending);
    assert done.log[|w.log|..] == events;
    if !replyLost && raw.feed.Some? && ending.Executed() {
      assert events[1] in events;
    }
  }

  lemma CycleKeepsClock(
    cfg: Settings, keyOf: Assignment, w: World, t: string, raw: Raw, replyLost: bool, ending: Ending)
    requires Buffered(cfg, w) && t in w.pcs && t in keyOf && w.pcs[t] == Idle
    ensures FullCycle(cfg, keyOf, w, t, raw, replyLost, ending).clock == w.clock
  {
    var open := CycleOpens(cfg, keyOf, w, t, raw, replyLost);
    if open.pcs[t].Batching? {
      IssueAll(cfg, keyOf, open, t);
    }
  }

  /** Hydration leaves the stored timestamps alone. */
  lemma StampAfterCycle(cfg: Settings, db: Db, key: string, raw: Raw, replyLost: bool, now: int, ending: Ending)
    requires !HoldsSet(db, FeedKey(key), now) && ReadStamp(db, FeedKey(key), now) < raw.stamp
    ensures ReadStamp(CycleDb(cfg, db, key, Some(raw), replyLost, now, now, ending), FeedKey(key), now) == raw.stamp
  {
    var stamped := Apply(db, Set(FeedKey(key), Stamp(raw.stamp), None), now);
    if raw.feed.Some? {
      HydrationSparesStamps(cfg, stamped, raw.feed.value, now, now, key);
    }
  }

  // ----- what can still happen to a timestamp -----

  /** A worker at `pc` may yet hydrate the timestamp: it is newer than the stored one, or the worker has
      accepted it with a valid feed. */
  predicate MayHydrate(pc: Pc, stored: int, stamp: int) {
    || stamp > stored
    || (pc.Accepted? && pc.raw.stamp == stamp && pc.raw.feed.Some?)
    || (pc.Batching? && pc.stamp == stamp)
  }

  ghost predicate Alive(keyOf: Assignment, w: World, key: string, stamp: int) {
    exists t :: t in w.pcs && t in keyOf && keyOf[t] == key && MayHydrate(w.pcs[t], StampOf(w, key), stamp)
  }

  /** No step revives a timestamp, and only a step of a worker that may hydrate it does. */
  lemma DeadStep(cfg: Settings, keyOf: Assignment, w: World, a: Action, key: string, stamp: int)
    requires Buffered(cfg, w) && Fresh(keyOf, w) && !Alive(keyOf, w, key, stamp)
    ensures var next := Act(cfg, keyOf, w, a);
            && !Alive(keyOf, next, key, stamp)
            && (WasHydrated(next.log, key, stamp) <==> WasHydrated(w.log, key, stamp))
  {
    var next := Act(cfg, keyOf, w, a);
    StampStep(cfg, keyOf, w, a, key);
    LogStep(cfg, keyOf, w, a);
    if !a.Tick? { assert ThreadFresh(keyOf, w, a.thread); }
    forall u | u in next.pcs && u in keyOf && keyOf[u] == key
      ensures !MayHydrate(next.pcs[u], StampOf(next, key), stamp)
    {
      if a.Tick? || a.thread != u { ActFrame(cfg, keyOf, w, a, u); }
      assert u in w.pcs && !MayHydrate(w.pcs[u], StampOf(w, key), stamp);
    }
    assert forall e | e in NewEvents(keyOf, w, a) :: !(IsHydrated(e, key) && e.stamp == stamp);
    assert forall e :: e in next.log <==> e in w.log || e in NewEvents(keyOf, w, a);
  }

  lemma {:induction false} StaysDead(
    cfg: Settings, keyOf: Assignment, acts: seq<Action>, more: seq<Action>, key: string, stamp: int)
    requires OnePerFeed(keyOf) && !Alive(keyOf, Exec(cfg, keyOf, acts), key, stamp)
    ensures var later := Exec(cfg, keyOf, acts + more);
            && !Alive(keyOf, later, key, stamp)
            && (WasHydrated(later.log, key, stamp) <==> WasHydrated(Exec(cfg, keyOf, acts).log, key, stamp))
  {
    if more == [] {
      assert acts + more == acts;
    } else {
      var rest, a := more[..|more| - 1], more[|more| - 1];
      StaysDead(cfg, keyOf, acts, rest, key, stamp);
      assert acts + more == (acts + rest) + [a];
      ExecSnoc(cfg, keyOf, acts + rest, a);
      AlwaysBuffered(cfg, keyOf, acts + rest);
      AlwaysFresh(cfg, keyOf, acts + rest);
      DeadStep(cfg, keyOf, Exec(cfg, keyOf, acts + rest), a, key, stamp);
    }
  }

  // ----- a run that hydrates a timestamp which is alive -----

  lemma {:induction false} RunExtends(cfg: Settings, keyOf: Assignment, acts: seq<Action>, more: seq<Action>)
    ensures Exec(cfg, keyOf, acts + more) == Run(cfg, keyOf, Exec(cfg, keyOf, acts), more)
    decreases |more|
  {
    if more == [] {
      assert acts + more == acts;
    } else {
      assert acts + more == (acts + [more[0]]) + more[1..];
      ExecSnoc(cfg, keyOf, acts, more[0]);
      RunExtends(cfg, keyOf, acts + [more[0]], more[1..]);
    }
  }

  /** `acts` continues `start` and ends in `w`. */
  ghost predicate Continues(cfg: Settings, keyOf: Assignment, start: seq<Action>, acts: seq<Action>, w: World) {
    start <= acts && w == Exec(cfg, keyOf, acts)
  }

  lemma HydrateOpen(cfg: Settings, keyOf: Assignment, start: seq<Action>, acts: seq<Action>, w: World, t: string)
    returns (acts': seq<Action>)
    requires Continues(cfg, keyOf, start, acts, w) && t in w.pcs && t in keyOf && w.pcs[t].Batching?
    ensures start <= acts' && WasHydrated(Exec(cfg, keyOf, acts').log, keyOf[t], w.pcs[t].stamp)
  {
    var issues := Issues(t, |w.pcs[t].rest|);
    AlwaysBuffered(cfg, keyOf, acts);
    IssueAll(cfg, keyOf, w, t);
    RunExtends(cfg, keyOf, acts, issues);
    var issued := Exec(cfg, keyOf, acts + issues);
    acts' := acts + issues + [Finish(t, Committed)];
    ExecSnoc(cfg, keyOf, acts + issues, Finish(t, Committed));
    LogStep(cfg, keyOf, issued, Finish(t, Committed));
    var e := NewEvents(keyOf, issued, Finish(t, Committed))[0];
    assert e in Exec(cfg, keyOf, acts').log && IsHydrated(e, keyOf[t]);
  }

  lemma HydrateAccepted(cfg: Settings, keyOf: Assignment, start: seq<Action>, acts: seq<Action>, w: World, t: string)
    returns (acts': seq<Action>)
    requires Continues(cfg, keyOf, start, acts, w) && t in w.pcs && t in keyOf
    requires w.pcs[t].Accepted? && w.pcs[t].raw.feed.Some?
    ensures start <= acts' && WasHydrated(Exec(cfg, keyOf, acts').log, keyOf[t], w.pcs[t].raw.stamp)
  {
    var w': World;
    acts', w' := Next(cfg, keyOf, acts, w, Validate(t));
    acts' := HydrateOpen(cfg, keyOf, start, acts', w', t);
  }

  lemma HydrateNewer(
    cfg: Settings, keyOf: Assignment, start: seq<Action>, acts: seq<Action>, w: World, t: string, stamp: int)
    returns (acts': seq<Action>)
    requires Continues(cfg, keyOf, start, acts, w) && t in w.pcs && t in keyOf
    requires StampsKept(w) && StampOf(w, keyOf[t]) < stamp
    ensures start <= acts' && WasHydrated(Exec(cfg, keyOf, acts').log, keyOf[t], stamp)
  {
    var raw := Raw(stamp, Some(Feed([])));
    var w': World;
    AlwaysBuffered(cfg, keyOf, acts);
    StampStep(cfg, keyOf, w, Fail(t), keyOf[t]);
    acts', w' := Next(cfg, keyOf, acts, w, Fail(t));
    acts', w' := Next(cfg, keyOf, acts', w', Fetch(t, raw));
    acts', w' := Next(cfg, keyOf, acts', w', GetStamp(t));
    assert w'.pcs[t] == Read(raw, StampOf(w, keyOf[t]));
    acts', w' := Next(cfg, keyOf, acts', w', Compare(t, false));
    acts' := HydrateAccepted(cfg, keyOf, start, acts', w', t);
  }

  /** `later` continues `acts` and has hydrated the timestamp. */
  ghost predicate Hydrates(
    cfg: Settings, keyOf: Assignment, acts: seq<Action>, later: seq<Action>, key: string, stamp: int)
  {
    acts <= later && WasHydrated(Exec(cfg, keyOf, later).log, key, stamp)
  }

  /** Some extension of a run has hydrated a timestamp if and only if the run itself has, or a worker of its
      feed may yet: the timestamp is newer than the stored one, or accepted with a valid feed and not given
      up. Everything else is lost for good. */
  lemma HydratableIff(cfg: Settings, keyOf: Assignment, acts: seq<Action>, key: string, stamp: int)
    requires OnePerFeed(keyOf)
    ensures var w := Exec(cfg, keyOf, acts);
            (exists later :: Hydrates(cfg, keyOf, acts, later, key, stamp)) <==>
            WasHydrated(w.log, key, stamp) || Alive(keyOf, w, key, stamp)
  {
    var w := Exec(cfg, keyOf, acts);
    if Alive(keyOf, w, key, stamp) {
      var t :| t in w.pcs && t in keyOf && keyOf[t] == key && MayHydrate(w.pcs[t], StampOf(w, key), stamp);
      var later: seq<Action>;
      AlwaysFresh(cfg, keyOf, acts);
      if stamp > StampOf(w, key) {
        later := HydrateNewer(cfg, keyOf, acts, acts, w, t, stamp);
      } else if w.pcs[t].Accepted? {
        later := HydrateAccepted(cfg, keyOf, acts, acts, w, t);
      } else {
        later := HydrateOpen(cfg, keyOf, acts, acts, w, t);
      }
      assert Hydrates(cfg, keyOf, acts, later, key, stamp);
    } else {
      forall later | acts <= later
        ensures WasHydrated(Exec(cfg, keyOf, later).log, key, stamp) <==> WasHydrated(w.log, key, stamp)
      {
        assert later == acts + later[|acts|..];
        StaysDead(cfg, keyOf, acts, later[|acts|..], key, stamp);
      }
      if WasHydrated(w.log, key, stamp) {
        assert Hydrates(cfg, keyOf, acts, acts, key, stamp);
      }
    }
  }

  // ----- runs that lose a timestamp -----

  /** The run stored the timestamp, and no run that continues it ever hydrates it. */
  ghost predicate Lost(cfg: Settings, keyOf: Assignment, acts: seq<Action>, key: string, stamp: int) {
    && StampOf(Exec(cfg, keyOf, acts), key) == stamp
    && forall later :: !Hydrates(cfg, keyOf, acts, later, key, stamp)
  }

  lemma IdleLoses(cfg: Settings, keyOf: Assignment, acts: seq<Action>, w: World, t: string, stamp: int)
    requires OnePerFeed(keyOf) && t in keyOf && w == Exec(cfg, keyOf, acts) && t in w.pcs && w.pcs[t] == Idle
    requires StampOf(w, keyOf[t]) == stamp && !WasHydrated(w.log, keyOf[t], stamp)
    ensures Lost(cfg, keyOf, acts, keyOf[t], stamp)
  {
    assert !Alive(keyOf, w, keyOf[t], stamp);
    HydratableIff(cfg, keyOf, acts, keyOf[t], stamp);
  }

  /** A worker's first cycle, up to the comparison of timestamp 1. */
  lemma FirstComparison(cfg: Settings, keyOf: Assignment, t: string, raw: Raw, replyLost: bool)
    returns (acts: seq<Action>, w: World)
    requires t in keyOf && raw.stamp == 1
    ensures w == Exec(cfg, keyOf, acts) && t in w.pcs && StampOf(w, keyOf[t]) == 1
    ensures w.pcs[t] == if replyLost then Idle else Accepted(raw)
    ensures w.log == [Compared(keyOf[t], 1, if replyLost then StoredUnacknowledged else Stored)]
  {
    acts, w := [], Init(keyOf);
    acts, w := Next(cfg, keyOf, acts, w, Fetch(t, raw));
    acts, w := Next(cfg, keyOf, acts, w, GetStamp(t));
    assert w.pcs[t] == Read(raw, 0) && w.log == [] && t !in w.store.pipes;
    acts, w := Next(cfg, keyOf, acts, w, Compare(t, replyLost));
  }

  /** A feed whose timestamp was accepted and which validation then rejects is never hydrated. */
  lemma RejectedFeedIsLost(cfg: Settings, keyOf: Assignment, t: string) returns (acts: seq<Action>)
    requires OnePerFeed(keyOf) && t in keyOf
    ensures Compared(keyOf[t], 1, Stored) in Exec(cfg, keyOf, acts).log
    ensures Lost(cfg, keyOf, acts, keyOf[t], 1)
  {
    var w: World;
    acts, w := FirstComparison(cfg, keyOf, t, Raw(1, None), false);
    acts, w := Next(cfg, keyOf, acts, w, Validate(t));
    IdleLoses(cfg, keyOf, acts, w, t, 1);
  }

  /** A valid feed is never hydrated either when the reply to storing its timestamp is lost. */
  lemma LostReplyIsLost(cfg: Settings, keyOf: Assignment, t: string, feed: Feed) returns (acts: seq<Action>)
    requires OnePerFeed(keyOf) && t in keyOf
    ensures Compared(keyOf[t], 1, StoredUnacknowledged) in Exec(cfg, keyOf, acts).log
    ensures Lost(cfg, keyOf, acts, keyOf[t], 1)
  {
    var w: World;
    acts, w := FirstComparison(cfg, keyOf, t, Raw(1, Some(feed)), true);
    IdleLoses(cfg, keyOf, acts, w, t, 1);
  }
}
