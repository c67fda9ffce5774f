/** One cycle of a worker as straight-line code, and the same cycle as uninterrupted machine steps. */
module WorkerCycle {
  import opened Models
  import opened Sequences
  import opened RedisStore
  import opened Hydration
  import opened History
  import opened Workers
  import opened Timestamps

  /** The database after one cycle: unchanged without a feed, with a stale one, or when the timestamp
      cannot be read; otherwise the new timestamp is stored before the feed is validated and hydrated,
      and then comes the batch if it executes. A lost reply to the stamp's write ends the cycle there. */
  function CycleDb(
    cfg: Settings, db: Db, key: string, raw: Option<Raw>, replyLost: bool, now: int, at: int, ending: Ending): Db
  {
    if raw.None? || HoldsSet(db, FeedKey(key), now) || ReadStamp(db, FeedKey(key), now) >= raw.value.stamp then db else
      var stamped := Apply(db, Set(FeedKey(key), Stamp(raw.value.stamp), None), now);
      if !replyLost && raw.value.feed.Some? && (ending == Committed || ending == ReplyLost)
      then Hydrate(cfg, stamped, raw.value.feed.value, now, at) else stamped
  }

  /** The body of the loop in `worker`; a fetch without result skips to the sleep. */
  method PollOnce(
    cfg: Settings, store: RedisStateStore, thread: string, key: string, raw: Option<Raw>, replyLost: bool,
    now: int, at: int, ending: Ending)
    requires thread !in store.pipes
    modifies store
    ensures store.pipes == old(store.pipes)
    ensures store.db == CycleDb(cfg, old(store.db), key, raw, replyLost, now, at, ending)
  {
    if raw.Some? {
      var accepted := store.CheckAndUpdateTimestamp(FeedKey(key), raw.value.stamp, now, replyLost);
      if accepted == Some(true) && raw.value.feed.Some? {
        HydrateRealtimeData(cfg, store, thread, raw.value.feed.value, now, at, ending);
      }
    }
  }

  function Issues(t: string, n: nat): seq<Action> {
    if n == 0 then [] else [Issue(t)] + Issues(t, n - 1)
  }

  function Run(cfg: Settings, keyOf: Assignment, w: World, acts: seq<Action>): World
    decreases |acts|
  {
    if acts == [] then w else Run(cfg, keyOf, Act(cfg, keyOf, w, acts[0]), acts[1..])
  }

  lemma {:induction false} IssueAll(cfg: Settings, keyOf: Assignment, w: World, t: string)
    requires Buffered(cfg, w) && t in w.pcs && t in keyOf && w.pcs[t].Batching?
    ensures var done := Run(cfg, keyOf, w, Issues(t, |w.pcs[t].rest|));
            && Buffered(cfg, done) && t in done.pcs && done.pcs[t] == w.pcs[t].(rest := [])
            && done.store.db == w.store.db && done.clock == w.clock && done.log == w.log
    decreases |w.pcs[t].rest|
  {
    var rest := w.pcs[t].rest;
    if rest == [] {
    } else {
      assert ThreadBuffered(cfg, w, t);
      var next := Act(cfg, keyOf, w, Issue(t));
      BufferedStep(cfg, keyOf, w, Issue(t));
      assert Issues(t, |rest|)[1..] == Issues(t, |rest| - 1);
      IssueAll(cfg, keyOf, next, t);
    }
  }

  /** The steps of one cycle of thread `t` that nobody interrupts. */
  ghost function FullCycle(
    cfg: Settings, keyOf: Assignment, w: World, t: string, raw: Raw, replyLost: bool, ending: Ending): World
  {
    var read := Act(cfg, keyOf, Act(cfg, keyOf, w, Fetch(t, raw)), GetStamp(t));
    var open := Act(cfg, keyOf, Act(cfg, keyOf, read, Compare(t, replyLost)), Validate(t));
    if t in open.pcs && open.pcs[t].Batching?
    then Act(cfg, keyOf, Run(cfg, keyOf, open, Issues(t, |open.pcs[t].rest|)), Finish(t, ending))
    else open
  }

  /** The events of one cycle: a comparison, and a hydration only if the stamp was newer, its write was
      acknowledged, the feed was valid and its batch was executed. */
  function CycleEvents(
    key: string, stored: int, raw: Raw, replyLost: bool, now: int, ending: Ending): seq<Event>
  {
    [Compared(key, raw.stamp,
       if stored >= raw.stamp then Rejected else if replyLost then StoredUnacknowledged else Stored)]
    + if stored < raw.stamp && !replyLost && raw.feed.Some? && (ending == Committed || ending == ReplyLost)
      then [Hydrated(key, raw.stamp, Batch(raw.feed.value, now, now))] else []
  }

  /** The world once the batch of the cycle is open, if the cycle gets that far. */
  lemma CycleOpens(cfg: Settings, keyOf: Assignment, w: World, t: string, raw: Raw, replyLost: bool)
    returns (open: World)
    requires Buffered(cfg, w) && t in w.pcs && t in keyOf && w.pcs[t] == Idle
    ensures open == Act(cfg, keyOf, Act(cfg, keyOf, Act(cfg, keyOf, Act(cfg, keyOf, w, Fetch(t, raw)), GetStamp(t)),
                                        Compare(t, replyLost)), Validate(t))
    ensures Buffered(cfg, open) && t in open.pcs && open.clock == w.clock
    ensures var newer := StampOf(w, keyOf[t]) < raw.stamp;
            && open.log == w.log + CycleEvents(keyOf[t], StampOf(w, keyOf[t]), raw, replyLost, w.clock, BodyRaised)
            && open.store.db == (if newer then Apply(w.store.db, Set(FeedKey(keyOf[t]), Stamp(raw.stamp), None),
              w.clock)
                                 else w.store.db)
            && (open.pcs[t].Batching? <==> newer && !replyLost && raw.feed.Some?)
            && (open.pcs[t].Batching? ==>
                  open.pcs[t].stamp == raw.stamp && open.pcs[t].feed == raw.feed.value && open.pcs[t].now == w.clock)
  {
    var w1 := Act(cfg, keyOf, w, Fetch(t, raw));
    var w2 := Act(cfg, keyOf, w1, GetStamp(t));
    var w3 := Act(cfg, keyOf, w2, Compare(t, replyLost));
    open := Act(cfg, keyOf, w3, Validate(t));
    assert ThreadBuffered(cfg, w, t);
    BufferedStep(cfg, keyOf, w, Fetch(t, raw));
    BufferedStep(cfg, keyOf, w1, GetStamp(t));
    BufferedStep(cfg, keyOf, w2, Compare(t, replyLost));
    BufferedStep(cfg, keyOf, w3, Validate(t));
  }

  /** What the end of an open batch logs. */
  function Closing(keyOf: Assignment, open: World, t: string, ending: Ending): seq<Event>
    requires t in keyOf && t in open.pcs && open.pcs[t].Batching?
  {
    var pc := open.pcs[t];
    if ending.Executed() then [Hydrated(keyOf[t], pc.stamp, Batch(pc.feed, pc.now, open.clock))] else []
  }

  /** An open batch, issued to its end and finished without interruption. */
  lemma CycleCloses(cfg: Settings, keyOf: Assignment, open: World, t: string, ending: Ending)
    requires Buffered(cfg, open) && t in open.pcs && t in keyOf && open.pcs[t].Batching?
    ensures var done := Act(cfg, keyOf, Run(cfg, keyOf, open, Issues(t, |open.pcs[t].rest|)), Finish(t, ending));
            var pc := open.pcs[t];
            && done.store.db == (if ending.Executed() then Hydrate(cfg, open.store.db, pc.feed, pc.now, open.clock)
                                 else open.store.db)
            && done.log == open.log + Closing(keyOf, open, t, ending)
  {
    IssueAll(cfg, keyOf, open, t);
    var issued := Run(cfg, keyOf, open, Issues(t, |open.pcs[t].rest|));
    FinishCommits(cfg, keyOf, issued, t, ending);
    LogStep(cfg, keyOf, issued, Finish(t, ending));
  }

  /** An uninterrupted run of the machine through one cycle does what the straight-line code does, and
      logs the events of the cycle. */
  lemma UninterruptedCycle(
    cfg: Settings, keyOf: Assignment, w: World, t: string, raw: Raw, replyLost: bool, ending: Ending)
    requires Buffered(cfg, w) && StampsKept(w) && t in w.pcs && t in keyOf && w.pcs[t] == Idle
    ensures var done := FullCycle(cfg, keyOf, w, t, raw, replyLost, ending);
            && done.store.db == CycleDb(cfg, w.store.db, keyOf[t], Some(raw), replyLost, w.clock, w.clock, ending)
            && done.log == w.log + CycleEvents(keyOf[t], StampOf(w, keyOf[t]), raw, replyLost, w.clock, ending)
  {
    var open := CycleOpens(cfg, keyOf, w, t, raw, replyLost);
    if open.pcs[t].Batching? {
      CycleCloses(cfg, keyOf, open, t, ending);
      var before := CycleEvents(keyOf[t], StampOf(w, keyOf[t]), raw, replyLost, w.clock, BodyRaised);
      Reassociate(w.log, before, Closing(keyOf, open, t, ending));
      assert before + Closing(keyOf, open, t, ending)
          == CycleEvents(keyOf[t], StampOf(w, keyOf[t]), raw, replyLost, w.clock, ending);
    }
  }

  /** The runner starts one worker per configured feed. */
  function RunnerAssignment(feeds: set<string>): Assignment {
    map feed | feed in feeds :: feed
  }

  /** So under the runner every feed timestamp is hydrated at most once, in every run. */
  lemma RunnerHydratesAtMostOnce(cfg: Settings, feeds: set<string>, acts: seq<Action>)
    ensures AtMostOnce(Exec(cfg, RunnerAssignment(feeds), acts).log)
  {
    AtMostOnceNeedsOneWorkerPerFeed(cfg, RunnerAssignment(feeds));
  }
}
