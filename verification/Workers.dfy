/**
 The polling workers as a state machine: one thread per configured feed, every server round trip a
 separate step, any interleaving, and a failure possible at each point of a cycle.
 An action that a thread is not ready for changes nothing, so every sequence of actions is a run.
 */
module Workers {
  import opened Models
  import opened RedisStore
  import opened Hydration
  import opened History

  /** A fetched feed: its header timestamp, and its body unless validation rejects it. */
  datatype Raw = Raw(stamp: int, feed: Option<Feed>)

  /** Where a worker is in its cycle. Sleeping and starting over are both `Idle`. */
  datatype Pc =
    | Idle
    | Fetched(raw: Raw)
    | Read(raw: Raw, last: int)
    | Accepted(raw: Raw)
    | Batching(stamp: int, feed: Feed, now: int, rest: seq<Command>)

  datatype Verdict = Rejected | StoredUnacknowledged | Stored

  datatype Event =
    | Compared(key: string, stamp: int, verdict: Verdict)
    | Hydrated(key: string, stamp: int, batch: Batch)

  datatype World = World(store: StoreState, pcs: map<string, Pc>, clock: int, log: seq<Event>)

  datatype Action =
    | Tick(seconds: nat)
    | Fetch(thread: string, raw: Raw)
    | GetStamp(thread: string)
    | Compare(thread: string, replyLost: bool)
    | Validate(thread: string)
    | Issue(thread: string)
    | Finish(thread: string, ending: Ending)
    | Fail(thread: string)

  /** The feed each thread polls. */
  type Assignment = map<string, string>

  function Init(keyOf: Assignment): World {
    World(StoreState(map[], map[]), map t | t in keyOf :: Idle, 0, [])
  }

  function StampOf(w: World, key: string): int { ReadStamp(w.store.db, FeedKey(key), w.clock) }

  function Goto(w: World, t: string, pc: Pc): World { w.(pcs := w.pcs[t := pc]) }

  function Do(w: World, op: Op): World { w.(store := Step(w.store, op)) }

  function Log(w: World, e: Event): World { w.(log := w.log + [e]) }

  function Act(cfg: Settings, keyOf: Assignment, w: World, a: Action): World {
    if a.Tick? then w.(clock := w.clock + a.seconds)
    else if a.thread !in w.pcs || a.thread !in keyOf then w
    else
      var t, pc, key := a.thread, w.pcs[a.thread], keyOf[a.thread];
      match a
      case Fetch(_, raw) => if pc.Idle? then Goto(w, t, Fetched(raw)) else w
      case GetStamp(_) => if pc.Fetched? then Goto(w, t, Read(pc.raw, StampOf(w, key))) else w
      case Compare(_, replyLost) =>
        if !pc.Read? then w
        else if pc.last >= pc.raw.stamp then Goto(Log(w, Compared(key, pc.raw.stamp, Rejected)), t, Idle)
        else
          var stored := Do(w, Write(t, Set(FeedKey(key), Stamp(pc.raw.stamp), None), w.clock));
          if replyLost then Goto(Log(stored, Compared(key, pc.raw.stamp, StoredUnacknowledged)), t, Idle)
          else Goto(Log(stored, Compared(key, pc.raw.stamp, Stored)), t, Accepted(pc.raw))
      case Validate(_) =>
        if !pc.Accepted? then w
        else if pc.raw.feed.None? then Goto(w, t, Idle)
        else
          var feed := pc.raw.feed.value;
          Goto(Do(w, Begin(t)), t, Batching(pc.raw.stamp, feed, w.clock, HydrateCommands(cfg, feed, w.clock)))
      case Issue(_) =>
        if pc.Batching? && pc.rest != []
        then Goto(Do(w, Write(t, pc.rest[0], w.clock)), t, pc.(rest := pc.rest[1..])) else w
      case Finish(_, ending) =>
        if !pc.Batching? || pc.rest != [] then w
        else
          var done := Goto(Do(w, End(t, ending, w.clock)), t, Idle);
          if ending.Executed() then Log(done, Hydrated(key, pc.stamp, Batch(pc.feed, pc.now, w.clock))) else done
      case Fail(_) =>
        Goto(if pc.Batching? then Do(w, End(t, BodyRaised, w.clock)) else w, t, Idle)
  }

  function Exec(cfg: Settings, keyOf: Assignment, acts: seq<Action>): World {
    if acts == [] then Init(keyOf)
    else Act(cfg, keyOf, Exec(cfg, keyOf, acts[..|acts| - 1]), acts[|acts| - 1])
  }

  lemma ExecSnoc(cfg: Settings, keyOf: Assignment, acts: seq<Action>, a: Action)
    ensures Exec(cfg, keyOf, acts + [a]) == Act(cfg, keyOf, Exec(cfg, keyOf, acts), a)
  {
    assert (acts + [a])[..|acts|] == acts;
  }

  // ----- buffers -----

  /** A thread has a buffer exactly while its batch is open, and what it has issued and what it will
      still issue make up the batch of its feed. */
  ghost predicate ThreadBuffered(cfg: Settings, w: World, t: string) {
    && (t in w.store.pipes <==> t in w.pcs && w.pcs[t].Batching?)
    && (t in w.store.pipes ==>
          && 0 <= w.pcs[t].now <= w.clock
          && w.store.pipes[t] + w.pcs[t].rest == HydrateCommands(cfg, w.pcs[t].feed, w.pcs[t].now))
  }

  ghost predicate Buffered(cfg: Settings, w: World) {
    0 <= w.clock && forall t :: ThreadBuffered(cfg, w, t)
  }

  /** An action touches the state and the buffer of its own thread only. */
  lemma ActFrame(cfg: Settings, keyOf: Assignment, w: World, a: Action, u: string)
    requires a.Tick? || a.thread != u
    ensures var next := Act(cfg, keyOf, w, a);
            && (u in next.pcs <==> u in w.pcs) && (u in w.pcs ==> next.pcs[u] == w.pcs[u])
            && (u in next.store.pipes <==> u in w.store.pipes)
            && (u in w.store.pipes ==> next.store.pipes[u] == w.store.pipes[u])
            && w.clock <= next.clock
  {
    match a
    case Tick(_) =>
    case Fetch(_, _) =>
    case GetStamp(_) =>
    case Compare(_, _) =>
    case Validate(_) =>
    case Issue(_) =>
    case Finish(_, _) =>
    case Fail(_) =>
  }

  lemma OtherThreads(cfg: Settings, keyOf: Assignment, w: World, a: Action, u: string)
    requires ThreadBuffered(cfg, w, u) && (a.Tick? || a.thread != u)
    ensures ThreadBuffered(cfg, Act(cfg, keyOf, w, a), u)
  {
    ActFrame(cfg, keyOf, w, a, u);
  }

  lemma OwnThread(cfg: Settings, keyOf: Assignment, w: World, a: Action)
    requires 0 <= w.clock && !a.Tick? && ThreadBuffered(cfg, w, a.thread)
    ensures ThreadBuffered(cfg, Act(cfg, keyOf, w, a), a.thread)
  {
    if a.thread in w.pcs && a.thread in keyOf {
      var t, pc := a.thread, w.pcs[a.thread];
      if a.Validate? && pc.Accepted? && pc.raw.feed.Some? {
        var cs := HydrateCommands(cfg, pc.raw.feed.value, w.clock);
        assert [] + cs == cs;
      } else if a.Issue? && pc.Batching? && pc.rest != [] {
        assert w.store.pipes[t] + [pc.rest[0]] + pc.rest[1..] == w.store.pipes[t] + pc.rest;
      }
    }
  }

  lemma BufferedStep(cfg: Settings, keyOf: Assignment, w: World, a: Action)
    requires Buffered(cfg, w)
    ensures Buffered(cfg, Act(cfg, keyOf, w, a))
  {
    forall u ensures ThreadBuffered(cfg, Act(cfg, keyOf, w, a), u) {
      assert ThreadBuffered(cfg, w, u);
      if a.Tick? || a.thread != u { OtherThreads(cfg, keyOf, w, a, u); } else { OwnThread(cfg, keyOf, w, a); }
    }
  }

  lemma {:induction false} AlwaysBuffered(cfg: Settings, keyOf: Assignment, acts: seq<Action>)
    ensures Buffered(cfg, Exec(cfg, keyOf, acts))
  {
    if acts == [] {
    } else {
      AlwaysBuffered(cfg, keyOf, acts[..|acts| - 1]);
      BufferedStep(cfg, keyOf, Exec(cfg, keyOf, acts[..|acts| - 1]), acts[|acts| - 1]);
    }
  }

  /** When a batch ends, its thread has issued the whole batch of its feed. */
  lemma FinishCommits(cfg: Settings, keyOf: Assignment, w: World, t: string, ending: Ending)
    requires Buffered(cfg, w) && t in w.pcs && t in keyOf && w.pcs[t].Batching? && w.pcs[t].rest == []
    ensures Act(cfg, keyOf, w, Finish(t, ending)).store.db ==
            match ending
            case Committed => Hydrate(cfg, w.store.db, w.pcs[t].feed, w.pcs[t].now, w.clock)
            case ReplyLost => Hydrate(cfg, w.store.db, w.pcs[t].feed, w.pcs[t].now, w.clock)
            case NotExecuted => w.store.db
            case BodyRaised => w.store.db
  {
    assert ThreadBuffered(cfg, w, t);
    assert w.store.pipes[t] + [] == w.store.pipes[t];
  }

  // ----- the log -----

  /** What an action writes to the log. */
  function NewEvents(keyOf: Assignment, w: World, a: Action): seq<Event> {
    if a.Tick? || a.thread !in w.pcs || a.thread !in keyOf then [] else
      var pc, key := w.pcs[a.thread], keyOf[a.thread];
      if a.Compare? && pc.Read? then
        [Compared(key, pc.raw.stamp,
           if pc.last >= pc.raw.stamp then Rejected else if a.replyLost then StoredUnacknowledged else Stored)]
      else if a.Finish? && pc.Batching? && pc.rest == [] && a.ending.Executed() then
        [Hydrated(key, pc.stamp, Batch(pc.feed, pc.now, w.clock))]
      else []
  }

  lemma LogStep(cfg: Settings, keyOf: Assignment, w: World, a: Action)
    ensures Act(cfg, keyOf, w, a).log == w.log + NewEvents(keyOf, w, a)
  {
    assert w.log + [] == w.log;
  }

  // ----- the store against the log -----

  /** The batches of the log, in the order the server executed them. */
  function Executions(log: seq<Event>): seq<Batch> {
    if log == [] then [] else
      var e := log[|log| - 1];
      Executions(log[..|log| - 1]) + if e.Hydrated? then [e.batch] else []
  }

  lemma ExecutionsSnoc(log: seq<Event>, e: Event)
    ensures Executions(log + [e]) == Executions(log) + if e.Hydrated? then [e.batch] else []
  {
    assert (log + [e])[..|log|] == log;
  }

  ghost predicate IsLiveKey(key: string) {
    (exists k :: key == TripKey(k)) || (exists p :: key == ArrivalsKey(p))
  }

  /** On the trip and arrivals keys the store is what the logged batches make of an empty store. */
  ghost predicate Refines(cfg: Settings, w: World) {
    && (forall key :: IsLiveKey(key) ==> SameAt(w.store.db, StoreAfter(cfg, Executions(w.log)), key))
    && Clocked(Executions(w.log), w.clock)
  }

  /** The batch that an action commits, if it commits one. */
  function Commit(keyOf: Assignment, w: World, a: Action): Option<Batch> {
    if a.Finish? && a.thread in w.pcs && a.thread in keyOf && a.ending.Executed()
       && w.pcs[a.thread].Batching? && w.pcs[a.thread].rest == []
    then Some(Batch(w.pcs[a.thread].feed, w.pcs[a.thread].now, w.clock)) else None
  }

  /** Trip and arrivals keys change only when a batch is executed. */
  lemma LiveKeysChangeAtCommits(cfg: Settings, keyOf: Assignment, w: World, a: Action, key: string)
    requires Buffered(cfg, w) && IsLiveKey(key)
    ensures var next := Act(cfg, keyOf, w, a);
            !SameAt(next.store.db, w.store.db, key) ==>
              && Commit(keyOf, w, a).Some?
              && next.store.db ==
                   var b := Commit(keyOf, w, a).value; Hydrate(cfg, w.store.db, b.feed, b.now, b.at)
  {
    if !a.Tick? && a.thread in w.pcs && a.thread in keyOf {
      var t, pc := a.thread, w.pcs[a.thread];
      assert ThreadBuffered(cfg, w, t);
      if a.Compare? && pc.Read? {
        LiveIsNoFeed(key, keyOf[t]);
      } else if a.Finish? && pc.Batching? && pc.rest == [] {
        FinishCommits(cfg, keyOf, w, t, a.ending);
      }
    }
  }

  lemma LiveIsNoFeed(key: string, feed: string)
    requires IsLiveKey(key)
    ensures key != FeedKey(feed)
  {
    if k :| key == TripKey(k) { KeysApart(k, feed); }
    if p :| key == ArrivalsKey(p) { KeysApart(p, feed); }
  }

  lemma ClockedLater(run: seq<Batch>, now: int, later: int)
    requires Clocked(run, now) && now <= later
    ensures Clocked(run, later)
  {
  }

  lemma ClockedSnoc(run: seq<Batch>, b: Batch)
    requires Clocked(run, b.at) && 0 <= b.now <= b.at
    ensures Clocked(run + [b], b.at)
  {
  }

  lemma ExecutionsStep(cfg: Settings, keyOf: Assignment, w: World, a: Action)
    ensures var run, c := Executions(w.log), Commit(keyOf, w, a);
            Executions(Act(cfg, keyOf, w, a).log) == if c.Some? then run + [c.value] else run
  {
    LogStep(cfg, keyOf, w, a);
    var news := NewEvents(keyOf, w, a);
    if news == [] {
      assert w.log + news == w.log;
    } else {
      assert news == [news[0]];
      ExecutionsSnoc(w.log, news[0]);
    }
  }

  lemma RefinesStep(cfg: Settings, keyOf: Assignment, w: World, a: Action)
    requires Buffered(cfg, w) && Refines(cfg, w)
    ensures Refines(cfg, Act(cfg, keyOf, w, a))
  {
    var next, run := Act(cfg, keyOf, w, a), Executions(w.log);
    var c := Commit(keyOf, w, a);
    ExecutionsStep(cfg, keyOf, w, a);
    if c.Some? {
      assert ThreadBuffered(cfg, w, a.thread);
      FinishCommits(cfg, keyOf, w, a.thread, a.ending);
      ClockedSnoc(run, c.value);
      forall key | IsLiveKey(key) ensures SameAt(next.store.db, StoreAfter(cfg, run + [c.value]), key) {
        CommitRefines(cfg, w.store.db, run, c.value, key);
      }
    } else {
      forall key | IsLiveKey(key) ensures SameAt(next.store.db, w.store.db, key) {
        LiveKeysChangeAtCommits(cfg, keyOf, w, a, key);
      }
      ClockedLater(run, w.clock, next.clock);
    }
  }

  lemma CommitRefines(cfg: Settings, db: Db, run: seq<Batch>, b: Batch, key: string)
    requires SameAt(db, StoreAfter(cfg, run), key)
    ensures SameAt(Hydrate(cfg, db, b.feed, b.now, b.at), StoreAfter(cfg, run + [b]), key)
  {
    assert (run + [b])[..|run|] == run;
    ApplyAllLocal(db, StoreAfter(cfg, run), HydrateCommands(cfg, b.feed, b.now), b.at, key);
  }

  /** However the workers interleave and fail, the trip and arrivals keys hold what the executed batches,
      applied one after another to an empty store, would leave there. */
  lemma {:induction false} WorkersRefineHistory(cfg: Settings, keyOf: Assignment, acts: seq<Action>)
    ensures Refines(cfg, Exec(cfg, keyOf, acts))
  {
    if acts == [] {
    } else {
      var before := acts[..|acts| - 1];
      AlwaysBuffered(cfg, keyOf, before);
      WorkersRefineHistory(cfg, keyOf, before);
      RefinesStep(cfg, keyOf, Exec(cfg, keyOf, before), acts[|acts| - 1]);
    }
  }

  /** So every stop shows, at any moment of any run, exactly what the log explains. */
  lemma WorkersShowHistory(cfg: Settings, keyOf: Assignment, acts: seq<Action>, p: string, k: string, s: int)
    requires cfg.Sane()
    ensures var w := Exec(cfg, keyOf, acts);
            Shows(w.store.db, p, k, s, w.clock) <==> exists i :: Explains(cfg, Executions(w.log), i, p, k, s, w.clock)
  {
    var w := Exec(cfg, keyOf, acts);
    WorkersRefineHistory(cfg, keyOf, acts);
    assert IsLiveKey(ArrivalsKey(p));
    assert SameAt(w.store.db, StoreAfter(cfg, Executions(w.log)), ArrivalsKey(p));
    assert Members(w.store.db, ArrivalsKey(p), w.clock)
      == Members(StoreAfter(cfg, Executions(w.log)), ArrivalsKey(p), w.clock);
    StoreRefinesHistory(cfg, Executions(w.log), p, k, s, w.clock);
  }
}
