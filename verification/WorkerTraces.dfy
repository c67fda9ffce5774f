/** The workers use the store only through its operations, so what holds of every trace of operations
    holds of them. */
module WorkerTraces {
  import opened Models
  import opened RedisStore
  import opened Batches
  import opened Workers

  /** The store operation behind an action, if there is one. */
  function OpOf(cfg: Settings, keyOf: Assignment, w: World, a: Action): seq<Op> {
    if a.Tick? || a.thread !in w.pcs || a.thread !in keyOf then [] else
      var t, pc := a.thread, w.pcs[a.thread];
      if a.Compare? && pc.Read? && pc.last < pc.raw.stamp then
        [Write(t, Set(FeedKey(keyOf[t]), Stamp(pc.raw.stamp), None), w.clock)]
      else if a.Validate? && pc.Accepted? && pc.raw.feed.Some? then [Begin(t)]
      else if a.Issue? && pc.Batching? && pc.rest != [] then [Write(t, pc.rest[0], w.clock)]
      else if a.Finish? && pc.Batching? && pc.rest == [] then [End(t, a.ending, w.clock)]
      else if a.Fail? && pc.Batching? then [End(t, BodyRaised, w.clock)]
      else []
  }

  function Trace(cfg: Settings, keyOf: Assignment, acts: seq<Action>): seq<Op> {
    if acts == [] then [] else
      var before := acts[..|acts| - 1];
      Trace(cfg, keyOf, before) + OpOf(cfg, keyOf, Exec(cfg, keyOf, before), acts[|acts| - 1])
  }

  lemma ActIsOp(cfg: Settings, keyOf: Assignment, w: World, a: Action)
    ensures Act(cfg, keyOf, w, a).store ==
            if OpOf(cfg, keyOf, w, a) == [] then w.store else Step(w.store, OpOf(cfg, keyOf, w, a)[0])
  {
  }

  lemma {:induction false} TraceDrivesStore(cfg: Settings, keyOf: Assignment, acts: seq<Action>)
    ensures Exec(cfg, keyOf, acts).store == Steps(StoreState(map[], map[]), Trace(cfg, keyOf, acts))
  {
    if acts == [] {
    } else {
      var before, a := acts[..|acts| - 1], acts[|acts| - 1];
      var ops := Trace(cfg, keyOf, before);
      TraceDrivesStore(cfg, keyOf, before);
      var w := Exec(cfg, keyOf, before);
      ActIsOp(cfg, keyOf, w, a);
      var op := OpOf(cfg, keyOf, w, a);
      if op == [] {
        assert ops + op == ops;
      } else {
        assert op == [op[0]];
        StepsSnoc(StoreState(map[], map[]), ops, op[0]);
      }
    }
  }

  lemma UnnestedSnoc(ops: seq<Op>, op: Op)
    requires Unnested(ops) && (op.Begin? ==> Pending(ops, op.thread).None?)
    ensures Unnested(ops + [op])
  {
    var all := ops + [op];
    forall i | 0 <= i < |all| && all[i].Begin? ensures Pending(all[..i], all[i].thread).None? {
      if i < |ops| {
        assert all[..i] == ops[..i];
      } else {
        assert all[..i] == ops;
      }
    }
  }

  /** A worker that opens a batch has none open. */
  lemma BeginsFresh(cfg: Settings, keyOf: Assignment, acts: seq<Action>, a: Action)
    requires !a.Tick? && OpOf(cfg, keyOf, Exec(cfg, keyOf, acts), a) == [Begin(a.thread)]
    ensures Pending(Trace(cfg, keyOf, acts), a.thread).None?
  {
    var w := Exec(cfg, keyOf, acts);
    AlwaysBuffered(cfg, keyOf, acts);
    assert ThreadBuffered(cfg, w, a.thread);
    TraceDrivesStore(cfg, keyOf, acts);
    BatchesAreAtomic(map[], Trace(cfg, keyOf, acts));
  }

  lemma OneMoreOp(cfg: Settings, keyOf: Assignment, acts: seq<Action>, a: Action, ops: seq<Op>)
    requires ops == Trace(cfg, keyOf, acts) && Unnested(ops)
    ensures Unnested(ops + OpOf(cfg, keyOf, Exec(cfg, keyOf, acts), a))
  {
    var op := OpOf(cfg, keyOf, Exec(cfg, keyOf, acts), a);
    if op == [] {
      assert ops + op == ops;
    } else {
      assert op == [op[0]];
      if op[0].Begin? {
        BeginsFresh(cfg, keyOf, acts, a);
      }
      UnnestedSnoc(ops, op[0]);
    }
  }

  lemma {:induction false} TraceIsUnnested(cfg: Settings, keyOf: Assignment, acts: seq<Action>)
    ensures Unnested(Trace(cfg, keyOf, acts))
  {
    if acts == [] {
    } else {
      var before := acts[..|acts| - 1];
      TraceIsUnnested(cfg, keyOf, before);
      OneMoreOp(cfg, keyOf, before, acts[|acts| - 1], Trace(cfg, keyOf, before));
    }
  }

  /** Whatever the interleaving of the workers, their operations never nest batches, and some serial
      execution of the same executed units leaves the same database. */
  lemma WorkersAreSerializable(cfg: Settings, keyOf: Assignment, acts: seq<Action>)
    ensures var ops := Trace(cfg, keyOf, acts);
            && Unnested(ops) && Serial(Serialize(ops)) && Effects(Serialize(ops)) == Effects(ops)
            && Steps(StoreState(map[], map[]), Serialize(ops)).db == Exec(cfg, keyOf, acts).store.db
  {
    TraceIsUnnested(cfg, keyOf, acts);
    TraceDrivesStore(cfg, keyOf, acts);
    Serializable(map[], Trace(cfg, keyOf, acts));
  }
}
