/**
 Interleaved threads over one store. A trace is any interleaving of the threads' batch entries,
 writes and batch exits. What a thread has pending, and what reached the database, are read off the
 trace alone; the store must agree with that reading, and with a serial execution.
 */
module Batches {
  import opened Models
  import opened Sequences
  import opened RedisStore

  lemma StepsSnoc(s: StoreState, ops: seq<Op>, op: Op)
    ensures Steps(s, ops + [op]) == Step(Steps(s, ops), op)
  {
    assert (ops + [op])[..|ops|] == ops;
  }

  /** The commands thread `t` has issued since it last opened a batch, if that batch is still open.
      Operations of other threads are skipped. */
  function Pending(ops: seq<Op>, t: string): Option<seq<Command>> {
    if ops == [] then None else
      var before := Pending(ops[..|ops| - 1], t);
      var op := ops[|ops| - 1];
      if op.thread != t then before else
        match op
        case Begin(_) => Some([])
        case Write(_, c, _) => if before.Some? then Some(before.value + [c]) else None
        case End(_, _, _) => None
  }

  /** A unit of commands the server executed without interruption. */
  datatype Effect = Effect(commands: seq<Command>, at: int)

  /** What an operation makes the server execute, given what its thread had pending. */
  function Unit(pending: Option<seq<Command>>, op: Op): seq<Effect> {
    match op
    case Begin(_) => []
    case Write(_, c, at) => if pending.None? then [Effect([c], at)] else []
    case End(_, ending, at) =>
      if pending.Some? && (ending == Committed || ending == ReplyLost) then [Effect(pending.value, at)] else []
  }

  /** The units that reached the server, in the order they did. */
  function Effects(ops: seq<Op>): seq<Effect> {
    if ops == [] then [] else
      var rest := ops[..|ops| - 1];
      var op := ops[|ops| - 1];
      Effects(rest) + Unit(Pending(rest, op.thread), op)
  }

  function ApplyUnits(db: Db, units: seq<Effect>): Db {
    if units == [] then db else
      var n := |units| - 1;
      ApplyAll(ApplyUnits(db, units[..n]), units[n].commands, units[n].at)
  }

  /** A thread has a buffer exactly when the trace shows a batch of its own open, and the buffer is
      what the trace shows pending. */
  ghost predicate Buffers(s: StoreState, ops: seq<Op>) {
    forall t :: if t in s.pipes then Pending(ops, t) == Some(s.pipes[t]) else Pending(ops, t) == None
  }

  lemma BuffersStep(s: StoreState, ops: seq<Op>)
    requires ops != [] && Buffers(s, ops[..|ops| - 1])
    ensures Buffers(Step(s, ops[|ops| - 1]), ops)
  {
  }

  lemma UnitStep(s: StoreState, op: Op, pending: Option<seq<Command>>)
    requires pending == if op.thread in s.pipes then Some(s.pipes[op.thread]) else None
    ensures Step(s, op).db ==
            if Unit(pending, op) == [] then s.db
            else ApplyAll(s.db, Unit(pending, op)[0].commands, Unit(pending, op)[0].at)
  {
    if op.Write? && pending.None? {
      assert ApplyAll(s.db, [op.command], op.at) == ApplyAll(Apply(s.db, op.command, op.at), [], op.at);
    }
  }

  /** Under every interleaving the database is the executed units applied one after another, and a
      thread's buffer is exactly what that thread itself has pending. */
  lemma {:induction false} BatchesAreAtomic(db: Db, ops: seq<Op>)
    ensures Steps(StoreState(db, map[]), ops).db == ApplyUnits(db, Effects(ops))
    ensures Buffers(Steps(StoreState(db, map[]), ops), ops)
  {
    if ops == [] {
    } else {
      var rest, op := ops[..|ops| - 1], ops[|ops| - 1];
      BatchesAreAtomic(db, rest);
      var s := Steps(StoreState(db, map[]), rest);
      BuffersStep(s, ops);
      var pending := Pending(rest, op.thread);
      UnitStep(s, op, pending);
      var before, unit := Effects(rest), Unit(pending, op);
      if unit == [] {
        assert before + unit == before;
      } else {
        assert (before + unit)[..|before|] == before;
      }
    }
  }

  // ----- serial execution -----

  /** One batch run from entry to exit with nobody else acting. */
  function Block(t: string, cs: seq<Command>, ending: Ending, at: int): seq<Op> {
    [Begin(t)] + Writes(t, cs, at) + [End(t, ending, at)]
  }

  /** What an operation adds to the serial trace. */
  function Placed(pending: Option<seq<Command>>, op: Op): seq<Op> {
    match op
    case Begin(_) => []
    case Write(_, _, _) => if pending.None? then [op] else []
    case End(t, ending, at) =>
      if pending.Some? && ending.Executed() then Block(t, pending.value, ending, at) else []
  }

  /** The serial trace: each executed batch as one block at the place of its exit. Batches that never
      executed are left out. */
  function Serialize(ops: seq<Op>): seq<Op> {
    if ops == [] then [] else
      var rest := ops[..|ops| - 1];
      var op := ops[|ops| - 1];
      Serialize(rest) + Placed(Pending(rest, op.thread), op)
  }

  /** No thread but `t` has a batch open. */
  ghost predicate Solo(ops: seq<Op>, t: string) {
    forall u :: u != t ==> Pending(ops, u).None?
  }

  /** Whenever a thread acts, no other thread has a batch open. */
  ghost predicate Uninterrupted(ops: seq<Op>) {
    forall i :: 0 <= i < |ops| ==> Solo(ops[..i], ops[i].thread)
  }

  /** Batches run one at a time, and at the end none is open. */
  ghost predicate Serial(ops: seq<Op>) {
    Uninterrupted(ops) && forall u :: Pending(ops, u).None?
  }

  lemma PendingSnoc(ops: seq<Op>, op: Op, u: string)
    ensures Pending(ops + [op], u) ==
            if u != op.thread then Pending(ops, u)
            else match op
                 case Begin(_) => Some([])
                 case Write(_, c, _) => if Pending(ops, u).Some? then Some(Pending(ops, u).value + [c]) else None
                 case End(_, _, _) => None
  {
    assert (ops + [op])[..|ops|] == ops;
  }

  lemma EffectsSnoc(ops: seq<Op>, op: Op)
    ensures Effects(ops + [op]) == Effects(ops) + Unit(Pending(ops, op.thread), op)
  {
    assert (ops + [op])[..|ops|] == ops;
  }

  lemma SoloSnoc(ops: seq<Op>, op: Op)
    requires Uninterrupted(ops) && Solo(ops, op.thread)
    ensures Uninterrupted(ops + [op]) && Solo(ops + [op], op.thread)
  {
    forall i | 0 <= i < |ops + [op]| ensures Solo((ops + [op])[..i], (ops + [op])[i].thread) {
      assert (ops + [op])[..i] == ops[..i];
      assert ops[..|ops|] == ops;
    }
    forall u | u != op.thread ensures Pending(ops + [op], u).None? {
      PendingSnoc(ops, op, u);
    }
  }

  lemma WritesSnoc(t: string, cs: seq<Command>, at: int)
    requires cs != []
    ensures Writes(t, cs, at) == Writes(t, cs[..|cs| - 1], at) + [Write(t, cs[|cs| - 1], at)]
  {
  }

  /** What the open part of a block does to a serial trace: only `t` is active and nothing has executed. */
  ghost predicate Opened(open: seq<Op>, ops: seq<Op>, t: string, cs: seq<Command>) {
    Uninterrupted(open) && Solo(open, t) && Pending(open, t) == Some(cs) && Effects(open) == Effects(ops)
  }

  lemma OpenedSnoc(open: seq<Op>, ops: seq<Op>, t: string, cs: seq<Command>, c: Command, at: int)
    requires Opened(open, ops, t, cs)
    ensures Opened(open + [Write(t, c, at)], ops, t, cs + [c])
  {
    SoloSnoc(open, Write(t, c, at));
    PendingSnoc(open, Write(t, c, at), t);
    EffectsSnoc(open, Write(t, c, at));
    assert Effects(open) + [] == Effects(open);
  }

  lemma {:induction false} OpenBlock(ops: seq<Op>, t: string, cs: seq<Command>, at: int)
    requires Serial(ops)
    ensures Opened(ops + [Begin(t)] + Writes(t, cs, at), ops, t, cs)
  {
    var begun := ops + [Begin(t)];
    if cs == [] {
      assert begun + Writes(t, cs, at) == begun;
      SoloSnoc(ops, Begin(t));
      PendingSnoc(ops, Begin(t), t);
      EffectsSnoc(ops, Begin(t));
      assert Effects(ops) + [] == Effects(ops);
    } else {
      var n := |cs| - 1;
      OpenBlock(ops, t, cs[..n], at);
      OpenedSnoc(begun + Writes(t, cs[..n], at), ops, t, cs[..n], cs[n], at);
      WritesSnoc(t, cs, at);
      Reassociate(begun, Writes(t, cs[..n], at), [Write(t, cs[n], at)]);
      assert cs[..n] + [cs[n]] == cs;
    }
  }

  lemma SerialSnoc(ops: seq<Op>, op: Op)
    requires Uninterrupted(ops) && Solo(ops, op.thread)
    requires op.End? || (op.Write? && Pending(ops, op.thread).None?)
    ensures Serial(ops + [op])
  {
    SoloSnoc(ops, op);
    PendingSnoc(ops, op, op.thread);
  }

  lemma SerialBlock(ops: seq<Op>, t: string, cs: seq<Command>, ending: Ending, at: int)
    requires Serial(ops) && ending.Executed()
    ensures Serial(ops + Block(t, cs, ending, at))
    ensures Effects(ops + Block(t, cs, ending, at)) == Effects(ops) + [Effect(cs, at)]
  {
    OpenBlock(ops, t, cs, at);
    var open := ops + [Begin(t)] + Writes(t, cs, at);
    SerialSnoc(open, End(t, ending, at));
    EffectsSnoc(open, End(t, ending, at));
    Reassociate(ops, [Begin(t)], Writes(t, cs, at));
    Reassociate(ops, [Begin(t)] + Writes(t, cs, at), [End(t, ending, at)]);
  }

  lemma PlacedIsSerial(before: seq<Op>, pending: Option<seq<Command>>, op: Op)
    requires Serial(before)
    ensures Serial(before + Placed(pending, op))
    ensures Effects(before + Placed(pending, op)) == Effects(before) + Unit(pending, op)
  {
    if op.Write? && pending.None? {
      SerialSnoc(before, op);
      EffectsSnoc(before, op);
    } else if op.End? && pending.Some? && op.ending.Executed() {
      SerialBlock(before, op.thread, pending.value, op.ending, op.at);
    } else {
      assert before + [] == before && Effects(before) + [] == Effects(before);
    }
  }

  lemma {:induction false} SerializeIsSerial(ops: seq<Op>)
    ensures Serial(Serialize(ops))
    ensures Effects(Serialize(ops)) == Effects(ops)
  {
    if ops == [] {
    } else {
      var rest, op := ops[..|ops| - 1], ops[|ops| - 1];
      SerializeIsSerial(rest);
      PlacedIsSerial(Serialize(rest), Pending(rest, op.thread), op);
    }
  }

  /** Every interleaving leaves the database as some serial execution does, with the same units
      executed in the same order. */
  lemma Serializable(db: Db, ops: seq<Op>)
    ensures Serial(Serialize(ops))
    ensures Effects(Serialize(ops)) == Effects(ops)
    ensures Steps(StoreState(db, map[]), Serialize(ops)).db == Steps(StoreState(db, map[]), ops).db
  {
    SerializeIsSerial(ops);
    BatchesAreAtomic(db, ops);
    BatchesAreAtomic(db, Serialize(ops));
  }

  // ----- abandoned batches -----

  /** Batches of one thread do not nest. */
  ghost predicate Unnested(ops: seq<Op>) {
    forall i :: 0 <= i < |ops| && ops[i].Begin? ==> Pending(ops[..i], ops[i].thread).None?
  }

  /** The trace without what thread `t` did since it opened its current batch. */
  function Without(ops: seq<Op>, t: string): seq<Op>
    requires Pending(ops, t).Some?
  {
    var rest := ops[..|ops| - 1];
    var op := ops[|ops| - 1];
    if op.thread != t then Without(rest, t) + [op]
    else if op.Begin? then rest
    else Without(rest, t)
  }

  /** The two stores differ at most in the buffer of `t`. */
  predicate SameBut(a: StoreState, b: StoreState, t: string) {
    a.db == b.db && a.pipes - {t} == b.pipes
  }

  lemma OtherThreadStep(a: StoreState, b: StoreState, op: Op, t: string)
    requires SameBut(a, b, t) && op.thread != t
    ensures SameBut(Step(a, op), Step(b, op), t)
  {
    var u := op.thread;
    assert u in a.pipes <==> u in b.pipes;
    if u in a.pipes {
      assert a.pipes[u] == (a.pipes - {t})[u] == b.pipes[u];
    }
  }

  lemma UnnestedPrefix(ops: seq<Op>)
    requires ops != [] && Unnested(ops)
    ensures Unnested(ops[..|ops| - 1])
    ensures ops[|ops| - 1].Begin? ==> Pending(ops[..|ops| - 1], ops[|ops| - 1].thread).None?
  {
    var rest := ops[..|ops| - 1];
    forall i | 0 <= i < |rest| && rest[i].Begin? ensures Pending(rest[..i], rest[i].thread).None? {
      assert rest[..i] == ops[..i];
    }
  }

  lemma OwnThreadStep(a: StoreState, b: StoreState, op: Op, t: string)
    requires op.thread == t && (op.Write? ==> t in a.pipes) && !op.End?
    ensures SameBut(a, b, t) ==> SameBut(Step(a, op), b, t)
  {
    assert Step(a, op).pipes - {t} == a.pipes - {t};
  }

  lemma {:induction false} OpenBatchIsInvisible(s: StoreState, ops: seq<Op>, t: string)
    requires s.pipes == map[] && Unnested(ops) && Pending(ops, t).Some?
    ensures SameBut(Steps(s, ops), Steps(s, Without(ops, t)), t)
  {
    var rest, op := ops[..|ops| - 1], ops[|ops| - 1];
    UnnestedPrefix(ops);
    BatchesAreAtomic(s.db, rest);
    assert s == StoreState(s.db, map[]);
    var r := Steps(s, rest);
    if op.thread != t {
      OpenBatchIsInvisible(s, rest, t);
      StepsSnoc(s, Without(rest, t), op);
      OtherThreadStep(r, Steps(s, Without(rest, t)), op, t);
    } else if op.Begin? {
      assert t !in r.pipes && r.pipes - {t} == r.pipes;
      OwnThreadStep(r, r, op, t);
    } else {
      OpenBatchIsInvisible(s, rest, t);
      OwnThreadStep(r, Steps(s, Without(rest, t)), op, t);
    }
  }

  /** A batch that raises, or that the server refuses, leaves the store as if its thread had never
      opened it: database, other threads' buffers, and no active pipe of its own. */
  lemma AbandonedBatchLeavesNoTrace(s: StoreState, ops: seq<Op>, t: string, ending: Ending, at: int)
    requires s.pipes == map[] && Unnested(ops) && Pending(ops, t).Some?
    requires ending == NotExecuted || ending == BodyRaised
    ensures Steps(s, ops + [End(t, ending, at)]) == Steps(s, Without(ops, t))
  {
    StepsSnoc(s, ops, End(t, ending, at));
    OpenBatchIsInvisible(s, ops, t);
  }
}
