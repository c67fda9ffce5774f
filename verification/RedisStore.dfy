/**
 The live-state store: a Redis database of expiring keys, the write commands the service issues,
 and the store object that buffers a thread's writes while that thread has a batch open.
 The server runs one command, or one whole batch, at a time.
 */
module RedisStore {
  import opened Models
  import opened SortedSets

  // ----- keys -----

  function TripKey(tripId: string): string { "trip:" + tripId }

  function ArrivalsKey(stopId: string): string { "arrivals:" + stopId }

  function FeedKey(feed: string): string { "feed:" + feed }

  /** The three key families never meet, and each key names one entity. */
  lemma KeysApart(a: string, b: string)
    ensures TripKey(a) != ArrivalsKey(b) && TripKey(a) != FeedKey(b) && ArrivalsKey(a) != FeedKey(b)
    ensures TripKey(a) == TripKey(b) ==> a == b
    ensures ArrivalsKey(a) == ArrivalsKey(b) ==> a == b
    ensures FeedKey(a) == FeedKey(b) ==> a == b
  {
    assert TripKey(a)[0] == 't' && ArrivalsKey(a)[0] == 'a';
    assert ArrivalsKey(b)[0] == 'a' && FeedKey(b)[0] == 'f';
    assert TripKey(a)[5..] == a && TripKey(b)[5..] == b;
    assert ArrivalsKey(a)[9..] == a && ArrivalsKey(b)[9..] == b;
    assert FeedKey(a)[5..] == a && FeedKey(b)[5..] == b;
  }

  // ----- database -----

  /** The stored text of a trip and of a timestamp is kept decoded. */
  datatype Value = TripDoc(update: TripUpdate) | Stamp(time: int) | ZSet(members: map<string, int>)

  datatype Cell = Cell(value: Value, expiry: Option<int>)

  type Db = map<string, Cell>

  /** An expired key is absent, to readers and to writers alike. */
  predicate Present(db: Db, key: string, now: int) {
    key in db && (db[key].expiry.Some? ==> now < db[key].expiry.value)
  }

  predicate HoldsSet(db: Db, key: string, now: int) {
    Present(db, key, now) && db[key].value.ZSet?
  }

  /** The contents of a sorted set; an absent key is the empty set. */
  function Members(db: Db, key: string, now: int): map<string, int> {
    if HoldsSet(db, key, now) then db[key].value.members else map[]
  }

  /** `get_kv` on a trip key. */
  function GetTrip(db: Db, tripId: string, now: int): Option<TripUpdate> {
    var key := TripKey(tripId);
    if Present(db, key, now) && db[key].value.TripDoc? then Some(db[key].value.update) else None
  }

  /** `get_zset`: scores from 0 to `maxScore`, in (score, member) order. */
  function GetZset(db: Db, key: string, maxScore: int, now: int): seq<ZEntry> {
    RangeByScore(Members(db, key, now), 0, maxScore)
  }

  /** The last stored timestamp; absent or unreadable counts as 0. */
  function ReadStamp(db: Db, key: string, now: int): int {
    if Present(db, key, now) && db[key].value.Stamp? then db[key].value.time else 0
  }

  // ----- what the readings mean, cell by cell -----

  /** The cell has no expiry, or its expiry is still to come. */
  predicate InForce(c: Cell, now: int) { c.expiry == None || now < c.expiry.value }

  /** The board of `p` is stored and in force, and holds trip `k` at time `s`. */
  predicate StoredTime(db: Db, p: string, k: string, s: int, now: int) {
    var key := "arrivals:" + p;
    && key in db && InForce(db[key], now) && db[key].value.ZSet?
    && k in db[key].value.members && db[key].value.members[k] == s
  }

  /** The metadata of trip `k` is stored and in force. */
  predicate StoredTrip(db: Db, k: string, u: TripUpdate, now: int) {
    var key := "trip:" + k;
    key in db && InForce(db[key], now) && db[key].value == TripDoc(u)
  }

  lemma MembersMeaning(db: Db, p: string, k: string, s: int, now: int)
    ensures StoredTime(db, p, k, s, now) <==>
            k in Members(db, ArrivalsKey(p), now) && Members(db, ArrivalsKey(p), now)[k] == s
  {
  }

  lemma GetTripMeaning(db: Db, k: string, u: TripUpdate, now: int)
    ensures StoredTrip(db, k, u, now) <==> GetTrip(db, k, now) == Some(u)
  {
  }

  /** A stored timestamp in force is read; anything else reads as 0. */
  lemma ReadStampMeaning(db: Db, feed: string, now: int)
    ensures var key, last := "feed:" + feed, ReadStamp(db, FeedKey(feed), now);
            && (key in db && InForce(db[key], now) && db[key].value.Stamp? ==> last == db[key].value.time)
            && (key !in db || !InForce(db[key], now) || !db[key].value.Stamp? ==> last == 0)
  {
  }

  // ----- commands -----

  datatype Command =
    | Set(key: string, value: Value, ttl: Option<int>)
    | ZRemRangeByScore(key: string, lo: int, hi: int)
    | ZAdd(key: string, mapping: map<string, int>)
    | Expire(key: string, seconds: int)

  /** One command executed at time `now`. A sorted set that loses its last member is deleted;
      a command on a key of another type is refused and changes nothing. */
  function Apply(db: Db, c: Command, now: int): Db {
    match c
    case Set(key, value, ttl) =>
      db[key := Cell(value, if ttl.Some? then Some(now + ttl.value) else None)]
    case ZRemRangeByScore(key, lo, hi) =>
      if !HoldsSet(db, key, now) then db else
        var rest := RemoveRange(db[key].value.members, lo, hi);
        if rest == map[] then db - {key} else db[key := db[key].(value := ZSet(rest))]
    case ZAdd(key, mapping) =>
      if HoldsSet(db, key, now) then db[key := db[key].(value := ZSet(db[key].value.members + mapping))]
      else if Present(db, key, now) then db
      else db[key := Cell(ZSet(mapping), None)]
    case Expire(key, seconds) =>
      if !Present(db, key, now) then db
      else if seconds <= 0 then db - {key}
      else db[key := db[key].(expiry := Some(now + seconds))]
  }

  function ApplyAll(db: Db, cs: seq<Command>, now: int): Db
    decreases |cs|
  {
    if cs == [] then db else ApplyAll(Apply(db, cs[0], now), cs[1..], now)
  }

  lemma {:induction false} ApplyAllConcat(db: Db, a: seq<Command>, b: seq<Command>, now: int)
    ensures ApplyAll(db, a + b, now) == ApplyAll(ApplyAll(db, a, now), b, now)
    decreases |a|
  {
    if a == [] {
      assert a + b == b;
    } else {
      assert (a + b)[1..] == a[1..] + b;
      ApplyAllConcat(Apply(db, a[0], now), a[1..], b, now);
    }
  }

  predicate SameAt(a: Db, b: Db, key: string) {
    (key in a <==> key in b) && (key in a ==> a[key] == b[key])
  }

  /** Commands change only the keys they name. */
  lemma {:induction false} ApplyAllFrame(db: Db, cs: seq<Command>, now: int, key: string)
    requires forall c | c in cs :: c.key != key
    ensures SameAt(ApplyAll(db, cs, now), db, key)
    decreases |cs|
  {
    if cs == [] {
    } else {
      assert cs[0] in cs;
      ApplyAllFrame(Apply(db, cs[0], now), cs[1..], now, key);
    }
  }

  /** What happens at a key depends only on what the key held. */
  lemma {:induction false} ApplyAllLocal(a: Db, b: Db, cs: seq<Command>, now: int, key: string)
    requires SameAt(a, b, key)
    ensures SameAt(ApplyAll(a, cs, now), ApplyAll(b, cs, now), key)
    decreases |cs|
  {
    if cs == [] {
    } else {
      ApplyAllLocal(Apply(a, cs[0], now), Apply(b, cs[0], now), cs[1..], now, key);
    }
  }

  /** The commands of `sync_set`: purge, then add and refresh when there is something to add. */
  function SyncCommands(key: string, mapping: map<string, int>, minScore: int, ttl: int): seq<Command> {
    [ZRemRangeByScore(key, 0, minScore)]
    + if mapping == map[] then [] else [ZAdd(key, mapping), Expire(key, ttl)]
  }

  // ----- batches -----

  /** How a batch ends: executed and acknowledged, executed with the reply lost on the way,
      refused by the server, or abandoned because its body raised. */
  datatype Ending = Committed | ReplyLost | NotExecuted | BodyRaised
  {
    predicate Executed() { Committed? || ReplyLost? }
  }

  /** The server's database and, per thread with an open batch, the commands buffered so far. */
  datatype StoreState = StoreState(db: Db, pipes: map<string, seq<Command>>)

  datatype Op =
    | Begin(thread: string)
    | Write(thread: string, command: Command, at: int)
    | End(thread: string, ending: Ending, at: int)

  /** A write goes to the thread's own buffer when it has one and to the server otherwise. */
  function Step(s: StoreState, op: Op): StoreState {
    match op
    case Begin(t) => s.(pipes := s.pipes[t := []])
    case Write(t, c, at) =>
      if t in s.pipes then s.(pipes := s.pipes[t := s.pipes[t] + [c]])
      else s.(db := Apply(s.db, c, at))
    case End(t, ending, at) =>
      StoreState(
        if t in s.pipes && ending.Executed() then ApplyAll(s.db, s.pipes[t], at) else s.db,
        s.pipes - {t})
  }

  function Steps(s: StoreState, ops: seq<Op>): StoreState {
    if ops == [] then s else Step(Steps(s, ops[..|ops| - 1]), ops[|ops| - 1])
  }

  function Writes(thread: string, cs: seq<Command>, at: int): seq<Op> {
    seq(|cs|, i requires 0 <= i < |cs| => Write(thread, cs[i], at))
  }

  /** With a batch open, a thread's writes collect in its buffer and touch nothing else. */
  lemma {:induction false} WritesBuffer(s: StoreState, thread: string, cs: seq<Command>, at: int)
    requires thread in s.pipes
    ensures Steps(s, Writes(thread, cs, at)) == s.(pipes := s.pipes[thread := s.pipes[thread] + cs])
  {
    if cs == [] {
      assert s.pipes[thread] + cs == s.pipes[thread];
      assert s.pipes[thread := s.pipes[thread]] == s.pipes;
    } else {
      var n := |cs| - 1;
      var ops := Writes(thread, cs, at);
      assert ops[..n] == Writes(thread, cs[..n], at);
      WritesBuffer(s, thread, cs[..n], at);
      assert cs[..n] + [cs[n]] == cs;
      assert s.pipes[thread] + cs[..n] + [cs[n]] == s.pipes[thread] + cs;
    }
  }

  class RedisStateStore {
    var db: Db
    var pipes: map<string, seq<Command>>

    function State(): StoreState
      reads this
    {
      StoreState(db, pipes)
    }

    constructor ()
      ensures State() == StoreState(map[], map[])
    {
      db, pipes := map[], map[];
    }

    /** Entry of `batch_session`. Batches of one thread do not nest. */
    method BeginBatch(thread: string)
      requires thread !in pipes
      modifies this
      ensures State() == Step(old(State()), Begin(thread))
    {
      pipes := pipes[thread := []];
    }

    /** Exit of `batch_session`: the thread is back on the plain client whatever happened, and the
        buffer reached the database as a whole or not at all. */
    method EndBatch(thread: string, ending: Ending, at: int)
      requires thread in pipes
      modifies this
      ensures State() == Step(old(State()), End(thread, ending, at))
      ensures pipes == old(pipes) - {thread}
      ensures ending == Committed || ending == ReplyLost ==> db == ApplyAll(old(db), old(pipes[thread]), at)
      ensures ending == NotExecuted || ending == BodyRaised ==> db == old(db)
    {
      var pipe := pipes[thread];
      pipes := pipes - {thread};
      if ending.Executed() {
        db := ApplyAll(db, pipe, at);
      }
    }

    /** A write through `_get_client()`. */
    method Issue(thread: string, command: Command, at: int)
      modifies this
      ensures State() == Step(old(State()), Write(thread, command, at))
    {
      if thread in pipes {
        pipes := pipes[thread := pipes[thread] + [command]];
      } else {
        db := Apply(db, command, at);
      }
    }

    method SetKv(thread: string, key: string, value: Value, ttl: int, at: int)
      modifies this
      ensures State() == Steps(old(State()), Writes(thread, [Set(key, value, Some(ttl))], at))
    {
      ghost var was := State();
      Issue(thread, Set(key, value, Some(ttl)), at);
      assert Writes(thread, [Set(key, value, Some(ttl))], at)[..0] == [];
      assert Steps(was, []) == was;
    }

    method SyncSet(thread: string, key: string, mapping: map<string, int>, minScore: int, ttl: int, at: int)
      modifies this
      ensures State() == Steps(old(State()), Writes(thread, SyncCommands(key, mapping, minScore, ttl), at))
    {
      ghost var was := State();
      ghost var ops := Writes(thread, SyncCommands(key, mapping, minScore, ttl), at);
      Issue(thread, ZRemRangeByScore(key, 0, minScore), at);
      assert ops[..1][..0] == [];
      assert State() == Steps(was, ops[..1]);
      if mapping != map[] {
        Issue(thread, ZAdd(key, mapping), at);
        assert ops[..2][..1] == ops[..1];
        assert State() == Steps(was, ops[..2]);
        Issue(thread, Expire(key, ttl), at);
        assert ops[..3][..2] == ops[..2];
        assert State() == Steps(was, ops[..3]);
        assert ops[..3] == ops;
      } else {
        assert ops[..1] == ops;
      }
    }

    /** A read and a separate write; nobody else acts in between here (`Workers` has the two as separate
        steps). The call raises when the server refuses the read, on a key that holds a sorted set, and
        when the reply to the write is lost, after the write took effect. */
    method CheckAndUpdateTimestamp(key: string, timestamp: int, now: int, replyLost: bool)
      returns (accepted: Option<bool>)
      modifies this
      ensures var newer := !HoldsSet(old(db), key, now) && ReadStamp(old(db), key, now) < timestamp;
              && (accepted.None? <==> HoldsSet(old(db), key, now) || (newer && replyLost))
              && (accepted.Some? ==> accepted.value == newer)
              && db == if newer then Apply(old(db), Set(key, Stamp(timestamp), None), now) else old(db)
      ensures pipes == old(pipes)
    {
      if HoldsSet(db, key, now) {
        return None;
      }
      var last := ReadStamp(db, key, now);
      if last >= timestamp {
        return Some(false);
      }
      db := Apply(db, Set(key, Stamp(timestamp), None), now);
      return if replyLost then None else Some(true);
    }
  }
}
