/** The timing of a worker's loop: sleeps, failures, and whether a refresh comes before a lease ends. */
module Polling {
  import opened Models

  /** One cycle as the environment decides it: how long its work takes, whether it ends in an error, and
      how far into the work a batch is executed, if one is. A cycle may fail after its batch executed. */
  datatype Cycle = Cycle(work: real, failed: bool, commit: Option<real>)

  const ERROR_SLEEP := 10.0

  function Sleep(ttl: real, c: Cycle): real {
    if c.failed then ERROR_SLEEP
    else if ttl / 3.0 - c.work > 0.0 then ttl / 3.0 - c.work else 0.0
  }

  /** When cycle `i` starts. */
  function StartAt(ttl: real, t0: real, script: seq<Cycle>, i: nat): real
    requires i <= |script|
  {
    if i == 0 then t0
    else StartAt(ttl, t0, script, i - 1) + script[i - 1].work + Sleep(ttl, script[i - 1])
  }

  predicate Commits(script: seq<Cycle>, i: int) {
    0 <= i < |script| && script[i].commit.Some?
  }

  function CommitAt(ttl: real, t0: real, script: seq<Cycle>, i: nat): real
    requires Commits(script, i)
  {
    StartAt(ttl, t0, script, i) + script[i].commit.value
  }

  /** The instants at which batches execute, in order. */
  function CommitTimes(ttl: real, t0: real, script: seq<Cycle>, n: nat): seq<real>
    requires n <= |script|
  {
    if n == 0 then [] else
      CommitTimes(ttl, t0, script, n - 1)
      + if Commits(script, n - 1) then [CommitAt(ttl, t0, script, n - 1)] else []
  }

  /** The loop itself, run for as many cycles as the script has. */
  method Worker(ttl: real, t0: real, script: seq<Cycle>) returns (starts: seq<real>, commits: seq<real>)
    ensures |starts| == |script| && forall i :: 0 <= i < |script| ==> starts[i] == StartAt(ttl, t0, script, i)
    ensures commits == CommitTimes(ttl, t0, script, |script|)
  {
    starts, commits := [], [];
    var clock := t0;
    for i := 0 to |script|
      invariant clock == StartAt(ttl, t0, script, i)
      invariant |starts| == i && forall j :: 0 <= j < i ==> starts[j] == StartAt(ttl, t0, script, j)
      invariant commits == CommitTimes(ttl, t0, script, i)
    {
      var startTime := clock;
      starts := starts + [startTime];
      if script[i].commit.Some? {
        commits := commits + [startTime + script[i].commit.value];
      }
      clock := clock + script[i].work;
      if script[i].failed {
        clock := clock + ERROR_SLEEP;
      } else {
        var elapsed := clock - startTime;
        clock := clock + if ttl / 3.0 - elapsed > 0.0 then ttl / 3.0 - elapsed else 0.0;
      }
    }
  }

  /** Work takes between 0 and `most`, and a batch executes while its cycle works. */
  ghost predicate Bounded(script: seq<Cycle>, most: real) {
    forall i :: 0 <= i < |script| ==>
      && 0.0 <= script[i].work <= most
      && (script[i].commit.Some? ==> 0.0 <= script[i].commit.value <= script[i].work)
  }

  /** Whatever a cycle does, the next one starts within a third of the lease; without an error, after
      exactly that long. */
  lemma CycleLength(ttl: real, t0: real, script: seq<Cycle>, most: real, i: nat)
    requires i < |script| && Bounded(script, most) && most + 10.0 <= ttl / 3.0
    ensures var gap := StartAt(ttl, t0, script, i + 1) - StartAt(ttl, t0, script, i);
            0.0 <= gap <= ttl / 3.0 && gap == if script[i].failed then script[i].work + 10.0 else ttl / 3.0
  {
  }

  lemma {:induction false} StartSpread(ttl: real, t0: real, script: seq<Cycle>, most: real, i: nat, j: nat)
    requires i <= j <= |script| && Bounded(script, most) && most + 10.0 <= ttl / 3.0
    ensures 0.0 <= StartAt(ttl, t0, script, j) - StartAt(ttl, t0, script, i) <= (j - i) as real * (ttl / 3.0)
  {
    if i < j {
      StartSpread(ttl, t0, script, most, i, j - 1);
      CycleLength(ttl, t0, script, most, j - 1);
      var third := ttl / 3.0;
      assert (j - i) as real == (j - 1 - i) as real + 1.0;
      assert (j - i) as real * third == (j - 1 - i) as real * third + third;
    }
  }

  /** Two executed batches with `missed` cycles between them lie at most `missed + 1` thirds of the lease
      and one cycle's work apart. */
  lemma CommitSpread(ttl: real, t0: real, script: seq<Cycle>, most: real, i: nat, missed: nat)
    requires Bounded(script, most) && most + 10.0 <= ttl / 3.0
    requires Commits(script, i) && Commits(script, i + missed + 1)
    ensures CommitAt(ttl, t0, script, i + missed + 1) - CommitAt(ttl, t0, script, i)
         <= (missed + 1) as real * (ttl / 3.0) + most
  {
    StartSpread(ttl, t0, script, most, i, i + missed + 1);
  }

  /** With at most one cycle in between that executes nothing, the next batch comes strictly before the
      leases given by the previous one end. */
  lemma RefreshBeatsExpiry(ttl: real, t0: real, script: seq<Cycle>, most: real, i: nat, j: nat)
    requires Bounded(script, most) && most + 10.0 <= ttl / 3.0
    requires Commits(script, i) && Commits(script, j) && i < j <= i + 2
    ensures CommitAt(ttl, t0, script, j) < CommitAt(ttl, t0, script, i) + ttl
  {
    var third := ttl / 3.0;
    CommitSpread(ttl, t0, script, most, i, j - i - 1);
    assert 0.0 <= script[i].work <= most;
    assert third > most;
    if j == i + 1 {
      assert (j - i - 1 + 1) as real * third == third;
    } else {
      assert (j - i - 1 + 1) as real * third == 2.0 * third;
    }
    assert ttl == 3.0 * third;
  }

  /** No two cycles in a row execute nothing. */
  ghost predicate NoTwoMisses(script: seq<Cycle>) {
    forall i :: 0 <= i < |script| - 1 && !Commits(script, i) ==> Commits(script, i + 1)
  }

  /** So a worker that never misses two cycles in a row follows up each batch, but the last ones, before
      the leases that batch gave end. Which leases are renewed depends on what the feed reports. */
  lemma NextBatchBeatsExpiry(ttl: real, t0: real, script: seq<Cycle>, most: real, i: nat)
    requires Bounded(script, most) && most + 10.0 <= ttl / 3.0 && NoTwoMisses(script)
    requires Commits(script, i) && i + 2 < |script|
    ensures exists j: nat ::
              i < j && Commits(script, j) && CommitAt(ttl, t0, script, j) < CommitAt(ttl, t0, script, i) + ttl
  {
    var j: nat := if Commits(script, i + 1) then i + 1 else i + 2;
    RefreshBeatsExpiry(ttl, t0, script, most, i, j);
  }

  lemma {:induction false} LastCommit(ttl: real, t0: real, script: seq<Cycle>, n: nat) returns (i: nat)
    requires n <= |script| && CommitTimes(ttl, t0, script, n) != []
    ensures i < n && Commits(script, i) && forall j :: i < j < n ==> !Commits(script, j)
    ensures var times := CommitTimes(ttl, t0, script, n); times[|times| - 1] == CommitAt(ttl, t0, script, i)
  {
    if Commits(script, n - 1) {
      i := n - 1;
    } else {
      i := LastCommit(ttl, t0, script, n - 1);
    }
  }

  /** Consecutive batches of such a worker lie at most two thirds of the lease and one cycle's work apart. */
  lemma {:induction false} CommitGap(ttl: real, t0: real, script: seq<Cycle>, most: real, n: nat, m: nat)
    requires Bounded(script, most) && most + 10.0 <= ttl / 3.0 && NoTwoMisses(script)
    requires n <= |script| && m + 1 < |CommitTimes(ttl, t0, script, n)|
    ensures var times := CommitTimes(ttl, t0, script, n); times[m + 1] - times[m] <= 2.0 * (ttl / 3.0) + most
  {
    var before := CommitTimes(ttl, t0, script, n - 1);
    if m + 1 < |before| {
      CommitGap(ttl, t0, script, most, n - 1, m);
    } else {
      var i := LastCommit(ttl, t0, script, n - 1);
      assert n >= 3 && !Commits(script, n - 3) ==> Commits(script, n - 2);
      assert n - 3 <= i;
      var third := ttl / 3.0;
      CommitSpread(ttl, t0, script, most, i, n - 2 - i);
      assert (n - 2 - i + 1) as real * third <= 2.0 * third by {
        if i == n - 2 { assert (n - 2 - i + 1) as real * third == third; } else { assert n - 2 - i + 1 == 2; }
      }
    }
  }

  // ----- how many missed cycles are too many -----

  /** Cycles `i` and `i + k + 1` execute a batch and the `k` between them do not. */
  ghost predicate Misses(script: seq<Cycle>, i: nat, k: nat) {
    Commits(script, i) && Commits(script, i + k + 1) && forall j :: i < j < i + k + 1 ==> !Commits(script, j)
  }

  /** However the cycles go, `k` misses in a row leave the next batch in time. */
  ghost predicate Tolerated(ttl: real, most: real, k: nat) {
    forall t0: real, script, i: nat :: Bounded(script, most) && Misses(script, i, k) ==>
      CommitAt(ttl, t0, script, i + k + 1) < CommitAt(ttl, t0, script, i) + ttl
  }

  /** A batch at once, `k` cycles without one, and a batch at the end of its work; no errors. */
  function IdleScript(most: real, k: nat): seq<Cycle> {
    seq(k + 2, i => Cycle(most, false, if i == 0 then Some(0.0) else if i == k + 1 then Some(most) else None))
  }

  lemma {:induction false} IdleStart(ttl: real, t0: real, most: real, k: nat, i: nat)
    requires 0.0 <= most && most + 10.0 <= ttl / 3.0 && i <= k + 2
    ensures StartAt(ttl, t0, IdleScript(most, k), i) == t0 + i as real * (ttl / 3.0)
  {
    if i == 0 {
    } else {
      var script, third := IdleScript(most, k), ttl / 3.0;
      IdleStart(ttl, t0, most, k, i - 1);
      CycleLength(ttl, t0, script, most, i - 1);
      assert i as real * third == (i - 1) as real * third + third;
    }
  }

  /** From two misses on, the lease can end before the next batch. */
  lemma ManyMissesCanLapse(ttl: real, t0: real, most: real, k: nat) returns (script: seq<Cycle>)
    requires 0.0 <= most && most + 10.0 <= ttl / 3.0 && k >= 2
    ensures Bounded(script, most) && Misses(script, 0, k)
    ensures CommitAt(ttl, t0, script, k + 1) >= CommitAt(ttl, t0, script, 0) + ttl
  {
    script := IdleScript(most, k);
    var third := ttl / 3.0;
    IdleStart(ttl, t0, most, k, k + 1);
    assert (k + 1) as real * third == 3.0 * third + (k - 2) as real * third;
    assert (k - 2) as real * third >= 0.0;
  }

  /** One missed cycle in a row is tolerated, and no more. */
  lemma MissesToleratedIff(ttl: real, most: real, k: nat)
    requires 0.0 <= most && most + 10.0 <= ttl / 3.0
    ensures Tolerated(ttl, most, k) <==> k <= 1
  {
    if k <= 1 {
      forall t0: real, script, i: nat | Bounded(script, most) && Misses(script, i, k)
        ensures CommitAt(ttl, t0, script, i + k + 1) < CommitAt(ttl, t0, script, i) + ttl
      {
        RefreshBeatsExpiry(ttl, t0, script, most, i, i + k + 1);
      }
    } else {
      var script := ManyMissesCanLapse(ttl, 0.0, most, k);
      assert Bounded(script, most) && Misses(script, 0, k);
    }
  }
}
