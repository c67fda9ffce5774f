/** The arithmetic of the worker's sleeps, put to use on the store: which stops never lose their lease. */
module PolledStops {
  import opened Models
  import opened History
  import opened Polling

  /** Stop `p` is polled at `times`: the batches of the run that refresh it are those numbered by
      `index`, one for each instant, and the server's clock shows whole seconds. Batches of other workers
      may come in between as long as they do not report `p`. */
  ghost predicate Polled(run: seq<Batch>, p: string, index: seq<int>, times: seq<real>) {
    && |index| == |times|
    && (forall m :: 0 <= m < |index| ==> 0 <= index[m] < |run| && run[index[m]].at == times[m].Floor)
    && (forall m, n :: 0 <= m < n < |index| ==> index[m] < index[n])
    && (forall j :: 0 <= j < |run| ==> (run[j].Refreshes(p) <==> j in index))
  }

  lemma WholeSeconds(a: real, b: real, ttl: int)
    requires b - a <= ttl as real - 10.0
    ensures b.Floor < a.Floor + ttl
  {
  }

  lemma LeaseRenewed(
    cfg: Settings, t0: real, script: seq<Cycle>, most: real, run: seq<Batch>, index: seq<int>, p: string, j: int,
      now: int)
    requires Bounded(script, most) && most + 10.0 <= cfg.gtfsTtl as real / 3.0 && NoTwoMisses(script)
    requires Polled(run, p, index, CommitTimes(cfg.gtfsTtl as real, t0, script, |script|))
    requires index != [] ==> now < run[index[|index| - 1]].at + cfg.gtfsTtl
    requires 0 <= j < |run| && run[j].Refreshes(p)
    ensures Renewed(cfg, run, j, p, now)
  {
    var times := CommitTimes(cfg.gtfsTtl as real, t0, script, |script|);
    var m :| 0 <= m < |index| && index[m] == j;
    if m + 1 < |index| {
      CommitGap(cfg.gtfsTtl as real, t0, script, most, |script|, m);
      WholeSeconds(times[m], times[m + 1], cfg.gtfsTtl);
      var next := index[m + 1];
      assert index[m] < next && next in index;
    }
  }

  /** A stop that is in every batch of its worker, and whose worker never misses two cycles in a row,
      shows each trip at its last reported time for as long as the worker's last lease runs, unless a later
      refresh found that time too old. */
  lemma PolledStopShowsLastReports(
    cfg: Settings, t0: real, script: seq<Cycle>, most: real, run: seq<Batch>, index: seq<int>,
    p: string, k: string, s: int, now: int)
    requires cfg.Sane() && Clocked(run, now)
    requires Bounded(script, most) && most + 10.0 <= cfg.gtfsTtl as real / 3.0 && NoTwoMisses(script)
    requires Polled(run, p, index, CommitTimes(cfg.gtfsTtl as real, t0, script, |script|))
    requires index != [] ==> now < run[index[|index| - 1]].at + cfg.gtfsTtl
    ensures Shows(StoreAfter(cfg, run), p, k, s, now) <==>
            exists i :: LastReported(run, i, p, k, s) && Unpurged(cfg, run, i, p, s)
  {
    forall j | 0 <= j < |run| && run[j].Refreshes(p) ensures Renewed(cfg, run, j, p, now) {
      LeaseRenewed(cfg, t0, script, most, run, index, p, j, now);
    }
    RenewedStopShowsLastReports(cfg, run, p, k, s, now);
  }
}
