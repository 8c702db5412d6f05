/**
 * The run coordinator (main in main.go), sequentialised: the flags are
 * normalised, each worker's attempts are recorded into one shared run
 * state, and the totals, the per-worker average and the latency statistics
 * are reported.
 *
 * The workers of the source run concurrently; here they run one after the
 * other. WorkerOrderIrrelevant shows that swapping the order in which two
 * workers' whole outcome sequences reach the shared state changes neither
 * the counters nor the statistics; arbitrary interleavings of single
 * outcomes are not covered.
 */
module Run {
  import opened Wrappers
  import Stats
  import Worker
  import Config

  /** All workers' attempts, worker after worker. */
  function Flatten(attempts: seq<seq<Worker.Outcome>>): seq<Worker.Outcome> {
    if attempts == [] then [] else
      Flatten(attempts[..|attempts| - 1]) + attempts[|attempts| - 1]
  }

  /**
   * Swapping the order in which two workers' outcomes are recorded changes
   * neither the counters nor the latency statistics.
   */
  lemma WorkerOrderIrrelevant(a: seq<Worker.Outcome>, b: seq<Worker.Outcome>)
    ensures Worker.Successes(a + b) == Worker.Successes(b + a)
    ensures Worker.Failures(a + b) == Worker.Failures(b + a)
    ensures Stats.Statistics(Worker.Latencies(a + b)) == Stats.Statistics(Worker.Latencies(b + a))
  {
    Worker.TalliesAdditive(a, b);
    Worker.TalliesAdditive(b, a);
    var la, lb := Worker.Latencies(a), Worker.Latencies(b);
    assert multiset(la + lb) == multiset(lb + la);
    Stats.StatisticsPermutationInvariant(la + lb, lb + la);
  }

  /**
   * The summary at the end of main: the 2xx and non-2xx counts, total
   * requests, requests per worker and the statistics of the recorded
   * latencies (the model sorts a copy of them).
   */
  method Report(state: Worker.RunState, workers: int)
    returns (successes: nat, failures: nat, total: nat, perWorker: nat, stats: Option<Stats.Summary>)
    requires workers > 0
    ensures successes == state.successes && failures == state.failures
    ensures total == successes + failures
    ensures perWorker == Config.AvgPerWorker(total, workers)
    ensures stats == Stats.Statistics(state.times)
  {
    successes, failures := state.successes, state.failures;
    total := successes + failures;
    perWorker := Config.AvgPerWorker(total, workers);
    var times := state.times;
    var a := new int[|times|];
    for k := 0 to |times|
      invariant a[..k] == times[..k]
    {
      a[k] := times[k];
    }
    assert a[..] == times[..|times|] == times;
    stats := Stats.CalculateStats(a);
  }

  /**
   * A whole run: normalise the flags, record every worker's attempts into a
   * fresh run state, and report. The coordinator starts one worker per
   * (normalised) worker count; a zero count would make the per-worker
   * division panic, so it is excluded.
   */
  method LoadTest(flags: Config.Flags, attempts: seq<seq<Worker.Outcome>>)
    returns (successes: nat, failures: nat, total: nat, perWorker: nat, stats: Option<Stats.Summary>)
    requires flags.workers != 0
    requires |attempts| == (if flags.workers < 0 then 1 else flags.workers)
    modifies flags
    ensures flags.workers == |attempts|
    ensures flags.duration == (if old(flags.duration) < 0 then Config.DefaultDuration else old(flags.duration))
    ensures successes == Worker.Successes(Flatten(attempts))
    ensures failures == Worker.Failures(Flatten(attempts))
    ensures total == successes + failures == |Flatten(attempts)|
    ensures perWorker == Config.AvgPerWorker(total, |attempts|)
    ensures stats == Stats.Statistics(Worker.Latencies(Flatten(attempts)))
  {
    flags.Normalise();
    var state := new Worker.RunState();
    var w := 0;
    while w < flags.workers
      modifies state
      invariant 0 <= w <= flags.workers == |attempts|
      invariant state.successes == Worker.Successes(Flatten(attempts[..w]))
      invariant state.failures == Worker.Failures(Flatten(attempts[..w]))
      invariant state.times == Worker.Latencies(Flatten(attempts[..w]))
    {
      assert attempts[..w + 1][..w] == attempts[..w];
      Worker.TalliesAdditive(Flatten(attempts[..w]), attempts[w]);
      state.Drive(attempts[w]);
      w := w + 1;
    }
    assert attempts[..w] == attempts;
    Worker.EveryAttemptCounted(Flatten(attempts));
    successes, failures, total, perWorker, stats := Report(state, flags.workers);
  }
}
