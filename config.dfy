/**
 * Run configuration: the correction of negative flag values in main
 * (main.go) and the per-worker average it reports.
 *
 * Durations are nanoseconds, as Go's time.Duration.
 */
module Config {

  const Second: int := 1_000_000_000

  /** The duration substituted for a negative one: 10 s. */
  const DefaultDuration: int := 10 * Second

  /** The two numeric flags that main overwrites through their pointers. */
  class Flags {
    var duration: int
    var workers: int

    constructor (duration: int, workers: int)
      ensures this.duration == duration && this.workers == workers
    {
      this.duration := duration;
      this.workers := workers;
    }

    /**
     * A negative duration becomes 10 s and a negative worker count becomes 1;
     * every other value is kept. Zero workers is not corrected.
     */
    method Normalise()
      modifies this
      ensures old(duration) < 0 ==> duration == DefaultDuration
      ensures old(duration) >= 0 ==> duration == old(duration)
      ensures old(workers) < 0 ==> workers == 1
      ensures old(workers) >= 0 ==> workers == old(workers)
      ensures duration >= 0 && workers >= 0
      ensures workers == 0 <==> old(workers) == 0
    {
      if duration < 0 {
        duration := DefaultDuration;
      }
      if workers < 0 {
        workers := 1;
      }
    }
  }

  /**
   * Requests per worker, truncated: the largest count that every worker
   * could have completed. Go's division by zero panics, so workers must be
   * positive.
   */
  function AvgPerWorker(total: nat, workers: int): (avg: nat)
    requires workers > 0
    ensures avg * workers <= total < (avg + 1) * workers
  {
    total / workers
  }

  /**
   * A worker count of 0 survives normalisation, so the per-worker average's
   * precondition is not established by it.
   */
  method ZeroWorkersSurvive(duration: int) returns (workers: int)
    ensures workers == 0
  {
    var flags := new Flags(duration, 0);
    flags.Normalise();
    workers := flags.workers;
  }

  /** Normalising twice gives the same flags as normalising once. */
  method NormaliseIdempotent(duration: int, workers: int) returns (once: (int, int), twice: (int, int))
    ensures once == twice
    ensures once.0 >= 0 && once.1 >= 0
  {
    var flags := new Flags(duration, workers);
    flags.Normalise();
    once := (flags.duration, flags.workers);
    flags.Normalise();
    twice := (flags.duration, flags.workers);
  }
}
