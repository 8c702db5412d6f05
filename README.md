# HTTP load generator: verified model of its sequential core

The load generator (`main.go`) starts a number of workers that send HTTP GET
requests to one URL for a fixed duration, counts 2xx and non-2xx outcomes in
shared counters, records the latency of every response, and at the end
prints the totals, the requests per worker and latency statistics (min, max,
median, 90th/95th/99th percentiles, average).

This project models the three pieces of sequential logic in that program and
proves their properties in Dafny:

- `Stats` (`stats.dfy`): the statistics reducer `calculateStats`. The
  latencies are an `array<int>` of nanoseconds. `SortInPlace` sorts it in
  place (an insertion sort standing in for `sort.Slice`). The seven values are
  read from the same indices the source uses, and `Total` adds up the
  samples in a loop. `CalculateStats` returns an `Option<Summary>` instead of
  printing: `None` when there are no samples. Its result is proved equal to
  the reference function `Statistics` of the unsorted input. The lemmas prove
  that the summary is ordered, that the average lies between min and max,
  that every reported value except the average is one of the samples, and
  that the result depends only on the multiset of samples.
- `Worker` (`worker.dfy`): one iteration of the worker loop in
  `sendRequests`. `RunState` holds the success counter, the failure counter
  and the latency sequence. `Record` applies one `Outcome`, either
  `TransportError` or `Response(status, elapsed)`. `Drive` runs the loop over
  a sequence of outcomes. Reference tallies (`Successes`, `Failures`,
  `TransportErrors`, `Latencies`) say what the state must grow by.
- `Config` (`config.dfy`): the correction of negative `-duration` and
  `-workers` values in `main` (`Flags.Normalise`) and the per-worker average
  (`AvgPerWorker`).
- `Run` (`run.dfy`): the end of `main` (`Report`) and a sequential run of the
  whole program (`LoadTest`): normalise, record every worker's attempts,
  report. It also proves that swapping the order in which two workers' whole
  outcome sequences reach the shared state changes neither the counters nor
  the statistics.
- `Wrappers` (`wrappers.dfy`): the `Option` type.

Where the code and its descriptions disagree, the model follows the code:

- The median is the element at index `n/2` of the sorted samples. For an
  even count that is the upper of the two middle values: `[10, 20, 30, 40]`
  gives 30 (`Stats.EvenCountMedianIsUpperMiddle`). The doc comment of
  `calculateStats` (main.go:73-74) says it is the lower one.
- Only a negative worker count is corrected to 1 (main.go:141-144).
  `-workers=0` is kept, and the division at main.go:166 then divides by
  zero, which panics in Go. So `AvgPerWorker` and `Report` require
  `workers > 0`, `LoadTest` requires a non-zero flag, and
  `Config.ZeroWorkersSurvive` shows that the correction leaves 0 in place.

Durations are nanoseconds as unbounded `int`. Go's `time.Duration` is int64.
Its `/` truncates toward zero, and `TruncDiv` models that for negative sums
too, so the statistics lemmas need no sign assumption on the samples.

## Model

| member | source | states |
|---|---|---|
| `Stats.TruncDiv` | main.go:109 | Go's integer division of the total by the count truncates toward zero: the remainder has the sign of the dividend and is smaller than the divisor |
| `Stats.MedianIndex` | main.go:97 | the median index `n/2` is in bounds; for odd `n` it is the exact middle, for even `n` the upper of the two middle positions |
| `Stats.PercentileIndex` | main.go:99-101 | the nearest-rank index for p < 100 is in bounds for every n ≥ 1 and is the floor of n·p/100 |
| `Stats.SortInPlace` | main.go:90-92 | after the in-place sort the array is ascending and a permutation of its old contents |
| `Stats.Total` | main.go:104-107 | the accumulation loop yields the sum of all samples |
| `Stats.CalculateStats` | main.go:85-118 | with no samples it returns nothing and leaves the array unchanged; otherwise the array ends up as the sorted input and the result is the summary of that sorted snapshot, equal to the reference statistics of the input |
| `Stats.SortCorrect` | main.go:90-92 | the reference sort produces an ascending permutation of its input |
| `Stats.SortedUnique` | main.go:90-92 | two ascending sequences with the same multiset are equal, so the sorted snapshot does not depend on the sorting algorithm or the original order |
| `Stats.SortIsUniqueSortedPermutation` | main.go:90-92 | any ascending permutation of the samples is the reference sort of them |
| `Stats.StatisticsPermutationInvariant` | main.go:85-109 | the reducer's result depends only on the multiset of samples, not on the order in which they were appended |
| `Stats.SummaryOf` | main.go:94-109 | the summary of a sorted snapshot reads min, max, median and the three percentiles from the snapshot itself (only the average may be a value not in it) |
| `Stats.Statistics` | main.go:85-109 | the reference reducer reports nothing exactly when there are no samples (the early return), and otherwise the summary of the sorted samples |
| `Stats.MedianBeforeP90` | main.go:97-99 | the median index never exceeds the 90th percentile index |
| `Stats.PercentileIndexMonotone` | main.go:99-101 | a higher percentile never picks a lower index |
| `Stats.SummaryOrdered` | main.go:94-101 | on a sorted snapshot min ≤ median ≤ p90 ≤ p95 ≤ p99 ≤ max, and every sample lies between min and max |
| `Stats.SumBounds` | main.go:104-107 | the sum of n samples within [lo, hi] lies within [n·lo, n·hi] |
| `Stats.QuotientBounds` | main.go:109 | the truncated quotient of a value within [n·lo, n·hi] by n lies within [lo, hi] |
| `Stats.AverageWithinRange` | main.go:104-109 | the truncated average of a sorted snapshot lies between its min and max |
| `Stats.StatisticsOrdered` | main.go:90-109 | for any non-empty input the reported values are ordered min ≤ median ≤ p90 ≤ p95 ≤ p99 ≤ max, min ≤ average ≤ max, and every input sample lies between min and max |
| `Stats.StatisticsDrawnFromSamples` | main.go:94-101 | min, max, median and the three percentiles are each one of the input samples |
| `Stats.OddCountExample` | main.go:94-109 | [10, 20, 30, 40, 50] gives min 10, max 50, median 30, p90 = p95 = p99 = 50 and average 30 |
| `Stats.EvenCountMedianIsUpperMiddle` | main.go:73-74 | [10, 20, 30, 40] has median 30, the upper middle value, unlike the doc comment's "lower of the two middle values" |
| `Stats.SingleSampleExample` | main.go:94-109 | with one sample every index is 0 and every statistic equals that sample |
| `Worker.RunState.constructor` | main.go:13-16 | a run starts with both counters at zero and no latencies |
| `Worker.RunState.Record` | main.go:40-64 | a transport error adds exactly one failure and leaves successes and latencies unchanged; a response appends its latency and adds one success if its status is in [200, 300), one failure otherwise |
| `Worker.RunState.Drive` | main.go:27-65 | running the loop over a sequence of outcomes grows successes, failures and latencies by exactly the reference tallies of that sequence |
| `Worker.RunFromScratch` | main.go:27-65 | from a fresh state, successes + failures equals the number of attempts and the latency count equals the attempts minus the transport errors |
| `Worker.EveryAttemptCounted` | main.go:41-64 | every attempt is counted exactly once, as a success or as a failure |
| `Worker.LatencyPerResponse` | main.go:41-50 | the number of latencies is the number of attempts minus the transport errors, and transport errors are among the failures |
| `Worker.LatenciesFromResponses` | main.go:49-50 | every recorded latency is the elapsed time of some received response |
| `Worker.TalliesAdditive` | main.go:40-64 | counters and latencies of two outcome sequences run back to back are the sums and the concatenation of each one's |
| `Worker.IsSuccess` | main.go:54 | a status is a success exactly when it is a 2xx code, i.e. its hundreds digit is 2 |
| `Config.Flags.Normalise` | main.go:137-144 | a negative duration becomes 10 s and a negative worker count becomes 1, all other values are kept; afterwards both are non-negative and the worker count is 0 exactly when it was 0 |
| `Config.AvgPerWorker` | main.go:166 | for a positive worker count the per-worker average is the largest count whose product with the workers does not exceed the total |
| `Config.ZeroWorkersSurvive` | main.go:141-144 | a worker count of 0 is left at 0 by the correction |
| `Config.NormaliseIdempotent` | main.go:137-144 | correcting the flags a second time changes nothing, and the corrected values are non-negative |
| `Run.WorkerOrderIrrelevant` | main.go:154-162 | recording two workers' outcomes in either order gives the same counters and the same statistics |
| `Run.Report` | main.go:164-167 | the 2xx and non-2xx counts are those of the run state, the total is their sum, the per-worker figure is the truncated average, and the statistics are the reducer's result on the recorded latencies |
| `Run.LoadTest` | main.go:137-167 | after the flags are corrected and one attempt sequence per worker is recorded, the 2xx and non-2xx counts are the success and failure tallies of all attempts, the total is their sum and equals the number of attempts, the per-worker figure is total / workers truncated, and the statistics are those of every latency recorded |

## Left out

- Goroutines, `sync.WaitGroup` and the `running` stop flag: the source's workers run concurrently and race on the unsynchronised globals. Here the workers run one after the other, each over a given finite sequence of outcomes, and the data race is not modelled.
- HTTP: `http.NewRequest`, `client.Do`, the User-Agent header, `resp.Body.Close` and the `log.Fatal` on request construction are network I/O and foreign calls. A request's result enters the model only as an `Outcome`.
- Clocks: `time.Now`, `time.Since`, `time.Sleep` and `logProgress`. Elapsed times are part of each `Outcome`, and the run's duration is only normalised, never waited for.
- Flag parsing and every `fmt.Printf`/`fmt.Println`: the model returns values instead of printing, and `Flags` is built from already parsed values. The URL and verbose flags do not affect any computed value and are not modelled.
- Stats.PercentileIndex: the source computes `int(float64(n) * 0.9)` (likewise 0.95 and 0.99) in IEEE double arithmetic, while the model uses the exact floor of n·p/100. The two agree on the sample counts a run produces, but double rounding is not modelled.
- Stats.Total: `time.Duration` is int64, and a running sum that overflows wraps in Go; the model's sum is unbounded.
- Stats.SortInPlace: `sort.Slice` uses an unspecified unstable algorithm, modelled by an insertion sort. For integers every ascending permutation is the same sequence (`Stats.SortedUnique`), so the result does not depend on that choice.
- Run.Report: `calculateStats` sorts the global `times` slice itself, while the model sorts a copy of the recorded latencies, so the run state's latency order stays as recorded.
