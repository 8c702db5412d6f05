/**
 * The outcome bookkeeping of one worker (the body of the loop in
 * sendRequests, main.go).
 *
 * Each request attempt ends in an Outcome. The shared run state holds the
 * success and failure counters and the recorded latencies; one call of
 * Record is one iteration of the worker loop, and Drive runs the loop over a
 * given sequence of outcomes, one worker at a time.
 */
module Worker {

  /** How one request attempt ended. */
  datatype Outcome =
    | TransportError                          // client.Do returned an error
    | Response(status: int, elapsed: int)     // a response with its status and latency in ns

  /** A status counts as a success iff it is a 2xx code, i.e. its hundreds digit is 2. */
  predicate IsSuccess(status: int): (ok: bool)
    ensures ok <==> status / 100 == 2
  {
    200 <= status < 300
  }

  // ---------------------------------------------------------------------
  // Reference tallies over a sequence of outcomes
  // ---------------------------------------------------------------------

  function Successes(outs: seq<Outcome>): nat {
    if outs == [] then 0 else
      var o := outs[|outs| - 1];
      Successes(outs[..|outs| - 1]) + (if o.Response? && IsSuccess(o.status) then 1 else 0)
  }

  function Failures(outs: seq<Outcome>): nat {
    if outs == [] then 0 else
      var o := outs[|outs| - 1];
      Failures(outs[..|outs| - 1]) + (if o.Response? && IsSuccess(o.status) then 0 else 1)
  }

  function TransportErrors(outs: seq<Outcome>): nat {
    if outs == [] then 0 else
      TransportErrors(outs[..|outs| - 1]) + (if outs[|outs| - 1].TransportError? then 1 else 0)
  }

  /** The latencies of the attempts that got a response, in attempt order. */
  function Latencies(outs: seq<Outcome>): seq<int> {
    if outs == [] then [] else
      var o := outs[|outs| - 1];
      Latencies(outs[..|outs| - 1]) + (if o.Response? then [o.elapsed] else [])
  }

  // ---------------------------------------------------------------------
  // Lemmas about the tallies
  // ---------------------------------------------------------------------

  /** Every attempt is counted exactly once, as a success or as a failure. */
  lemma {:induction false} EveryAttemptCounted(outs: seq<Outcome>)
    ensures Successes(outs) + Failures(outs) == |outs|
  {
    if outs != [] {
      EveryAttemptCounted(outs[..|outs| - 1]);
    }
  }

  /** Only transport errors go without a latency sample. */
  lemma {:induction false} LatencyPerResponse(outs: seq<Outcome>)
    ensures |Latencies(outs)| == |outs| - TransportErrors(outs)
    ensures TransportErrors(outs) <= Failures(outs)
  {
    if outs != [] {
      LatencyPerResponse(outs[..|outs| - 1]);
    }
  }

  /** Every recorded latency is the latency of some response. */
  lemma {:induction false} LatenciesFromResponses(outs: seq<Outcome>, k: nat)
    requires k < |Latencies(outs)|
    ensures exists i :: 0 <= i < |outs| && outs[i].Response? && outs[i].elapsed == Latencies(outs)[k]
  {
    var init := outs[..|outs| - 1];
    var o := outs[|outs| - 1];
    if k < |Latencies(init)| {
      LatenciesFromResponses(init, k);
      var i :| 0 <= i < |init| && init[i].Response? && init[i].elapsed == Latencies(init)[k];
      assert outs[i] == init[i];
    } else {
      assert o.Response? && o.elapsed == Latencies(outs)[k];
    }
  }

  /**
   * Running two outcome sequences one after the other tallies their sums and
   * concatenates their latencies: per-worker tallies can be merged.
   */
  lemma {:induction false} TalliesAdditive(a: seq<Outcome>, b: seq<Outcome>)
    ensures Successes(a + b) == Successes(a) + Successes(b)
    ensures Failures(a + b) == Failures(a) + Failures(b)
    ensures TransportErrors(a + b) == TransportErrors(a) + TransportErrors(b)
    ensures Latencies(a + b) == Latencies(a) + Latencies(b)
  {
    if b != [] {
      var b' := b[..|b| - 1];
      assert (a + b)[..|a + b| - 1] == a + b';
      assert (a + b)[|a + b| - 1] == b[|b| - 1];
      TalliesAdditive(a, b');
    } else {
      assert a + b == a;
    }
  }

  // ---------------------------------------------------------------------
  // The shared run state and the worker loop
  // ---------------------------------------------------------------------

  /** The counters and latency collection every worker updates. */
  class RunState {
    var successes: nat
    var failures: nat
    var times: seq<int>

    /** A fresh run: counters at zero, no latencies. */
    constructor ()
      ensures successes == 0 && failures == 0 && times == []
    {
      successes, failures, times := 0, 0, [];
    }

    /**
     * One iteration of the worker loop. A transport error counts one failure
     * and records no latency; a response records its latency and counts one
     * success if its status is 2xx, one failure otherwise.
     */
    method Record(o: Outcome)
      modifies this
      ensures o.TransportError? ==>
        successes == old(successes) && failures == old(failures) + 1 && times == old(times)
      ensures o.Response? ==> times == old(times) + [o.elapsed]
      ensures o.Response? && IsSuccess(o.status) ==>
        successes == old(successes) + 1 && failures == old(failures)
      ensures o.Response? && !IsSuccess(o.status) ==>
        successes == old(successes) && failures == old(failures) + 1
    {
      match o
      case TransportError =>
        failures := failures + 1;
      case Response(status, elapsed) =>
        times := times + [elapsed];
        if status >= 200 && status < 300 {
          successes := successes + 1;
        } else {
          failures := failures + 1;
        }
    }

    /**
     * The worker loop run over the outcomes of its attempts, in order: the
     * state grows by exactly the tallies of those outcomes.
     */
    method Drive(outs: seq<Outcome>)
      modifies this
      ensures successes == old(successes) + Successes(outs)
      ensures failures == old(failures) + Failures(outs)
      ensures times == old(times) + Latencies(outs)
    {
      var i := 0;
      while i < |outs|
        invariant 0 <= i <= |outs|
        invariant successes == old(successes) + Successes(outs[..i])
        invariant failures == old(failures) + Failures(outs[..i])
        invariant times == old(times) + Latencies(outs[..i])
      {
        assert outs[..i + 1][..i] == outs[..i];
        Record(outs[i]);
        i := i + 1;
      }
      assert outs[..i] == outs;
    }
  }

  /**
   * A fresh run driven by a sequence of attempts: successes + failures is
   * the number of attempts, and one latency is recorded per attempt that got
   * a response.
   */
  method RunFromScratch(outs: seq<Outcome>) returns (state: RunState)
    ensures state.successes + state.failures == |outs|
    ensures |state.times| == |outs| - TransportErrors(outs)
    ensures state.times == Latencies(outs)
  {
    state := new RunState();
    state.Drive(outs);
    EveryAttemptCounted(outs);
    LatencyPerResponse(outs);
  }
}
