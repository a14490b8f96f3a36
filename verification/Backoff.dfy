/** The retry delays shared by the Go worker and the Python worker. */
module Backoff {

  /** Seconds to wait after failed attempt 1, 2, 3 and 4. */
  const BACKOFF: seq<int> := [0, 10, 30, 60]

  /** The Go worker's table lookup; -1 when the table is exhausted. */
  function NextRetryDelay(attempt: int): (delay: int)
  {
    var idx := attempt - 1;
    if idx < 0 || idx >= |BACKOFF| then -1 else BACKOFF[idx]
  }

  /** What `finalizeFailure` waits: an exhausted table means no wait. */
  function GoDelay(attempt: int): (delay: int)
    ensures 0 <= delay <= 60
  {
    var delay := NextRetryDelay(attempt);
    if delay < 0 then 0 else delay
  }

  /** The Python lookup: the jitter factor multiplies a positive base and the product is truncated;
      an exhausted table (`None or 0`) means no wait. */
  function PythonDelay(attempt: int, jitter: real): (delay: int)
  {
    var idx := attempt - 1;
    if idx < 0 || idx >= |BACKOFF| then 0
    else if BACKOFF[idx] > 0 then (BACKOFF[idx] as real * jitter).Floor
    else BACKOFF[idx]
  }

  /** Total Go backoff spent on the failed attempts 1..failures that were followed by a retry. */
  function GoTotal(failures: nat): (total: int)
  {
    if failures == 0 then 0 else GoTotal(failures - 1) + GoDelay(failures)
  }

  /** The same total for the Python worker, with one jitter factor per attempt. */
  function PythonTotal(jitters: seq<real>): (total: int)
  {
    if jitters == [] then 0
    else PythonTotal(jitters[..|jitters| - 1]) + PythonDelay(|jitters|, jitters[|jitters| - 1])
  }

  /** Every total is the prefix sum 0, 10, 40, 100 of the table and stays at 100 from there on. */
  lemma {:induction false} GoTotalIsPrefixSum(failures: nat)
    ensures GoTotal(failures) ==
            if failures <= 1 then 0 else if failures == 2 then 10 else if failures == 3 then 40 else 100
    ensures 0 <= GoTotal(failures) <= 100
  {
    if failures > 0 {
      GoTotalIsPrefixSum(failures - 1);
    }
  }

  /** The delays one by one: 10, 30 and 60 seconds times the jitter, cut to whole seconds, and otherwise none. */
  lemma DelaysAre(attempt: int, jitter: real)
    ensures GoDelay(attempt) ==
            if attempt == 2 then 10 else if attempt == 3 then 30 else if attempt == 4 then 60 else 0
    ensures attempt == 2 ==> 10.0 * jitter - 1.0 < PythonDelay(attempt, jitter) as real <= 10.0 * jitter
    ensures attempt == 3 ==> 30.0 * jitter - 1.0 < PythonDelay(attempt, jitter) as real <= 30.0 * jitter
    ensures attempt == 4 ==> 60.0 * jitter - 1.0 < PythonDelay(attempt, jitter) as real <= 60.0 * jitter
    ensures attempt < 2 || attempt > 4 ==> PythonDelay(attempt, jitter) == 0
  {
    if 2 <= attempt <= 4 {
      var base := BACKOFF[attempt - 1];
      assert PythonDelay(attempt, jitter) == (base as real * jitter).Floor;
      assert (base as real * jitter).Floor as real <= base as real * jitter < (base as real * jitter).Floor as real + 1.0;
    }
  }

  lemma DelayWithinJitter(attempt: int, jitter: real)
    requires 0.8 <= jitter <= 1.2
    ensures 0.8 * GoDelay(attempt) as real <= PythonDelay(attempt, jitter) as real <= 1.2 * GoDelay(attempt) as real
  {
    if attempt == 2 {
      assert PythonDelay(attempt, jitter) == (10.0 * jitter).Floor;
      FloorWithin(10.0 * jitter, 8, 12);
    } else if attempt == 3 {
      assert PythonDelay(attempt, jitter) == (30.0 * jitter).Floor;
      FloorWithin(30.0 * jitter, 24, 36);
    } else if attempt == 4 {
      assert PythonDelay(attempt, jitter) == (60.0 * jitter).Floor;
      FloorWithin(60.0 * jitter, 48, 72);
    }
  }

  lemma FloorWithin(x: real, low: int, high: int)
    requires low as real <= x <= high as real
    ensures low <= x.Floor <= high
  {
    assert x.Floor as real <= x < x.Floor as real + 1.0;
  }

  /** The jittered total of any run of failures stays within 0.8 and 1.2 of the Go total; whole-second
      truncation costs nothing because 0.8 of every table entry is a whole number. */
  lemma {:induction false} PythonTotalWithinJitter(jitters: seq<real>)
    requires forall i :: 0 <= i < |jitters| ==> 0.8 <= jitters[i] <= 1.2
    ensures 0.8 * GoTotal(|jitters|) as real <= PythonTotal(jitters) as real <= 1.2 * GoTotal(|jitters|) as real
  {
    if jitters != [] {
      var last := |jitters| - 1;
      PythonTotalWithinJitter(jitters[..last]);
      DelayWithinJitter(|jitters|, jitters[last]);
    }
  }
}
