/** The retry delay table of the webhook dispatcher (`computeNextAttempt`). */
module Backoff {

  /** Delays in seconds, indexed by attempt number and clamped to the last entry. */
  const Schedule: seq<nat> := [5, 15, 60, 300, 900, 3600, 21600, 86400]

  /** The delay before the next attempt, for an attempt number `attempt`. */
  function ComputeNextAttempt(attempt: nat): (delay: nat)
    ensures delay in Schedule
    ensures 5 <= delay <= 86400
    ensures attempt >= |Schedule| - 1 ==> delay == 86400
  {
    Schedule[if attempt < |Schedule| - 1 then attempt else |Schedule| - 1]
  }

  /** The table entry by entry: 5, 15, 60, 300, 900, 3600, 21600, then 86400 from attempt 7 on. */
  lemma ScheduleValues(attempt: nat)
    ensures attempt == 0 ==> ComputeNextAttempt(attempt) == 5
    ensures attempt == 1 ==> ComputeNextAttempt(attempt) == 15
    ensures attempt == 2 ==> ComputeNextAttempt(attempt) == 60
    ensures attempt == 3 ==> ComputeNextAttempt(attempt) == 300
    ensures attempt == 4 ==> ComputeNextAttempt(attempt) == 900
    ensures attempt == 5 ==> ComputeNextAttempt(attempt) == 3600
    ensures attempt == 6 ==> ComputeNextAttempt(attempt) == 21600
    ensures attempt >= 7 ==> ComputeNextAttempt(attempt) == 86400
  {
  }

  /** A later attempt never waits less than an earlier one. */
  lemma NextAttemptMonotone(a: nat, b: nat)
    requires a <= b
    ensures ComputeNextAttempt(a) <= ComputeNextAttempt(b)
  {
    ScheduleValues(a);
    ScheduleValues(b);
  }

  /**
   * The dispatcher asks for the delay of attempt `attempt_count + 1`, so every
   * retry it schedules waits at least 15 seconds: the 5-second entry is never used.
   */
  lemma RetryDelayNeverFirstEntry(attemptCount: nat)
    ensures ComputeNextAttempt(attemptCount + 1) >= 15
    ensures ComputeNextAttempt(attemptCount + 1) != Schedule[0]
  {
    ScheduleValues(attemptCount + 1);
  }
}
