/**
 * The local progress-tracking plan: four review checkpoints spread over the
 * study period, and a fixed list of metrics to track.
 */
module Progress {
  import opened Numerals

  const Assessment := "Quiz + practical exercise"

  const TrackingMetrics := [
    "Daily session completion",
    "Topic understanding scores",
    "Practice problem accuracy"
  ]

  const CheckpointCount := 4

  datatype Checkpoint = Checkpoint(day: int, checkpoint: string, assessment: string)

  datatype ProgressTracking = ProgressTracking(
    checkpointSchedule: seq<Checkpoint>,
    trackingMetrics: seq<string>)

  function Max(a: int, b: int): int { if a >= b then a else b }

  function Min(a: int, b: int): int { if a <= b then a else b }

  /**
   * `max(7, d // 4)`: the spacing between checkpoints. Python's `//` floors, and so
   * does Dafny's `/` when the divisor is positive, so negative durations agree too.
   */
  function Interval(durationDays: int): (r: int)
    ensures r >= 7
    ensures durationDays >= 28 ==> r == durationDays / 4
    ensures durationDays < 32 ==> r == 7
  {
    Max(7, durationDays / 4)
  }

  /** The day of checkpoint `i` (counted from 1): the `i`-th interval, capped at the last day. */
  function CheckpointDay(durationDays: int, i: int): int {
    Min(durationDays, i * Interval(durationDays))
  }

  /** The checkpoint `i` as the source builds it: `f"Review Week {i}"`. */
  function CheckpointAt(durationDays: int, i: nat): Checkpoint {
    Checkpoint(CheckpointDay(durationDays, i), "Review Week " + NatToString(i), Assessment)
  }

  /** The progress-tracking structure the loop below builds, written as a value. */
  function PlannedTracking(durationDays: int): ProgressTracking {
    ProgressTracking(
      seq(CheckpointCount, k requires 0 <= k < CheckpointCount => CheckpointAt(durationDays, k + 1)),
      TrackingMetrics)
  }

  /**
   * The progress-tracking structure for a study period of `durationDays` days,
   * stated as a loop over `i` in 1..4 that appends one checkpoint per turn.
   */
  method GenerateProgressTracking(durationDays: int) returns (r: ProgressTracking)
    ensures |r.checkpointSchedule| == CheckpointCount
    ensures forall k :: 0 <= k < CheckpointCount ==> r.checkpointSchedule[k] == CheckpointAt(durationDays, k + 1)
    ensures forall k :: 0 <= k < CheckpointCount ==> r.checkpointSchedule[k].day <= durationDays
    ensures forall j, k :: 0 <= j <= k < CheckpointCount ==>
              r.checkpointSchedule[j].day <= r.checkpointSchedule[k].day
    ensures r.trackingMetrics == TrackingMetrics
    ensures r == PlannedTracking(durationDays)
  {
    var checkpoints: seq<Checkpoint> := [];
    var interval := Max(7, durationDays / 4);
    for i := 1 to CheckpointCount + 1
      invariant |checkpoints| == i - 1
      invariant forall k :: 0 <= k < i - 1 ==> checkpoints[k] == CheckpointAt(durationDays, k + 1)
    {
      var day := Min(durationDays, i * interval);
      checkpoints := checkpoints + [Checkpoint(day, "Review Week " + NatToString(i), Assessment)];
    }
    r := ProgressTracking(checkpoints, TrackingMetrics);
    forall j, k | 0 <= j <= k < CheckpointCount
      ensures r.checkpointSchedule[j].day <= r.checkpointSchedule[k].day
    {
      CheckpointDaysMonotone(durationDays, j + 1, k + 1);
    }
  }

  /** No checkpoint falls after the last day of the study period. */
  lemma CheckpointDayBounded(durationDays: int, i: int)
    ensures CheckpointDay(durationDays, i) <= durationDays
  {
  }

  /** Later checkpoints never come earlier. */
  lemma CheckpointDaysMonotone(durationDays: int, i: int, j: int)
    requires 1 <= i <= j
    ensures CheckpointDay(durationDays, i) <= CheckpointDay(durationDays, j)
  {
    var n := Interval(durationDays);
    MultiplyMonotone(i, j, n);
  }

  lemma MultiplyMonotone(i: int, j: int, n: int)
    requires i <= j && n >= 0
    ensures i * n <= j * n
  {
    assert j * n - i * n == (j - i) * n;
  }

  /**
   * From 22 days on the four checkpoints fall on distinct days: below 28 days
   * they are days 7, 14, 21 and the last day, and from 28 days on they are
   * multiples of a quarter of the period.
   */
  lemma {:induction false} CheckpointDaysStrictlyIncrease(durationDays: int, i: int, j: int)
    requires durationDays >= 22
    requires 1 <= i < j <= CheckpointCount
    ensures CheckpointDay(durationDays, i) < CheckpointDay(durationDays, j)
  {
    if durationDays < 28 {
      assert Interval(durationDays) == 7;
      MultiplyMonotone(j, CheckpointCount, 7);
      MultiplyMonotone(i, j - 1, 7);
      return;
    }
    var n := durationDays / 4;
    assert 4 * n <= durationDays;
    MultiplyMonotone(j, CheckpointCount, n);
    assert j * n <= durationDays;
    MultiplyMonotone(i, j - 1, n);
    assert i * n < j * n;
  }

  /**
   * 22 days is exactly the threshold: below it the third and fourth checkpoints
   * both fall on the last day.
   */
  lemma CheckpointsDistinctIff(durationDays: int)
    ensures (forall i, j :: 1 <= i < j <= CheckpointCount ==>
               CheckpointDay(durationDays, i) < CheckpointDay(durationDays, j))
            <==> durationDays >= 22
  {
    if durationDays >= 22 {
      forall i, j | 1 <= i < j <= CheckpointCount
        ensures CheckpointDay(durationDays, i) < CheckpointDay(durationDays, j)
      {
        CheckpointDaysStrictlyIncrease(durationDays, i, j);
      }
    } else {
      assert CheckpointDay(durationDays, 3) == CheckpointDay(durationDays, 4);
    }
  }

  /** The last checkpoint comes within three days of the end of the period. */
  lemma LastCheckpointNearEnd(durationDays: int)
    ensures durationDays - 3 <= CheckpointDay(durationDays, CheckpointCount) <= durationDays
    ensures durationDays <= 28 ==> CheckpointDay(durationDays, CheckpointCount) == durationDays
  {
  }

  /**
   * For a period of at least one day the first checkpoint lies within the period,
   * and below 32 days it falls on day 7, or on the last day when that comes sooner.
   */
  lemma FirstCheckpointInRange(durationDays: int)
    requires durationDays >= 1
    ensures 1 <= CheckpointDay(durationDays, 1) <= durationDays
    ensures durationDays < 32 ==> CheckpointDay(durationDays, 1) == Min(durationDays, 7)
  {
  }

  /** With no days at all, or a negative count, every checkpoint sits on that same day. */
  lemma NonPositivePeriodCollapses(durationDays: int, i: int)
    requires durationDays <= 0 && i >= 1
    ensures CheckpointDay(durationDays, i) == durationDays
  {
    MultiplyMonotone(0, i, 7);
  }

  /** The four checkpoint labels are pairwise different. */
  lemma CheckpointLabelsDistinct(durationDays: int, i: nat, j: nat)
    requires i != j
    ensures CheckpointAt(durationDays, i).checkpoint != CheckpointAt(durationDays, j).checkpoint
  {
    var p := "Review Week ";
    if CheckpointAt(durationDays, i).checkpoint == CheckpointAt(durationDays, j).checkpoint {
      assert (p + NatToString(i))[|p|..] == NatToString(i);
      assert (p + NatToString(j))[|p|..] == NatToString(j);
      NatToStringInjective(i, j);
    }
  }
}
