/**
 * The motion detector of camera_detect_motion: the sum of absolute byte
 * differences between two greyscale frames, divided (in integers) by the
 * frame area and compared with the caller's threshold by a strict `>`.
 */
module Motion {
  import opened CText

  /** What camera_detect_motion reports: -1, 0, 1, or behaviour the C code leaves undefined. */
  datatype Verdict =
    | CaptureFailed   // returns -1: an ioctl of the capture cycle failed
    | Still           // returns 0
    | Moved           // returns 1
    | Undefined       // out-of-range read, division by zero or `int` overflow

  /** `diff = first - second; diff > 0 ? diff : (-1 * diff)` */
  function AbsDiff(a: byte, b: byte): (d: nat)
    ensures d <= 255
    ensures d == 0 <==> a == b
    ensures d == AbsDiffOf(b, a)
  {
    var diff: int := a as int - b as int;
    if diff > 0 then diff else -1 * diff
  }

  /** The same distance written the other way round, as a reference. */
  function AbsDiffOf(a: byte, b: byte): nat
  {
    if a >= b then a - b else b - a
  }

  /** The value of `sum_diff` once the first `n` pixels have been visited. */
  function DiffSum(first: seq<byte>, second: seq<byte>, n: nat): int
    requires n <= |first| && n <= |second|
  {
    if n == 0 then 0 else DiffSum(first, second, n - 1) + AbsDiff(first[n - 1], second[n - 1])
  }

  /** The sum does not depend on which frame is called first. */
  lemma {:induction false} DiffSumSymmetric(first: seq<byte>, second: seq<byte>, n: nat)
    requires n <= |first| && n <= |second|
    ensures DiffSum(first, second, n) == DiffSum(second, first, n)
  {
    if n > 0 {
      DiffSumSymmetric(first, second, n - 1);
    }
  }

  /** Each pixel adds between 0 and 255, so the sum lies in [0, 255 * n]. */
  lemma {:induction false} DiffSumBounds(first: seq<byte>, second: seq<byte>, n: nat)
    requires n <= |first| && n <= |second|
    ensures 0 <= DiffSum(first, second, n) <= 255 * n
  {
    if n > 0 {
      DiffSumBounds(first, second, n - 1);
    }
  }

  /** The sum is zero exactly when the two frames agree on the visited pixels. */
  lemma {:induction false} DiffSumZeroIff(first: seq<byte>, second: seq<byte>, n: nat)
    requires n <= |first| && n <= |second|
    ensures DiffSum(first, second, n) == 0 <==> first[..n] == second[..n]
  {
    if n > 0 {
      DiffSumZeroIff(first, second, n - 1);
      DiffSumBounds(first, second, n - 1);
      assert first[..n] == first[..n - 1] + [first[n - 1]];
      assert second[..n] == second[..n - 1] + [second[n - 1]];
      if first[..n] == second[..n] {
        assert first[..n - 1] == first[..n][..n - 1];
        assert second[..n - 1] == second[..n][..n - 1];
        assert first[n - 1] == first[..n][n - 1];
      }
    }
  }

  /** The accumulator loop of camera_detect_motion over `n` pixels. */
  method SumAbsDiff(first: seq<byte>, second: seq<byte>, n: nat) returns (sum: int)
    requires n <= |first| && n <= |second|
    ensures sum == DiffSum(first, second, n)
  {
    sum := 0;
    for pixel := 0 to n
      invariant sum == DiffSum(first, second, pixel)
    {
      var diff: int := first[pixel] as int - second[pixel] as int;
      sum := sum + (if diff > 0 then diff else -1 * diff);
    }
  }

  /**
   * `(sum_diff / area) > threshold` on the frames' first `n` bytes: Undefined
   * when a frame is shorter than `n`, when the area is 0, or when the `int`
   * accumulator would pass INT_MAX.
   */
  function Judge(first: seq<byte>, second: seq<byte>, n: nat, area: nat, threshold: byte): (v: Verdict)
    ensures v != CaptureFailed
  {
    if n > |first| || n > |second| || area == 0 then Undefined
    else
      var sum := DiffSum(first, second, n);
      if sum > INT_MAX then Undefined
      else if sum / area > threshold then Moved
      else Still
  }

  /**
   * Integer division and the strict `>`: motion is reported exactly when the
   * sum reaches (threshold + 1) times the area; a quotient equal to the
   * threshold is no motion.
   */
  lemma ExceedsIff(sum: nat, area: nat, threshold: nat)
    requires area > 0
    ensures sum / area > threshold <==> sum >= (threshold + 1) * area
  {
    var q, r := sum / area, sum % area;
    assert sum == q * area + r && 0 <= r < area;
    if q > threshold {
      MulMonotone(threshold + 1, q, area);
      assert q * area <= sum;
    } else {
      MulMonotone(q + 1, threshold + 1, area);
      assert (q + 1) * area == q * area + area;
      assert sum < (q + 1) * area;
    }
  }

  /** Multiplying by the same non-negative factor keeps the order. */
  lemma MulMonotone(a: nat, b: nat, c: nat)
    requires a <= b
    ensures a * c <= b * c
  {
    assert b * c == a * c + (b - a) * c;
  }

  /** Swapping the two frames never changes the verdict. */
  lemma JudgeSymmetric(first: seq<byte>, second: seq<byte>, n: nat, area: nat, threshold: byte)
    ensures Judge(first, second, n, area, threshold) == Judge(second, first, n, area, threshold)
  {
    if n <= |first| && n <= |second| {
      DiffSumSymmetric(first, second, n);
    }
  }

  /** Two frames that agree on the compared bytes never show motion. */
  lemma JudgeIdentical(first: seq<byte>, second: seq<byte>, n: nat, area: nat, threshold: byte)
    requires n <= |first| && n <= |second| && area > 0
    requires first[..n] == second[..n]
    ensures Judge(first, second, n, area, threshold) == Still
  {
    DiffSumZeroIff(first, second, n);
  }

  /**
   * For frames of at most INT_MAX / 255 bytes (a 640x480 greyscale frame is
   * 307200) the accumulator cannot overflow, and the verdict is the threshold
   * test on the exact sum.
   */
  lemma JudgeDefined(first: seq<byte>, second: seq<byte>, n: nat, area: nat, threshold: byte)
    requires n <= |first| && n <= |second| && area > 0
    requires 255 * n <= INT_MAX
    ensures Judge(first, second, n, area, threshold) == Moved <==>
              DiffSum(first, second, n) >= (threshold + 1) * area
    ensures Judge(first, second, n, area, threshold) != Undefined
  {
    DiffSumBounds(first, second, n);
    ExceedsIff(DiffSum(first, second, n), area, threshold);
  }
}
