/** Timed pointer paths: the exact integer sample clock of a linear drag, and its lazy iterator. */
module Motion {
  import opened Common

  const SECOND: nat := 1_000_000_000
  /** Longest time between two samples at sixty per second, in nanoseconds. */
  const MAX_GAP: nat := 16_666_667
  const USIZE_MAX: nat := 0xFFFF_FFFF_FFFF_FFFF

  datatype Position = Position(x: real, y: real)
  datatype Sample = Sample(at: nat, position: Position)

  function CeilDiv(a: nat, b: nat): (q: nat)
    requires b > 0
    ensures (q - 1) * b < a <= q * b
  {
    (a + b - 1) / b
  }

  /** Whole seconds and the fraction are counted separately, as the program does. */
  function SampleCount(duration: nat): (n: nat)
    ensures n >= 1
  {
    var n := duration / SECOND * 60 + CeilDiv(duration % SECOND * 60, SECOND);
    if n < 1 then 1 else n
  }

  /** Time of the k-th sample (counting from one). */
  function SampleTime(duration: nat, k: nat): nat {
    if k == SampleCount(duration) then duration else k / 60 * SECOND + k % 60 * SECOND / 60
  }

  function SampleOf(start: Position, end: Position, duration: nat, k: nat): Sample
    requires 1 <= k <= SampleCount(duration)
  {
    if k == SampleCount(duration) then Sample(duration, end)
    else
      CountIsCeiling(duration);
      var at := SampleTime(duration, k);
      var t := at as real / duration as real;
      Sample(at, Position(start.x * (1.0 - t) + end.x * t, start.y * (1.0 - t) + end.y * t))
  }

  /** The split computation is the exact ceiling of sixty times the duration in seconds. */
  lemma CountIsCeiling(duration: nat)
    ensures duration > 0 ==> SampleCount(duration) == CeilDiv(duration * 60, SECOND)
    ensures duration > 0 ==> (SampleCount(duration) - 1) * SECOND < duration * 60 <= SampleCount(duration) * SECOND
    ensures duration == 0 ==> SampleCount(duration) == 1
  {
    var s, f := duration / SECOND, duration % SECOND;
    assert duration == s * SECOND + f;
    var c := CeilDiv(f * 60, SECOND);
    assert (c - 1) * SECOND < f * 60 <= c * SECOND;
    assert (s * 60 + c - 1) * SECOND < duration * 60 <= (s * 60 + c) * SECOND;
    if duration > 0 {
      var q := CeilDiv(duration * 60, SECOND);
      assert (q - 1) * SECOND < duration * 60 <= q * SECOND;
      assert q == s * 60 + c;
    }
  }

  /** An interior sample time is the floor of k sixtieths of a second. */
  lemma TimeIsFloor(duration: nat, k: nat)
    requires k != SampleCount(duration)
    ensures SampleTime(duration, k) == k * SECOND / 60
    ensures 60 * SampleTime(duration, k) <= k * SECOND < 60 * SampleTime(duration, k) + 60
  {
    var q, r := k / 60, k % 60;
    assert k == q * 60 + r;
    assert k * SECOND == q * SECOND * 60 + r * SECOND;
  }

  /** Times strictly increase, interior ones lie strictly inside the duration, and no gap exceeds a
      sixtieth of a second rounded up; the last sample is at the full duration. */
  lemma SampleClock(duration: nat, k: nat)
    requires k < SampleCount(duration)
    ensures k > 0 || duration > 0 ==> SampleTime(duration, k) < SampleTime(duration, k + 1)
    ensures k > 0 ==> SampleTime(duration, k) < duration
    ensures SampleTime(duration, k + 1) - SampleTime(duration, k) <= MAX_GAP
    ensures SampleTime(duration, 0) == 0 && SampleTime(duration, SampleCount(duration)) == duration
  {
    CountIsCeiling(duration);
    TimeIsFloor(duration, k);
    if k + 1 < SampleCount(duration) {
      TimeIsFloor(duration, k + 1);
    }
  }

  /** Over a whole path: strictly increasing times, all but the last strictly inside the duration, no
      gap above the bound, and the exact end point last. A zero duration gives that end point alone. */
  lemma PathIsAClock(start: Position, end: Position, duration: nat)
    ensures var path := Path(start, end, duration, 0);
            && |path| == (if duration == 0 then 1 else CeilDiv(duration * 60, SECOND))
            && path[|path| - 1] == Sample(duration, end)
            && (forall i, j :: 0 <= i < j < |path| ==> path[i].at < path[j].at)
            && (forall i :: 0 <= i < |path| - 1 ==> path[i].at < duration && path[i + 1].at - path[i].at <= MAX_GAP)
            && path[0].at <= MAX_GAP
  {
    CountIsCeiling(duration);
    var path := Path(start, end, duration, 0);
    forall i, j | 0 <= i < j < |path| ensures path[i].at < path[j].at {
      TimesIncrease(duration, i + 1, j + 1);
    }
    forall i | 0 <= i < |path| - 1 ensures path[i].at < duration && path[i + 1].at - path[i].at <= MAX_GAP {
      SampleClock(duration, i + 1);
    }
    SampleClock(duration, 0);
  }

  lemma {:induction false} TimesIncrease(duration: nat, i: nat, j: nat)
    requires 0 < i < j <= SampleCount(duration)
    ensures SampleTime(duration, i) < SampleTime(duration, j)
    decreases j
  {
    SampleClock(duration, j - 1);
    if i < j - 1 {
      TimesIncrease(duration, i, j - 1);
    }
  }

  ghost predicate OnSegment(start: Position, end: Position, p: Position, t: real) {
    0.0 <= t <= 1.0 && p.x == start.x * (1.0 - t) + end.x * t && p.y == start.y * (1.0 - t) + end.y * t
  }

  /** Every position is on the segment between the ends, at its share of the time. */
  lemma PositionsOnSegment(start: Position, end: Position, duration: nat, k: nat)
    requires 1 <= k <= SampleCount(duration) && duration > 0
    ensures var s := SampleOf(start, end, duration, k);
            OnSegment(start, end, s.position, s.at as real / duration as real)
  {
    SampleClock(duration, k - 1);
    if k < SampleCount(duration) {
      SampleClock(duration, k);
    }
    ShareOfTime(SampleTime(duration, k), duration);
    hide SampleTime, SampleCount;
  }

  lemma ShareOfTime(at: nat, duration: nat)
    requires at <= duration && duration > 0
    ensures 0.0 <= at as real / duration as real <= 1.0
    ensures at == duration ==> at as real / duration as real == 1.0
  {
  }

  /** The samples an iterator at this point has still to give. */
  ghost function Path(start: Position, end: Position, duration: nat, sample: nat): (path: seq<Sample>)
    requires sample <= SampleCount(duration)
    ensures |path| == SampleCount(duration) - sample
    ensures forall i :: 0 <= i < |path| ==> path[i] == SampleOf(start, end, duration, sample + 1 + i)
  {
    seq(SampleCount(duration) - sample,
        i requires 0 <= i < SampleCount(duration) - sample => SampleOf(start, end, duration, sample + 1 + i))
  }

  class TimedLinear {
    const start: Position
    const end: Position
    const duration: nat
    const samples: nat
    var sample: nat

    ghost predicate Valid()
      reads this
    {
      samples == SampleCount(duration) && sample <= samples
    }

    ghost function Remaining(): seq<Sample>
      reads this
      requires Valid()
    {
      Path(start, end, duration, sample)
    }

    constructor (start: Position, end: Position, duration: nat)
      ensures Valid() && Remaining() == Path(start, end, duration, 0)
    {
      this.start, this.end, this.duration := start, end, duration;
      samples := SampleCount(duration);
      sample := 0;
    }

    method Next() returns (r: Option<Sample>)
      requires Valid()
      modifies this
      ensures Valid()
      ensures if old(Remaining()) == [] then r == None && Remaining() == []
              else r == Some(old(Remaining())[0]) && Remaining() == old(Remaining())[1..]
    {
      hide SampleOf, SampleCount;
      if sample == samples {
        return None;
      }
      sample := sample + 1;
      return Some(SampleOf(start, end, duration, sample));
    }

    /** Skipping ahead gives what repeated `Next` would. */
    method Nth(n: nat) returns (r: Option<Sample>)
      requires Valid()
      modifies this
      ensures Valid()
      ensures if n < |old(Remaining())| then r == Some(old(Remaining())[n]) && Remaining() == old(Remaining())[n + 1..]
              else r == None && Remaining() == []
    {
      hide SampleOf, SampleCount;
      sample := if sample + n < samples then sample + n else samples;
      r := Next();
    }

    method Last() returns (r: Option<Sample>)
      requires Valid()
      modifies this
      ensures Valid() && Remaining() == []
      ensures var left := old(Remaining()); r == if left == [] then None else Some(left[|left| - 1])
    {
      hide SampleOf, SampleCount;
      if sample == samples {
        return None;
      }
      sample := samples - 1;
      r := Next();
    }

    method SizeHint() returns (lower: nat, upper: Option<nat>)
      requires Valid()
      ensures lower <= |Remaining()| && lower <= USIZE_MAX
      ensures upper == (if |Remaining()| <= USIZE_MAX then Some(|Remaining()|) else None)
      ensures upper.Some? ==> lower == upper.value
    {
      var left := samples - sample;
      if left <= USIZE_MAX {
        return left, Some(left);
      }
      return USIZE_MAX, None;
    }
  }
}
