/**
 * Correcting the host clock: one HTTPS round trip, whose Date header is the server's time cut to whole seconds at
 * some moment of the trip. Durations are in nanoseconds, as Go counts them.
 */
module Clock {
  const SECOND := 1_000_000_000
  const CLOCK_SKEW_THRESHOLD := 5 * SECOND
  const CLOCK_PROBE_TIMEOUT := 5 * SECOND

  /** Go's integer division truncates toward zero. */
  function HalfDuration(d: int): int {
    if d >= 0 then d / 2 else -((-d) / 2)
  }

  /** The Date header for this instant of server time. */
  function Header(serverTime: int): int {
    serverTime - serverTime % SECOND
  }

  function MeasuredOffset(before: int, after: int, served: int): int {
    var middle := before + HalfDuration(after - before);
    served + SECOND / 2 - middle
  }

  /** How far the MTProto clock is moved: not at all below the threshold. */
  function Correction(offset: int): int {
    if offset < CLOCK_SKEW_THRESHOLD && offset > -CLOCK_SKEW_THRESHOLD then 0 else offset
  }

  function Abs(x: int): int {
    if x < 0 then -x else x
  }

  /**
   * `skew` is what has to be added to the host clock to get the server's; the header is written when the host clock
   * shows `at`. The measurement is off by at most half a second and half the trip.
   */
  lemma MeasurementError(before: int, at: int, after: int, skew: int)
    requires before <= at <= after && at + skew >= 0
    ensures var measured := MeasuredOffset(before, after, Header(at + skew));
      2 * Abs(measured - skew) <= SECOND + (after - before) + 1
  {
    var r := (at + skew) % SECOND;
    assert 0 <= r < SECOND;
    assert MeasuredOffset(before, after, Header(at + skew)) - skew == (at - before) - HalfDuration(after - before) + SECOND / 2 - r;
  }

  /**
   * With a probe inside its timeout, a host that is right is never corrected, and whatever the host's skew the
   * clock MTProto gets is less than 8 seconds off, well inside the 30 that it tolerates.
   */
  lemma ResidualSkew(before: int, at: int, after: int, skew: int)
    requires before <= at <= after <= before + CLOCK_PROBE_TIMEOUT && at + skew >= 0
    ensures var correction := Correction(MeasuredOffset(before, after, Header(at + skew)));
      && (skew == 0 ==> correction == 0)
      && Abs(skew - correction) < 8 * SECOND
      && (correction != 0 ==> Abs(skew - correction) <= 3 * SECOND)
  {
    MeasurementError(before, at, after, skew);
  }

  /**
   * The clock is moved whenever the host is wrong by 8 seconds or more, and never when it is wrong by less than 2: the
   * threshold with and without the largest error of a measurement. Between the two either can happen.
   */
  lemma CorrectedWhenWrong(before: int, at: int, after: int, skew: int)
    requires before <= at <= after <= before + CLOCK_PROBE_TIMEOUT && at + skew >= 0
    ensures var correction := Correction(MeasuredOffset(before, after, Header(at + skew)));
      && (Abs(skew) >= 8 * SECOND ==> correction != 0)
      && (Abs(skew) < 2 * SECOND ==> correction == 0)
  {
    MeasurementError(before, at, after, skew);
  }
}
