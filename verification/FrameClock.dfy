/**
 Predicting the next presentation, in whole nanoseconds.
 */
module FrameClock {
  import opened Arithmetic
  import opened Options

  class FrameClock {
    var lastPresentation: Option<nat>
    const refreshInterval: Option<nat>
    var vrr: bool

    ghost predicate Valid()
      reads this
    {
      refreshInterval.Some? ==> refreshInterval.value > 0
    }

    constructor (refreshInterval: Option<nat>, vrr: bool)
      requires refreshInterval.Some? ==> IsInterval(refreshInterval.value)
      ensures Valid() && lastPresentation == None && this.refreshInterval == refreshInterval && this.vrr == vrr
    {
      this.refreshInterval := refreshInterval;
      this.vrr := vrr;
      lastPresentation := None;
    }

    method SetVrr(vrr: bool)
      modifies this
      ensures this.vrr == vrr
      ensures lastPresentation == if vrr == old(this.vrr) then old(lastPresentation) else None
    {
      if this.vrr == vrr {
        return;
      }
      this.vrr := vrr;
      lastPresentation := None;
    }

    method Presented(time: nat)
      modifies this`lastPresentation
      ensures lastPresentation == if time == 0 then old(lastPresentation) else Some(time)
    {
      if time == 0 {
        return;
      }
      lastPresentation := Some(time);
    }

    method NextPresentationTime(now: nat) returns (time: nat)
      requires Valid()
      ensures refreshInterval.None? || lastPresentation.None? ==> time == now
      ensures refreshInterval.Some? && lastPresentation.Some? ==>
                time == Next(lastPresentation.value, refreshInterval.value, vrr, now)
    {
      var adjusted := now;
      if refreshInterval.None? {
        return now;
      }
      if lastPresentation.None? {
        return now;
      }
      var interval, last := refreshInterval.value, lastPresentation.value;
      if adjusted <= last {
        adjusted := adjusted + interval;
        if adjusted < last {
          adjusted := last + interval;
        }
      }
      var sinceLast := adjusted - last;
      var toNext := (sinceLast / interval + 1) * interval;
      if vrr && toNext > interval {
        time := adjusted;
      } else {
        time := last + toNext;
      }
    }
  }

  // What a clock accepts: below a second and not zero.
  predicate IsInterval(interval: nat) {
    0 < interval < 1_000_000_000
  }

  // An early vblank counts as one interval later, or as one interval after the last presentation.
  function Adjusted(last: nat, interval: nat, now: nat): (adjusted: nat)
    ensures interval > 0 ==> adjusted >= now && adjusted >= last
  {
    if now > last then now
    else if now + interval < last then last + interval
    else now + interval
  }

  function Next(last: nat, interval: nat, vrr: bool, now: nat): nat
    requires interval > 0
  {
    var adjusted := Adjusted(last, interval, now);
    var toNext := ((adjusted - last) / interval + 1) * interval;
    if vrr && toNext > interval then adjusted else last + toNext
  }

  // Never in the past, and never at or before the last presentation.
  lemma NextIsAhead(last: nat, interval: nat, vrr: bool, now: nat)
    requires interval > 0
    ensures Next(last, interval, vrr, now) >= now
    ensures Next(last, interval, vrr, now) > last
  {
    var adjusted := Adjusted(last, interval, now);
    var q := (adjusted - last) / interval;
    DivisionBounds(adjusted - last, interval);
    MulMonotone(1, q + 1, interval);
  }

  // With a fixed rate the result is on the grid of presentations, and for a time after the last
  // one it is the first grid point after that time.
  lemma NextIsTheNextGridPoint(last: nat, interval: nat, now: nat)
    requires interval > 0 && now > last
    ensures exists k: nat :: k >= 1 && Next(last, interval, false, now) == last + k * interval
    ensures Next(last, interval, false, now) > now
    ensures forall m: nat :: now < last + m * interval ==> Next(last, interval, false, now) <= last + m * interval
  {
    var k := (now - last) / interval + 1;
    assert Next(last, interval, false, now) == last + k * interval;
    DivisionBounds(now - last, interval);
    forall m: nat | now < last + m * interval ensures last + k * interval <= last + m * interval {
      GridPointBelow(now - last, interval, m);
      MulMonotone(k, m, interval);
    }
  }

  lemma GridPointBelow(since: nat, interval: nat, m: nat)
    requires interval > 0 && since < m * interval
    ensures since / interval < m
  {
    DivisionBounds(since, interval);
    if m <= since / interval {
      MulMonotone(m, since / interval, interval);
    }
  }

  // After an early vblank the result is one or two intervals after the last presentation.
  lemma NextAfterEarlyVBlank(last: nat, interval: nat, now: nat)
    requires interval > 0 && now <= last
    ensures Next(last, interval, false, now) ==
            last + (if now == last || now + interval < last then 2 else 1) * interval
  {
    var adjusted := Adjusted(last, interval, now);
    if now == last || now + interval < last {
      assert adjusted - last == interval;
      QuotientIs(interval, interval, 1);
    } else {
      QuotientIs(adjusted - last, interval, 0);
    }
  }

  // With a variable rate the compositor presents at once when a whole interval has passed since the
  // last presentation, and one interval after it otherwise, early vblanks included.
  lemma VariableRate(last: nat, interval: nat, now: nat)
    requires interval > 0
    ensures Next(last, interval, true, now) == if now >= last + interval then now else last + interval
  {
    var since := Adjusted(last, interval, now) - last;
    if since < interval {
      QuotientIs(since, interval, 0);
    } else {
      assert since / interval >= 1 by { DivisionBounds(since, interval); }
      MulMonotone(2, since / interval + 1, interval);
    }
  }

  // A vblank so early, or so exactly on time, that the prediction skips an interval.
  predicate Skips(last: nat, interval: nat, now: nat) {
    now == last || now + interval < last
  }

  // The prediction is monotone in time with a variable rate. With a fixed rate it steps back exactly
  // from a time that skips an interval to one that does not and is before the skipped point.
  lemma MonotoneExactlyWhen(last: nat, interval: nat, vrr: bool, now: nat, later: nat)
    requires interval > 0 && now <= later
    ensures Next(last, interval, vrr, now) <= Next(last, interval, vrr, later) <==>
            vrr || !(Skips(last, interval, now) && !Skips(last, interval, later) && later < last + interval)
  {
    if vrr {
      VariableRate(last, interval, now);
      VariableRate(last, interval, later);
    } else if now > last {
      NextIsTheNextGridPoint(last, interval, later);
      NextIsTheNextGridPoint(last, interval, now);
      var k: nat :| Next(last, interval, false, later) == last + k * interval;
      assert now < last + k * interval;
    } else {
      NextAfterEarlyVBlank(last, interval, now);
      if later <= last {
        NextAfterEarlyVBlank(last, interval, later);
      } else {
        NextAfter(last, interval, later);
      }
    }
  }

  lemma NextAfter(last: nat, interval: nat, now: nat)
    requires interval > 0 && now > last
    ensures now < last + interval ==> Next(last, interval, false, now) == last + interval
    ensures now >= last + interval ==> Next(last, interval, false, now) >= last + 2 * interval
  {
    var since := now - last;
    if since < interval {
      QuotientIs(since, interval, 0);
    } else {
      assert since / interval >= 1 by { DivisionBounds(since, interval); }
      MulMonotone(2, since / interval + 1, interval);
    }
  }

  // It does step back: at the very time of the last presentation it is one interval later than just
  // after it.
  lemma NextIsNotMonotone(last: nat, interval: nat)
    requires interval > 1
    ensures Next(last, interval, false, last) == last + 2 * interval
    ensures Next(last, interval, false, last + 1) == last + interval
  {
    QuotientIs(interval, interval, 1);
    QuotientIs(1, interval, 0);
  }

  // --- The interval of a display mode -----------------------------------------------------------

  datatype Mode = Mode(clock: nat, htotal: nat, vtotal: nat, interlaced: bool, doubleScan: bool, vscan: nat)

  // Nanoseconds per frame, as a fraction.
  function Numerator(mode: Mode): nat {
    var single := mode.htotal * mode.vtotal * 1_000_000;
    var scanned := if mode.doubleScan then single * 2 else single;
    if mode.vscan > 1 then scanned * mode.vscan else scanned
  }

  function Denominator(mode: Mode): nat {
    if mode.interlaced then mode.clock * 2 else mode.clock
  }

  // A line takes htotal clock ticks, of which there are `clock` in a millisecond; a frame has vtotal
  // lines, each scanned once for every double scan and vertical scan; interlacing draws half of them.
  lemma FrameTime(mode: Mode)
    ensures var scans := (if mode.doubleScan then 2 else 1) * (if mode.vscan > 1 then mode.vscan else 1);
            var fields := if mode.interlaced then 2 else 1;
            && Numerator(mode) == 1_000_000 * (mode.htotal * mode.vtotal) * scans
            && Denominator(mode) == mode.clock * fields
  {
  }

  // The nearest whole number of nanoseconds; a half is rounded up.
  method RefreshInterval(mode: Mode) returns (interval: nat)
    requires mode.clock > 0
    ensures interval == NearestQuotient(Numerator(mode), Denominator(mode))
    ensures 2 * interval * Denominator(mode) <= 2 * Numerator(mode) + Denominator(mode)
    ensures 2 * Numerator(mode) < 2 * interval * Denominator(mode) + Denominator(mode)
  {
    var numerator := mode.htotal * mode.vtotal * 1_000_000;
    var denominator := mode.clock;
    if mode.interlaced {
      denominator := denominator * 2;
    }
    if mode.doubleScan {
      numerator := numerator * 2;
    }
    if mode.vscan > 1 {
      numerator := numerator * mode.vscan;
    }
    assert numerator == Numerator(mode) && denominator == Denominator(mode);
    interval := NearestQuotient(numerator, denominator);
  }

  function NearestQuotient(n: nat, d: nat): (q: nat)
    requires d > 0
    ensures 2 * q * d <= 2 * n + d && 2 * n < 2 * q * d + d
  {
    DivisionBounds(n + d / 2, d);
    var q := (n + d / 2) / d;
    assert 2 * (d / 2) <= d <= 2 * (d / 2) + 1;
    assert (q + 1) * d == q * d + d;
    assert 2 * q * d == 2 * (q * d);
    q
  }

  // A clock accepts the interval of a mode exactly when a frame takes at least half a nanosecond and
  // less than half a nanosecond under a second.
  lemma ModeIsAcceptedExactlyWhen(mode: Mode)
    requires mode.clock > 0
    ensures IsInterval(NearestQuotient(Numerator(mode), Denominator(mode))) <==>
            Denominator(mode) <= 2 * Numerator(mode) < 1_999_999_999 * Denominator(mode)
  {
    QuotientInRange(Numerator(mode), Denominator(mode), NearestQuotient(Numerator(mode), Denominator(mode)));
  }

  lemma QuotientInRange(n: nat, d: nat, q: nat)
    requires d > 0 && 2 * (q * d) <= 2 * n + d && 2 * n < 2 * (q * d) + d
    ensures 0 < q < 1_000_000_000 <==> d <= 2 * n < 1_999_999_999 * d
  {
    if q > 0 { MulMonotone(1, q, d); }
    if q < 1_000_000_000 { MulMonotone(q, 999_999_999, d); } else { MulMonotone(1_000_000_000, q, d); }
  }
}
