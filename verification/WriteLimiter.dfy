/** The limiter in front of every hardware write: one admission per interval. */
module WriteLimiter {
  import opened Text
  import opened Clock

  /** An admission, or the time to wait. */
  datatype Verdict = Admitted | Refused(retryAfter: int)

  /** The decision at one clock reading, and the instant of the last admission afterwards. */
  function Decide(last: int, now: int, interval: int): (Verdict, int) {
    var elapsed := Sub(now, last);
    if last != ZERO_TIME && elapsed < interval then (Refused(Wrap(interval - elapsed)), last)
    else (Admitted, now)
  }

  class Limiter {
    var last: int

    constructor ()
      ensures last == ZERO_TIME
    {
      last := ZERO_TIME;
    }

    method Allow(now: int, interval: int) returns (verdict: Verdict)
      modifies this
      ensures (verdict, last) == Decide(old(last), now, interval)
    {
      var elapsed := Sub(now, last);
      if last != ZERO_TIME && elapsed < interval {
        return Refused(Wrap(interval - elapsed));
      }
      last := now;
      return Admitted;
    }
  }

  /** The default of 150 ms replaces an interval that is not positive. */
  function EffectiveInterval(configured: int): (interval: int)
    ensures interval > 0
    ensures interval == configured || (configured <= 0 && interval == 150_000_000)
  {
    if configured <= 0 then 150_000_000 else configured
  }

  // ----- whole runs -----

  /** The last admission after a run of clock readings. */
  function LastAfter(readings: seq<int>, interval: int): int {
    if readings == [] then ZERO_TIME
    else Decide(LastAfter(readings[..|readings| - 1], interval), readings[|readings| - 1], interval).1
  }

  /** The readings of a run that were admitted. */
  function Admissions(readings: seq<int>, interval: int): (admitted: seq<int>)
    ensures |admitted| <= |readings|
  {
    if readings == [] then []
    else
      var before, now := readings[..|readings| - 1], readings[|readings| - 1];
      if Decide(LastAfter(before, interval), now, interval).0.Admitted? then Admissions(before, interval) + [now]
      else Admissions(before, interval)
  }

  /** The clock never reads the zero time, and is free to jump in either direction. */
  predicate NonZero(readings: seq<int>) {
    forall i :: 0 <= i < |readings| ==> readings[i] != ZERO_TIME
  }

  lemma {:induction false} LastIsLastAdmission(readings: seq<int>, interval: int)
    requires NonZero(readings)
    ensures var admitted := Admissions(readings, interval);
            && LastAfter(readings, interval) == (if admitted == [] then ZERO_TIME else admitted[|admitted| - 1])
            && NonZero(admitted)
  {
    if readings != [] {
      LastIsLastAdmission(readings[..|readings| - 1], interval);
    }
  }

  /** Consecutive admissions are an interval apart, whatever the clock does. */
  lemma {:induction false} AdmissionsSpaced(readings: seq<int>, interval: int)
    requires NonZero(readings) && 0 < interval <= MAX_INT64
    ensures var admitted := Admissions(readings, interval);
            forall i :: 1 <= i < |admitted| ==> admitted[i] - admitted[i - 1] >= interval
  {
    if readings != [] {
      AdmissionsSpaced(readings[..|readings| - 1], interval);
      LastIsLastAdmission(readings[..|readings| - 1], interval);
    }
  }

  lemma {:induction false} SpacedSpan(admitted: seq<int>, interval: int)
    requires admitted != []
    requires forall i :: 1 <= i < |admitted| ==> admitted[i] - admitted[i - 1] >= interval
    ensures admitted[|admitted| - 1] - admitted[0] >= (|admitted| - 1) * interval
  {
    if |admitted| > 1 {
      var before := admitted[..|admitted| - 1];
      SpacedSpan(before, interval);
      assert (|admitted| - 1) * interval == (|before| - 1) * interval + interval;
    }
  }

  /** n admissions need (n - 1) intervals between the first and the last of them. */
  lemma AdmissionsBounded(readings: seq<int>, interval: int)
    requires NonZero(readings) && 0 < interval <= MAX_INT64
    requires Admissions(readings, interval) != []
    ensures var admitted := Admissions(readings, interval);
            |admitted| <= 1 + (admitted[|admitted| - 1] - admitted[0]) / interval
  {
    var admitted := Admissions(readings, interval);
    AdmissionsSpaced(readings, interval);
    SpacedSpan(admitted, interval);
    QuotientAtLeast(admitted[|admitted| - 1] - admitted[0], |admitted| - 1, interval);
  }

  lemma ProductGrows(a: int, b: int, c: int)
    requires a <= b && c > 0
    ensures a * c <= b * c
  {}

  lemma QuotientAtLeast(span: int, n: int, interval: int)
    requires interval > 0 && span >= n * interval
    ensures span / interval >= n
  {
    var q := span / interval;
    assert span < q * interval + interval;
    if q + 1 <= n {
      ProductGrows(q + 1, n, interval);
    }
  }

  /** A caller that was refused and comes back after the time it was told is admitted, if
      nobody was meanwhile, exactly when the true waiting time is a duration Go can express. */
  lemma RetryIsAdmitted(last: int, now: int, interval: int)
    requires 0 < interval <= MAX_INT64 && Decide(last, now, interval).0.Refused?
    ensures var retry := now + Decide(last, now, interval).0.retryAfter;
            Decide(last, retry, interval).0.Admitted? <==> interval - (now - last) <= MAX_INT64
  {
    var elapsed := Sub(now, last);
    if interval - (now - last) <= MAX_INT64 {
      assert Wrap(interval - elapsed) == interval - elapsed;
    } else {
      assert elapsed < 0 && MAX_INT64 < interval - elapsed < 0x1_0000_0000_0000_0000;
      assert Wrap(interval - elapsed) == interval - elapsed - 0x1_0000_0000_0000_0000;
    }
  }

  /** A clock that jumped back as far as that: the announced wait is negative, and whoever keeps to
      it is refused again. */
  lemma RetryCanBeRefused()
    ensures var last, now, interval := MAX_INT64 + 1, 1, EffectiveInterval(0);
            && Decide(last, now, interval).0.Refused?
            && Decide(last, now, interval).0.retryAfter < 0
            && Decide(last, now + Decide(last, now, interval).0.retryAfter, interval).0.Refused?
  {
    var last, now, interval := MAX_INT64 + 1, 1, EffectiveInterval(0);
    RetryIsAdmitted(last, now, interval);
    assert Wrap(interval + MAX_INT64) == interval + MAX_INT64 - 0x1_0000_0000_0000_0000;
  }

  /** Exactly which requests are refused: those within the interval of an admission. The first
      request never is, and a clock that jumps back counts as no time passed, or less. */
  lemma RefusedExactly(last: int, now: int, interval: int)
    requires 0 < interval <= MAX_INT64
    ensures Decide(last, now, interval).0.Refused? <==> last != ZERO_TIME && now < last + interval
    ensures Decide(last, now, interval).1 == if last != ZERO_TIME && now < last + interval then last else now
  {}
}
