/** The three stateless verdicts (internal/rules). A verdict is the score of a triggered rule, or None. */
module Rules {
  import opened Cdr

  const NS_PER_SEC := 1_000_000_000
  const NS_PER_HOUR := 3_600_000_000_000
  const DAY_MS := 86_400_000

  /** An upper bound of half the great circle, pi * 6371 km, which no great-circle distance exceeds. */
  const HALF_CIRCLE_KM := 20015.09

  function VelocityVerdict(threshold: int, count: nat): Option<real> {
    if threshold <= 0 || count < threshold then None
    else Some(count as real / threshold as real)
  }

  function IrsfVerdict(threshold: real, spend: real): Option<real> {
    if threshold <= 0.0 || spend < threshold then None
    else Some(spend / threshold)
  }

  /** Near-simultaneous calls are taken to be one second apart, so that the implied speed stays finite. */
  function FlooredGap(dtNs: int): (dt: int)
    ensures dt >= NS_PER_SEC && dt >= dtNs && (dt == dtNs || dt == NS_PER_SEC)
  {
    if dtNs < NS_PER_SEC then NS_PER_SEC else dtNs
  }

  function TravelVerdict(maxKmh: real, distanceKm: real, dtNs: int): Option<real> {
    if distanceKm <= 0.0 || maxKmh <= 0.0 then None
    else
      var speed := distanceKm / (FlooredGap(dtNs) as real / NS_PER_HOUR as real);
      if speed <= maxKmh then None else Some(speed / maxKmh)
  }

  /** The time between two moments, whichever comes first. */
  function Gap(a: int, b: int): (gap: nat)
    ensures a <= b ==> a + gap == b
    ensures b <= a ==> b + gap == a
  {
    if a < b then b - a else a - b
  }

  lemma DivBelow(x: real, y: real, b: real)
    requires y > 0.0
    ensures x / y <= b <==> x <= b * y
  {
    var q := x / y;
    assert q * y == x;
    if q <= b {
      assert (b - q) * y >= 0.0;
    } else {
      assert (q - b) * y > 0.0;
    }
  }

  /** The rule triggers exactly from the threshold on, unless the threshold makes no sense; the score is the spend in
      multiples of the threshold. */
  lemma IrsfTriggers(threshold: real, spend: real)
    ensures IrsfVerdict(threshold, spend).Some? <==> threshold > 0.0 && spend >= threshold
    ensures IrsfVerdict(threshold, spend).Some? ==> IrsfVerdict(threshold, spend).value * threshold == spend
  {
  }

  lemma VelocityTriggers(threshold: int, count: nat)
    ensures VelocityVerdict(threshold, count).Some? <==> threshold > 0 && count >= threshold
    ensures VelocityVerdict(threshold, count).Some? ==>
              VelocityVerdict(threshold, count).value * threshold as real == count as real
  {
  }

  /** The travel verdict without its divisions: it triggers exactly when the distance cannot be covered in the
      floored interval at the maximum speed, and then the score exceeds 1. */
  lemma TravelTriggers(maxKmh: real, distanceKm: real, dtNs: int)
    ensures TravelVerdict(maxKmh, distanceKm, dtNs).Some? <==>
              && distanceKm > 0.0 && maxKmh > 0.0
              && distanceKm * NS_PER_HOUR as real > maxKmh * FlooredGap(dtNs) as real
    ensures TravelVerdict(maxKmh, distanceKm, dtNs).Some? ==> TravelVerdict(maxKmh, distanceKm, dtNs).value > 1.0
  {
    if distanceKm > 0.0 && maxKmh > 0.0 {
      var dt := FlooredGap(dtNs);
      var hours := dt as real / NS_PER_HOUR as real;
      assert hours * NS_PER_HOUR as real == dt as real;
      DivBelow(distanceKm, hours, maxKmh);
      DivBelow(distanceKm * NS_PER_HOUR as real, NS_PER_HOUR as real, maxKmh * hours);
      assert maxKmh * hours * NS_PER_HOUR as real == maxKmh * dt as real;
      DivBelow(distanceKm / hours, maxKmh, 1.0);
    }
  }

  lemma TimesMonotone(x: real, a: real, b: real)
    requires x >= 0.0 && a <= b
    ensures x * a <= x * b
  {
  }

  lemma ScoreTimes(speed: real, maxKmh: real, hours: real, distanceKm: real, dt: real)
    requires maxKmh > 0.0 && hours * 3_600_000_000_000.0 == dt && speed * hours == distanceKm
    ensures speed / maxKmh * maxKmh * dt == distanceKm * 3_600_000_000_000.0
  {
    assert speed / maxKmh * maxKmh == speed;
    assert speed * dt == speed * hours * 3_600_000_000_000.0;
  }

  /** The travel verdict in nanoseconds, kilometres and kilometres per hour: with gaps of less than a second counted as
      one second, it triggers exactly when the distance takes longer at the maximum speed, and its score is the implied
      speed in multiples of the maximum speed. */
  lemma TravelExactly(maxKmh: real, distanceKm: real, dtNs: int)
    ensures var v, dt := TravelVerdict(maxKmh, distanceKm, dtNs), if dtNs < 1_000_000_000 then 1_000_000_000 else dtNs;
            && (v.Some? <==> distanceKm > 0.0 && maxKmh > 0.0
                             && distanceKm * 3_600_000_000_000.0 > maxKmh * dt as real)
            && (v.Some? ==> v.value * maxKmh * dt as real == distanceKm * 3_600_000_000_000.0)
  {
    TravelTriggers(maxKmh, distanceKm, dtNs);
    if distanceKm > 0.0 && maxKmh > 0.0 {
      var dt := FlooredGap(dtNs) as real;
      var hours := dt / NS_PER_HOUR as real;
      ScoreTimes(distanceKm / hours, maxKmh, hours, distanceKm, dt);
    }
  }

  /** A call that arrives late, from before the stored one, is judged as if the two had come in order. */
  lemma EarlierCallsAreJudgedAlike(maxKmh: real, distanceKm: real, atNs: int, nowNs: int)
    ensures TravelVerdict(maxKmh, distanceKm, Gap(nowNs, atNs)) == TravelVerdict(maxKmh, distanceKm, Gap(atNs, nowNs))
  {
    assert Gap(nowNs, atNs) == Gap(atNs, nowNs);
  }

  /** Forgetting a location that is at least `gapMs` old (less the millisecond lost to flooring) hides no alert,
      as long as half the globe can be covered in that time. */
  lemma OldLocationIsHarmless(maxKmh: real, distanceKm: real, gapMs: int, atNs: int, nowNs: int)
    requires distanceKm <= HALF_CIRCLE_KM
    requires gapMs >= 1 && nowNs / NS_PER_MS - atNs / NS_PER_MS >= gapMs
    requires HALF_CIRCLE_KM * 3_600_000.0 <= maxKmh * (gapMs - 1) as real
    ensures TravelVerdict(maxKmh, distanceKm, Gap(nowNs, atNs)) == None
  {
    TravelTriggers(maxKmh, distanceKm, Gap(nowNs, atNs));
    assert nowNs - atNs >= (gapMs - 1) * NS_PER_MS;
    if maxKmh > 0.0 {
      var dt := FlooredGap(Gap(nowNs, atNs)) as real;
      var least := (gapMs - 1) as real;
      assert dt >= least * 1_000_000.0;
      TimesMonotone(maxKmh, least * 1_000_000.0, dt);
    }
  }

  /** The same in nanoseconds: at the maximum speed the distance can be covered in that time. */
  lemma LongAgoIsHarmless(maxKmh: real, distanceKm: real, gapNs: int, dtNs: int)
    requires dtNs >= gapNs && distanceKm * NS_PER_HOUR as real <= maxKmh * gapNs as real
    ensures TravelVerdict(maxKmh, distanceKm, dtNs) == None
  {
    TravelTriggers(maxKmh, distanceKm, dtNs);
    if maxKmh > 0.0 {
      TimesMonotone(maxKmh, gapNs as real, FlooredGap(dtNs) as real);
    }
  }

  /** The exact condition: no pair that far apart in time triggers, whatever the distance, if and only if half the
      globe can be covered in that time at the maximum speed. */
  lemma ForgettingIsHarmlessExactlyWhen(maxKmh: real, gapNs: int)
    requires maxKmh > 0.0 && gapNs >= NS_PER_SEC
    ensures (forall distanceKm, dtNs: int | distanceKm <= HALF_CIRCLE_KM && dtNs >= gapNs ::
               TravelVerdict(maxKmh, distanceKm, dtNs) == None)
            <==> HALF_CIRCLE_KM * NS_PER_HOUR as real <= maxKmh * gapNs as real
  {
    TravelTriggers(maxKmh, HALF_CIRCLE_KM, gapNs);
    if HALF_CIRCLE_KM * NS_PER_HOUR as real <= maxKmh * gapNs as real {
      forall distanceKm, dtNs: int | distanceKm <= HALF_CIRCLE_KM && dtNs >= gapNs
        ensures TravelVerdict(maxKmh, distanceKm, dtNs) == None
      {
        LongAgoIsHarmless(maxKmh, distanceKm, gapNs, dtNs);
      }
    }
  }

  /** The two figures the 24 h lifetime rests on: from 834 km/h on it hides nothing when there is no clock skew at all,
      and from the default of 1000 km/h on it tolerates a skew of 3 h 59 min. */
  lemma DayIsLongEnough(maxKmh: real, skewMs: nat, distanceKm: real, atNs: int, nowNs: int)
    requires (maxKmh >= 834.0 && skewMs == 0) || (maxKmh >= 1000.0 && skewMs <= 14_340_000)
    requires distanceKm <= HALF_CIRCLE_KM && nowNs / NS_PER_MS - atNs / NS_PER_MS >= DAY_MS - skewMs
    ensures TravelVerdict(maxKmh, distanceKm, Gap(nowNs, atNs)) == None
  {
    var ms := (DAY_MS - skewMs - 1) as real;
    var least := if skewMs == 0 then 834.0 else 1000.0;
    TimesMonotone(ms, least, maxKmh);
    OldLocationIsHarmless(maxKmh, distanceKm, DAY_MS - skewMs, atNs, nowNs);
  }

  /** The bound on distances lies above pi * 6371 km, by less than ten metres. */
  lemma HalfCircleIsClose()
    ensures 3.141592653 * 6371.0 < HALF_CIRCLE_KM < 3.141592654 * 6371.0 + 0.01
  {
  }
}
