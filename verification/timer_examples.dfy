/** The value sequences the timer guide and the timer tests document, as
    facts about the model. */
module TimerExamples {
  import opened Wrappers
  import opened Timer

  /** The values a timer shows: now, and after each of `n` further calls
      to `increase()`. */
  function Trace(t: Timer, n: nat): (r: seq<real>)
    ensures |r| == n + 1 && r[0] == t.value
    ensures forall i :: 0 <= i <= n ==> r[i] == IncreaseTimes(t, i).value
    decreases n
  {
    if n == 0 then [t.value] else [t.value] + Trace(Increase(t).timer, n - 1)
  }

  /** Step count timer from 0 by 0.2, three increases: 0, 0.2, 0.4, 0.6,
      and a fourth increase leaves 0.6. */
  lemma GuideStepCount()
    ensures Trace(StepCountTimer(0.0, 3, 0.2), 4) == [0.0, 0.2, 0.4, 0.6, 0.6]
  {
  }

  /** Geometric count timer from 2 by factor 2, three increases. */
  lemma GuideGeometricCount()
    ensures Trace(GeometricCountTimer(2.0, 3, 2.0), 4) == [2.0, 4.0, 8.0, 16.0, 16.0]
  {
  }

  /** Power count timer from 2 with exponent 2, three increases. */
  lemma GuidePowerCount()
    ensures Trace(PowerCountTimer(2.0, 3, 2), 4) == [2.0, 4.0, 16.0, 256.0, 256.0]
  {
  }

  /** Step ceiling timer from 0 to 0.5 by 0.2: the third increase is
      clamped to the ceiling. */
  lemma GuideStepCeiling()
    ensures Trace(StepCeilingTimer(0.0, 0.5, 0.2), 4) == [0.0, 0.2, 0.4, 0.5, 0.5]
  {
  }

  /** Geometric ceiling timer from 2 to 10 by factor 2. */
  lemma GuideGeometricCeiling()
    ensures Trace(GeometricCeilingTimer(2.0, 10.0, 2.0), 4) == [2.0, 4.0, 8.0, 10.0, 10.0]
  {
  }

  /** Power ceiling timer from 2 to 60 with exponent 2. */
  lemma GuidePowerCeiling()
    ensures Trace(PowerCeilingTimer(2.0, 60.0, 2), 4) == [2.0, 4.0, 16.0, 60.0, 60.0]
  {
  }

  /** Step count timer (2, count 5, step 3): final 17, total 2+5+...+17;
      after two increases the value is 8 with 3 increases and 11+14+17
      still to go. */
  lemma StepCountProperties()
    ensures var t := StepCountTimer(2.0, 5, 3.0);
      && Final(t.schedule) == Some(17.0)
      && Total(t.schedule) == Some(2.0 + 5.0 + 8.0 + 11.0 + 14.0 + 17.0)
      && IncreaseTimes(t, 2).value == 8.0 && IncreaseTimes(t, 2).counter == 2
      && CountRemaining(IncreaseTimes(t, 2)) == Some(3)
      && TotalRemaining(IncreaseTimes(t, 2)) == Some(11.0 + 14.0 + 17.0)
  {
  }

  /** Geometric count timer (1, count 6, factor 2): final 64. */
  lemma GeometricCountProperties()
    ensures var t := GeometricCountTimer(1.0, 6, 2.0);
      && Final(t.schedule) == Some(64.0)
      && Total(t.schedule) == Some(1.0 + 2.0 + 4.0 + 8.0 + 16.0 + 32.0 + 64.0)
      && IncreaseTimes(t, 2).value == 4.0 && IncreaseTimes(t, 2).counter == 2
      && CountRemaining(IncreaseTimes(t, 2)) == Some(4)
      && TotalRemaining(IncreaseTimes(t, 2)) == Some(8.0 + 16.0 + 32.0 + 64.0)
  {
    var s := GeometricCountTimer(1.0, 6, 2.0).schedule;
    assert SumValues(s, 3, 7) == 8.0 + 16.0 + 32.0 + 64.0;
    assert SumValues(s, 0, 7) == 1.0 + 2.0 + 4.0 + SumValues(s, 3, 7);
  }

  /** Power count timer (2, count 3, exponent 2): final 256. */
  lemma PowerCountProperties()
    ensures var t := PowerCountTimer(2.0, 3, 2);
      && Final(t.schedule) == Some(256.0)
      && Total(t.schedule) == Some(2.0 + 4.0 + 16.0 + 256.0)
      && IncreaseTimes(t, 2).value == 16.0 && IncreaseTimes(t, 2).counter == 2
      && CountRemaining(IncreaseTimes(t, 2)) == Some(1)
      && TotalRemaining(IncreaseTimes(t, 2)) == Some(256.0)
  {
  }

  /** Step ceiling timer (1, final 9.5, step 2): five increases, the last
      clamped to 9.5. */
  lemma StepCeilingProperties()
    ensures var t := StepCeilingTimer(1.0, 9.5, 2.0);
      && Count(t.schedule) == Some(5)
      && Total(t.schedule) == Some(1.0 + 3.0 + 5.0 + 7.0 + 9.0 + 9.5)
      && IncreaseTimes(t, 2).value == 5.0 && IncreaseTimes(t, 2).counter == 2
      && CountRemaining(IncreaseTimes(t, 2)) == Some(3)
      && TotalRemaining(IncreaseTimes(t, 2)) == Some(7.0 + 9.0 + 9.5)
  {
  }

  /** Geometric ceiling timer (1, final 50, factor 2): six increases. */
  lemma GeometricCeilingProperties()
    ensures var t := GeometricCeilingTimer(1.0, 50.0, 2.0);
      && Count(t.schedule) == Some(6)
      && Total(t.schedule) == Some(1.0 + 2.0 + 4.0 + 8.0 + 16.0 + 32.0 + 50.0)
      && IncreaseTimes(t, 2).value == 4.0 && IncreaseTimes(t, 2).counter == 2
      && CountRemaining(IncreaseTimes(t, 2)) == Some(4)
      && TotalRemaining(IncreaseTimes(t, 2)) == Some(8.0 + 16.0 + 32.0 + 50.0)
  {
  }

  /** Power ceiling timer (2, final 50, exponent 2): three increases. */
  lemma PowerCeilingProperties()
    ensures var t := PowerCeilingTimer(2.0, 50.0, 2);
      && Count(t.schedule) == Some(3)
      && Total(t.schedule) == Some(2.0 + 4.0 + 16.0 + 50.0)
      && IncreaseTimes(t, 2).value == 16.0 && IncreaseTimes(t, 2).counter == 2
      && CountRemaining(IncreaseTimes(t, 2)) == Some(1)
      && TotalRemaining(IncreaseTimes(t, 2)) == Some(50.0)
  {
  }

  /** `reset()` brings a timer that has moved back to its initial value. */
  lemma GuideReset()
    ensures var t := IncreaseTimes(StepCountTimer(0.0, 3, 0.2), 2);
      t.value == 0.4 && Reset(t).value == 0.0 && Reset(t).counter == 0
  {
  }
}
