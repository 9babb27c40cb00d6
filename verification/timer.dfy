/** Backoff timers: a delay value that grows by a strategy (step, geometric or
    power) and is bounded either by a number of increases (count timers) or
    by a ceiling value (ceiling timers). A timer whose bound is absent is
    unbounded. Delays are modelled as reals; waiting is not modelled, the
    delay a caller would wait for is the timer's `value`. */
module Timer {
  import opened Wrappers

  /** How one increase changes the value. */
  datatype Growth =
    | Step(step: real)          // value + step
    | Geometric(factor: real)   // value * factor
    | Power(exponent: nat)      // value ^ exponent

  /** What stops the timer: a number of increases or a ceiling value;
      `None` in either makes the timer unbounded. */
  datatype Bound =
    | ByCount(count: Option<nat>)
    | ByCeiling(final: Option<real>)

  /** The settings of a timer: what it starts at, how it grows, what stops it. */
  datatype Schedule = Schedule(initial: real, growth: Growth, bound: Bound)

  /** A timer: its settings plus its progress (current value and number of
      increases so far). */
  datatype Timer = Timer(schedule: Schedule, value: real, counter: nat)

  function Fresh(s: Schedule): Timer
  {
    Timer(s, s.initial, 0)
  }

  /** The six kinds of timer, freshly constructed. */
  function StepCountTimer(initial: real, count: nat, step: real): Timer
  {
    Fresh(Schedule(initial, Step(step), ByCount(Some(count))))
  }

  function GeometricCountTimer(initial: real, count: nat, factor: real): Timer
  {
    Fresh(Schedule(initial, Geometric(factor), ByCount(Some(count))))
  }

  function PowerCountTimer(initial: real, count: nat, exponent: nat): Timer
  {
    Fresh(Schedule(initial, Power(exponent), ByCount(Some(count))))
  }

  function StepCeilingTimer(initial: real, final: real, step: real): Timer
  {
    Fresh(Schedule(initial, Step(step), ByCeiling(Some(final))))
  }

  function GeometricCeilingTimer(initial: real, final: real, factor: real): Timer
  {
    Fresh(Schedule(initial, Geometric(factor), ByCeiling(Some(final))))
  }

  function PowerCeilingTimer(initial: real, final: real, exponent: nat): Timer
  {
    Fresh(Schedule(initial, Power(exponent), ByCeiling(Some(final))))
  }

  // ---------------------------------------------------------------------
  // Growth
  // ---------------------------------------------------------------------

  function Pow(x: real, n: nat): real
  {
    if n == 0 then 1.0 else x * Pow(x, n - 1)
  }

  function Next(g: Growth, v: real): real
  {
    match g
    case Step(s) => v + s
    case Geometric(f) => v * f
    case Power(e) => Pow(v, e)
  }

  /** The value after `n` unclamped increases starting from `x`. */
  function Iterate(g: Growth, x: real, n: nat): real
    decreases n
  {
    if n == 0 then x else Iterate(g, Next(g, x), n - 1)
  }

  /** The growth strictly raises every value from `initial` upwards, by at
      least `MinGain`; this is what makes a ceiling reachable. */
  predicate Grows(g: Growth, initial: real)
  {
    match g
    case Step(s) => s > 0.0
    case Geometric(f) => f > 1.0 && initial > 0.0
    case Power(e) => e >= 2 && initial > 1.0
  }

  lemma MulPositive(a: real, b: real)
    requires a > 0.0 && b > 0.0
    ensures a * b > 0.0
  {
  }

  lemma MulNonNegative(a: real, b: real)
    requires a >= 0.0 && b >= 0.0
    ensures a * b >= 0.0
  {
  }

  function MinGain(g: Growth, initial: real): (d: real)
    requires Grows(g, initial)
    ensures d > 0.0
  {
    match g
    case Step(s) => s
    case Geometric(f) => MulPositive(initial, f - 1.0); initial * (f - 1.0)
    case Power(_) =>
      var m := initial - 1.0;
      MulPositive(initial, m);
      initial * m
  }

  lemma {:induction false} PowAtLeastOne(x: real, n: nat)
    requires x >= 1.0
    ensures Pow(x, n) >= 1.0
  {
    if n > 0 {
      PowAtLeastOne(x, n - 1);
      MulNonNegative(x - 1.0, Pow(x, n - 1));
    }
  }

  lemma {:induction false} PowAtLeastSquare(x: real, n: nat)
    requires x >= 1.0 && n >= 2
    ensures Pow(x, n) >= x * x
  {
    if n == 2 {
      assert Pow(x, 1) == x;
    } else {
      PowAtLeastSquare(x, n - 1);
      MulNonNegative(x - 1.0, Pow(x, n - 1));
      MulNonNegative(x - 1.0, x * x);
    }
  }

  /** One increase from any value at or above `initial` gains at least
      `MinGain`. */
  lemma GainBound(g: Growth, initial: real, v: real)
    requires Grows(g, initial) && v >= initial
    ensures Next(g, v) >= v + MinGain(g, initial)
  {
    match g
    case Step(s) =>
    case Geometric(f) =>
      MulNonNegative(v - initial, f - 1.0);
    case Power(e) =>
      PowAtLeastSquare(v, e);
      MulNonNegative(v - initial, v + initial - 1.0);
  }

  lemma {:induction false} IterateAtLeast(g: Growth, initial: real, v: real, n: nat)
    requires Grows(g, initial) && v >= initial
    ensures Iterate(g, v, n) >= v
    ensures n >= 1 ==> Iterate(g, v, n) > v
    decreases n
  {
    if n > 0 {
      GainBound(g, initial, v);
      IterateAtLeast(g, initial, Next(g, v), n - 1);
    }
  }

  lemma {:induction false} IterateSucc(g: Growth, x: real, n: nat)
    ensures Iterate(g, x, n + 1) == Next(g, Iterate(g, x, n))
    decreases n
  {
    if n > 0 {
      IterateSucc(g, Next(g, x), n - 1);
    }
  }

  // ---------------------------------------------------------------------
  // Number of increases needed to reach a ceiling
  // ---------------------------------------------------------------------

  /** A termination measure: how many gains of `MinGain` still fit below
      the ceiling. */
  function Distance(g: Growth, initial: real, v: real, final: real): nat
    requires Grows(g, initial)
  {
    if v >= final then 0 else ((final - v) / MinGain(g, initial)).Floor + 1
  }

  lemma DivMonotone(a: real, b: real, d: real)
    requires d > 0.0 && a <= b
    ensures a / d <= b / d
  {
    var x, y := a / d, b / d;
    assert x * d == a && y * d == b;
    if x > y {
      MulPositive(x - y, d);
    }
  }

  lemma DivMinusOne(a: real, d: real)
    requires d > 0.0
    ensures (a - d) / d == a / d - 1.0
  {
    var x, y := a / d, (a - d) / d;
    assert x * d == a && y * d == a - d;
    assert (y - (x - 1.0)) * d == 0.0;
    if y != x - 1.0 {
      if y > x - 1.0 {
        MulPositive(y - (x - 1.0), d);
      } else {
        MulPositive((x - 1.0) - y, d);
      }
    }
  }

  lemma FloorMonotone(a: real, b: real)
    requires a <= b
    ensures a.Floor <= b.Floor
  {
  }

  lemma DistanceDecreases(g: Growth, initial: real, v: real, final: real)
    requires Grows(g, initial) && initial <= v < final
    ensures Next(g, v) >= initial
    ensures Distance(g, initial, Next(g, v), final) < Distance(g, initial, v, final)
  {
    GainBound(g, initial, v);
    var d := MinGain(g, initial);
    var w := Next(g, v);
    if w < final {
      var x := (final - v) / d;
      var y := (final - w) / d;
      DivMonotone(final - w, final - v - d, d);
      DivMinusOne(final - v, d);
      assert y <= x - 1.0;
      FloorMonotone(y, x - 1.0);
      assert (x - 1.0).Floor == x.Floor - 1;
      assert Distance(g, initial, w, final) == y.Floor + 1;
      assert Distance(g, initial, v, final) == x.Floor + 1;
    }
  }

  /** How many increases from `v` it takes for the unclamped value to reach
      `final`. */
  function StepsToReach(g: Growth, initial: real, v: real, final: real): nat
    requires Grows(g, initial) && v >= initial
    decreases Distance(g, initial, v, final)
  {
    if v >= final then 0
    else
      DistanceDecreases(g, initial, v, final);
      1 + StepsToReach(g, initial, Next(g, v), final)
  }

  /** `StepsToReach` is the least number of increases reaching the ceiling. */
  lemma StepsToReachIsLeast(g: Growth, initial: real, v: real, final: real)
    requires Grows(g, initial) && v >= initial
    ensures Iterate(g, v, StepsToReach(g, initial, v, final)) >= final
    ensures forall k :: 0 <= k < StepsToReach(g, initial, v, final) ==> Iterate(g, v, k) < final
    decreases Distance(g, initial, v, final)
  {
    if v < final {
      DistanceDecreases(g, initial, v, final);
      StepsToReachIsLeast(g, initial, Next(g, v), final);
      forall k | 1 <= k < StepsToReach(g, initial, v, final)
        ensures Iterate(g, v, k) < final
      {
        assert Iterate(g, v, k) == Iterate(g, Next(g, v), k - 1);
      }
    }
  }


  // ---------------------------------------------------------------------
  // Derived properties of a schedule
  // ---------------------------------------------------------------------

  /** A ceiling schedule with a ceiling must be able to reach it. */
  predicate Valid(s: Schedule)
  {
    s.bound.ByCeiling? && s.bound.final.Some? ==> Grows(s.growth, s.initial)
  }

  predicate Bounded(s: Schedule)
  {
    match s.bound
    case ByCount(c) => c.Some?
    case ByCeiling(f) => f.Some?
  }

  predicate IsCeiling(s: Schedule)
  {
    s.bound.ByCeiling? && s.bound.final.Some?
  }

  /** `count`: the number of increases the timer allows. */
  function Count(s: Schedule): Option<nat>
    requires Valid(s)
  {
    match s.bound
    case ByCount(c) => c
    case ByCeiling(None) => None
    case ByCeiling(Some(f)) => Some(StepsToReach(s.growth, s.initial, s.initial, f))
  }

  /** The value a timer holds after `i` increases from its initial value. */
  function ValueAt(s: Schedule, i: nat): real
    requires Valid(s)
  {
    match s.bound
    case ByCeiling(Some(f)) =>
      if i == 0 then s.initial
      else if i < Count(s).value then Iterate(s.growth, s.initial, i)
      else f
    case _ => Iterate(s.growth, s.initial, i)
  }

  /** `final`: the last value of a bounded timer. */
  function Final(s: Schedule): Option<real>
    requires Valid(s)
  {
    match s.bound
    case ByCount(None) => None
    case ByCount(Some(c)) => Some(Iterate(s.growth, s.initial, c))
    case ByCeiling(f) => f
  }

  /** The sum of `ValueAt(s, i)` for `lo <= i < hi`. */
  function SumValues(s: Schedule, lo: nat, hi: nat): real
    requires Valid(s)
    decreases hi - lo
  {
    if lo >= hi then 0.0 else ValueAt(s, lo) + SumValues(s, lo + 1, hi)
  }

  /** `total`: the sum of every value the timer takes, initial to final. */
  function Total(s: Schedule): Option<real>
    requires Valid(s)
  {
    match Count(s)
    case None => None
    case Some(c) => Some(SumValues(s, 0, c + 1))
  }

  // ---------------------------------------------------------------------
  // Derived properties of a timer's progress
  // ---------------------------------------------------------------------

  predicate CanIncrease(t: Timer)
  {
    match t.schedule.bound
    case ByCount(None) => true
    case ByCount(Some(c)) => t.counter < c
    case ByCeiling(None) => true
    case ByCeiling(Some(f)) => t.value < f
  }

  /** `count_remaining`. */
  function CountRemaining(t: Timer): Option<int>
    requires Valid(t.schedule)
  {
    match Count(t.schedule)
    case None => None
    case Some(c) => Some(c - t.counter)
  }

  /** `total_remaining`: the sum of the values still to come. */
  function TotalRemaining(t: Timer): Option<real>
    requires Valid(t.schedule)
  {
    match Count(t.schedule)
    case None => None
    case Some(c) => Some(SumValues(t.schedule, t.counter + 1, c + 1))
  }

  /** The state a timer is in after some number of increases from fresh:
      its value is the schedule's value at `counter`, within the bound. */
  predicate Reachable(t: Timer)
  {
    && Valid(t.schedule)
    && t.value == ValueAt(t.schedule, t.counter)
    && (Count(t.schedule).Some? ==> t.counter <= Count(t.schedule).value)
  }

  // ---------------------------------------------------------------------
  // Operations
  // ---------------------------------------------------------------------

  datatype Increased = Increased(stepped: bool, timer: Timer)

  function Clamp(b: Bound, v: real): real
  {
    match b
    case ByCeiling(Some(f)) => if v < f then v else f
    case _ => v
  }

  /** `increase()`: one step of growth, clamped to the ceiling; a timer
      that cannot increase is returned unchanged. The flag says whether a
      step was taken. */
  function Increase(t: Timer): (r: Increased)
    ensures r.stepped == CanIncrease(t)
    ensures r.timer.schedule == t.schedule
    ensures !r.stepped ==> r.timer == t
  {
    if !CanIncrease(t) then Increased(false, t)
    else Increased(true, t.(value := Clamp(t.schedule.bound, Next(t.schedule.growth, t.value)), counter := t.counter + 1))
  }

  /** `increase()` called `n` times. */
  function IncreaseTimes(t: Timer, n: nat): Timer
    decreases n
  {
    if n == 0 then t else IncreaseTimes(Increase(t).timer, n - 1)
  }

  /** `copy(timer)`: the same timer, progress included. */
  function Copy(t: Timer): Timer
  {
    t
  }

  /** `deepcopy(timer)`: the same settings, restarted. */
  function DeepCopy(t: Timer): Timer
  {
    Fresh(t.schedule)
  }

  /** `reset()`: back to the initial settings. */
  function Reset(t: Timer): Timer
  {
    t.(value := t.schedule.initial, counter := 0)
  }

  // ---------------------------------------------------------------------
  // Properties
  // ---------------------------------------------------------------------

  /** Below the count, a ceiling schedule follows the unclamped sequence
      and stays under the ceiling; from the count on it sits at the
      ceiling. The count is zero exactly when the timer starts at or above
      the ceiling. */
  lemma CeilingValues(s: Schedule, i: nat)
    requires Valid(s) && IsCeiling(s)
    ensures i < Count(s).value ==> ValueAt(s, i) == Iterate(s.growth, s.initial, i) < s.bound.final.value
    ensures Count(s).value == 0 <==> s.initial >= s.bound.final.value
    ensures Iterate(s.growth, s.initial, Count(s).value) >= s.bound.final.value
  {
    StepsToReachIsLeast(s.growth, s.initial, s.initial, s.bound.final.value);
  }

  /** The count of a ceiling timer is the least number of increases after
      which the unclamped value reaches the ceiling. */
  lemma CeilingCountIsLeast(s: Schedule, n: nat)
    requires Valid(s) && IsCeiling(s)
    requires Iterate(s.growth, s.initial, n) >= s.bound.final.value
    ensures Count(s).value <= n
  {
    StepsToReachIsLeast(s.growth, s.initial, s.initial, s.bound.final.value);
  }

  /** A reachable timer can increase exactly while its counter is below the
      count. */
  lemma CanIncreaseIffBelowCount(t: Timer)
    requires Reachable(t)
    ensures CanIncrease(t) <==> (Count(t.schedule).None? || t.counter < Count(t.schedule).value)
  {
    if IsCeiling(t.schedule) {
      CeilingValues(t.schedule, t.counter);
    }
  }

  /** Increasing a reachable timer that can increase moves it to the next
      value of its schedule, one counter further; when the growth is
      strict, the value strictly rises. */
  lemma IncreaseFollowsSchedule(t: Timer)
    requires Reachable(t) && CanIncrease(t)
    ensures Increase(t).stepped
    ensures Increase(t).timer.counter == t.counter + 1
    ensures Increase(t).timer.value == ValueAt(t.schedule, t.counter + 1)
    ensures Reachable(Increase(t).timer)
    ensures Grows(t.schedule.growth, t.schedule.initial) ==> Increase(t).timer.value > t.value
  {
    var s, i := t.schedule, t.counter;
    CanIncreaseIffBelowCount(t);
    IterateSucc(s.growth, s.initial, i);
    if IsCeiling(s) {
      CeilingValues(s, i);
      CeilingValues(s, i + 1);
    }
    if Grows(s.growth, s.initial) {
      assert t.value == Iterate(s.growth, s.initial, i);
      IterateAtLeast(s.growth, s.initial, s.initial, i);
      GainBound(s.growth, s.initial, t.value);
    }
  }

  /** A timer at its bound refuses to increase and keeps its value. */
  lemma IncreaseAtBound(t: Timer)
    requires !CanIncrease(t)
    ensures !Increase(t).stepped && Increase(t).timer.value == t.value
  {
  }

  /** A fresh timer holds its initial value, has its full count and total
      still to go. */
  lemma FreshProperties(s: Schedule)
    requires Valid(s) && Bounded(s)
    ensures Reachable(Fresh(s))
    ensures Fresh(s).value == s.initial && Fresh(s).counter == 0
    ensures CountRemaining(Fresh(s)) == Some(Count(s).value as int)
    ensures TotalRemaining(Fresh(s)) == Some(Total(s).value - s.initial)
    ensures Count(s).value > 0 ==> CanIncrease(Fresh(s))
  {
    CanIncreaseIffBelowCount(Fresh(s));
  }

  /** Each increase uses up one count and takes its new value off the
      remaining total. */
  lemma RemainingAfterIncrease(t: Timer)
    requires Reachable(t) && Bounded(t.schedule) && CanIncrease(t)
    ensures TotalRemaining(Increase(t).timer).value == TotalRemaining(t).value - Increase(t).timer.value
    ensures CountRemaining(Increase(t).timer).value == CountRemaining(t).value - 1
  {
    IncreaseFollowsSchedule(t);
    CanIncreaseIffBelowCount(t);
  }

  /** An exhausted timer is at its final value with nothing remaining. */
  lemma ExhaustedProperties(t: Timer)
    requires Reachable(t) && Bounded(t.schedule) && t.counter == Count(t.schedule).value
    requires IsCeiling(t.schedule) ==> t.schedule.initial <= t.schedule.bound.final.value
    ensures !CanIncrease(t)
    ensures t.value == Final(t.schedule).value
    ensures CountRemaining(t) == Some(0)
    ensures TotalRemaining(t) == Some(0.0)
  {
    CanIncreaseIffBelowCount(t);
    if IsCeiling(t.schedule) {
      CeilingValues(t.schedule, t.counter);
    }
  }

  /** An unbounded timer has no final, total, count or remainders, and can
      always increase. */
  lemma UnboundedProperties(t: Timer)
    requires Valid(t.schedule) && !Bounded(t.schedule)
    ensures Final(t.schedule).None? && Total(t.schedule).None? && Count(t.schedule).None?
    ensures CountRemaining(t).None? && TotalRemaining(t).None?
    ensures CanIncrease(t) && CanIncrease(Increase(t).timer)
  {
  }

  /** A shallow copy keeps the progress; a deep copy (and `reset`) restarts
      the same schedule, strictly below a timer that has moved. */
  lemma CopyAndDeepCopy(t: Timer)
    requires Reachable(t)
    ensures Copy(t).value == t.value && Copy(t).counter == t.counter
    ensures DeepCopy(t).value == t.schedule.initial && DeepCopy(t).counter == 0
    ensures DeepCopy(t).schedule == t.schedule && Reset(t) == DeepCopy(t)
    ensures Reachable(DeepCopy(t))
    ensures Grows(t.schedule.growth, t.schedule.initial) && t.counter > 0 ==> DeepCopy(t).value < t.value
  {
    var s := t.schedule;
    if Grows(s.growth, s.initial) && t.counter > 0 {
      IterateAtLeast(s.growth, s.initial, s.initial, t.counter);
      if IsCeiling(s) {
        CeilingValues(s, 0);
        CeilingValues(s, t.counter);
      }
    }
  }

  /** Increases a bounded timer until it can no longer increase, as the
      tests' exhausted-timer fixture does. */
  method Exhaust(t: Timer) returns (e: Timer)
    requires Reachable(t) && Bounded(t.schedule)
    ensures Reachable(e) && !CanIncrease(e)
    ensures e.schedule == t.schedule
    ensures e.counter == Count(t.schedule).value
    ensures e.value == ValueAt(t.schedule, Count(t.schedule).value)
  {
    e := t;
    while CanIncrease(e)
      invariant Reachable(e) && e.schedule == t.schedule
      decreases Count(t.schedule).value - e.counter
    {
      CanIncreaseIffBelowCount(e);
      IncreaseFollowsSchedule(e);
      e := Increase(e).timer;
    }
    CanIncreaseIffBelowCount(e);
  }
}
