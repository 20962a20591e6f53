/** The arithmetic of repeating timers. */
module RepeatingTimers {

  datatype State = State(interval: int, pass: int, repeat: int)

  /** A timer as `SetTimer` makes it. */
  function Fresh(interval: int, repeat: int): State {
    State(interval, interval, repeat)
  }

  /** The timer after one tick, and whether it fired; a timer that has used up its repeats is gone. */
  datatype After = Kept(t: State, fired: bool) | Gone

  function Advance(t: State, precision: int): After {
    var pass := t.pass - precision;
    if pass > 0 then Kept(t.(pass := pass), false)
    else
      var repeat := if t.repeat != -1 then t.repeat - 1 else t.repeat;
      if repeat != -1 && repeat <= 0 then Gone else Kept(State(t.interval, pass + t.interval, repeat), true)
  }

  /** A timer over time: how often it has fired, and what it is now unless it is gone. */
  datatype Life = Alive(t: State, fired: nat) | Over(fired: nat)

  function Live(interval: int, repeat: int, precision: int, n: nat): Life {
    if n == 0 then Alive(Fresh(interval, repeat), 0)
    else
      var life := Live(interval, repeat, precision, n - 1);
      if life.Over? then life
      else
        match Advance(life.t, precision)
        case Gone => Over(life.fired + 1)
        case Kept(t, fired) => Alive(t, life.fired + if fired then 1 else 0)
  }

  /** Neither -1 nor 0 is ever used up: 0 becomes -1 at the first firing. */
  predicate Endless(repeat: int) {
    repeat == -1 || repeat == 0
  }

  /** How often any other timer fires; below -1 the first firing finds it used up. */
  function Limit(repeat: int): nat
    requires !Endless(repeat)
  {
    if repeat >= 1 then repeat else 1
  }

  /** The number of whole intervals in `n` ticks, of which at most one is noticed on each tick. */
  function Elapsed(interval: int, precision: int, n: nat): nat
    requires interval > 0 && precision > 0
  {
    var whole := n * precision / interval;
    if whole < n then whole else n
  }

  lemma DivStep(a: nat, p: int, b: int)
    requires 0 < p <= b
    ensures (a + p) / b == a / b + if a % b + p >= b then 1 else 0
    ensures (a + p) % b == a % b + p - if a % b + p >= b then b else 0
  {
    var q, r := a / b, a % b;
    assert a == b * q + r;
    if r + p >= b {
      DivModUnique(a + p, b, q + 1, r + p - b);
    } else {
      DivModUnique(a + p, b, q, r + p);
    }
  }

  lemma DivModUnique(a: int, b: int, q: int, r: int)
    requires b > 0 && 0 <= r < b && a == b * q + r
    ensures a / b == q && a % b == r
  {
    var d := a / b - q;
    assert b * d == r - a % b;
    assert d >= 1 ==> b * d >= b;
    assert d <= -1 ==> b * d <= -b;
  }

  lemma MulOrder(a: int, b: int, c: int)
    requires a <= b && c >= 0
    ensures c * a <= c * b
  {
    assert c * (b - a) >= 0;
  }

  lemma ManyWholeIntervals(interval: int, precision: int, n: nat)
    requires 0 < interval <= precision
    ensures n * precision / interval >= n
  {
    var d := n * precision / interval;
    MulOrder(interval, precision, n);
    assert n * precision < interval * (d + 1);
    if d < n {
      MulOrder(d + 1, n, interval);
    }
  }

  lemma ElapsedStep(interval: int, precision: int, n: nat)
    requires interval > 0 && precision > 0
    ensures precision <= interval ==>
      && Elapsed(interval, precision, n) == n * precision / interval
      && Elapsed(interval, precision, n + 1) == Elapsed(interval, precision, n)
           + (if n * precision % interval + precision >= interval then 1 else 0)
    ensures precision >= interval ==>
      Elapsed(interval, precision, n) == n && Elapsed(interval, precision, n + 1) == n + 1
  {
    assert (n + 1) * precision == n * precision + precision;
    if precision <= interval {
      DivStep(n * precision, precision, interval);
      FewWholeIntervals(interval, precision, n);
      FewWholeIntervals(interval, precision, n + 1);
    }
    if precision >= interval {
      ManyWholeIntervals(interval, precision, n);
      ManyWholeIntervals(interval, precision, n + 1);
    }
  }

  lemma FewWholeIntervals(interval: int, precision: int, n: nat)
    requires 0 < precision <= interval
    ensures n * precision / interval <= n
  {
    var d := n * precision / interval;
    MulOrder(precision, interval, n);
    assert interval * d <= n * precision;
    if d > n {
      MulOrder(n + 1, d, interval);
    }
  }

  /** What is left of the current interval after `n` ticks; intervals shorter than a tick run up a debt. */
  predicate PassIsExact(t: State, interval: int, precision: int, n: nat)
    requires interval > 0
  {
    && t.interval == interval
    && (precision <= interval ==> t.pass == interval - n * precision % interval)
    && (precision > interval ==> t.pass == interval - (n * precision - n * interval))
  }

  /** The repeats left after `k` firings. */
  function Left(repeat: int, k: nat): int {
    if repeat == -1 || (repeat == 0 && k > 0) then -1 else repeat - k
  }

  /** A timer fires on a tick exactly when one more interval has gone by, and then measures the next one. */
  lemma AdvanceIsExact(t: State, interval: int, precision: int, n: nat)
    requires interval > 0 && precision > 0 && PassIsExact(t, interval, precision, n)
    ensures var pass, k := t.pass - precision, Elapsed(interval, precision, n);
      && Elapsed(interval, precision, n + 1) == (if pass <= 0 then k + 1 else k)
      && PassIsExact(t.(pass := if pass <= 0 then pass + interval else pass), interval, precision, n + 1)
  {
    ElapsedStep(interval, precision, n);
    assert (n + 1) * precision == n * precision + precision;
    if precision <= interval {
      DivStep(n * precision, precision, interval);
    } else {
      assert (n + 1) * interval == n * interval + interval;
      MulOrder(interval, precision, n);
      assert n * interval <= n * precision;
    }
  }

  /**
   Repeating timers do not drift: after `n` ticks a timer has fired once for every whole interval gone by, at
   most once a tick and no more often than its repeats allow; it is gone exactly from its last firing on, and
   until then the current interval is measured exactly.
   */
  lemma {:induction false} FiresWithoutDrift(interval: int, repeat: int, precision: int, n: nat)
    requires interval > 0 && precision > 0
    ensures var life, k := Live(interval, repeat, precision, n), Elapsed(interval, precision, n);
      && (Endless(repeat) || k < Limit(repeat) ==>
            && life.Alive? && life.fired == k
            && PassIsExact(life.t, interval, precision, n) && life.t.repeat == Left(repeat, k))
      && (!Endless(repeat) && k >= Limit(repeat) ==> life == Over(Limit(repeat)))
  {
    if n == 0 {
      FreshIsExact(interval, repeat, precision);
    } else {
      FiresWithoutDrift(interval, repeat, precision, n - 1);
      var life, k := Live(interval, repeat, precision, n - 1), Elapsed(interval, precision, n - 1);
      if Endless(repeat) || k < Limit(repeat) {
        AdvanceIsExact(life.t, interval, precision, n - 1);
      } else {
        ElapsedGrows(interval, precision, n - 1);
      }
    }
  }

  lemma FreshIsExact(interval: int, repeat: int, precision: int)
    requires interval > 0 && precision > 0
    ensures Elapsed(interval, precision, 0) == 0 && PassIsExact(Fresh(interval, repeat), interval, precision, 0)
  {
    DivModUnique(0, interval, 0, 0);
  }

  lemma ElapsedGrows(interval: int, precision: int, n: nat)
    requires interval > 0 && precision > 0
    ensures Elapsed(interval, precision, n) <= Elapsed(interval, precision, n + 1)
  {
    ElapsedStep(interval, precision, n);
  }

  /** On every tick an interval that is not shorter than the tick has between 0 and the whole of it to go. */
  lemma PassStaysInRange(interval: int, repeat: int, precision: int, n: nat)
    requires 0 < precision <= interval && Live(interval, repeat, precision, n).Alive?
    ensures 0 < Live(interval, repeat, precision, n).t.pass <= interval
  {
    FiresWithoutDrift(interval, repeat, precision, n);
  }
}
