/** On which tick a timeout is called. Timeouts may be pushed with any delay, between ticks and by callbacks. */
module FiringTimes {
  import opened TimerQueues
  import opened Timeouts

  /** The number of ticks of length `p` that cover `d`. */
  function Ticks(d: int, p: int): (n: nat)
    requires p > 0
  {
    if d <= 0 then 0 else (d + p - 1) / p
  }

  /** The tick on which a timeout is due: `max(1, ceil(delay / precision))` after its push. */
  function Due(b: Birth, p: int): nat
    requires p > 0
  {
    b.tick + if Ticks(b.delay, p) >= 1 then Ticks(b.delay, p) else 1
  }

  ghost predicate NonNegative(react: Script) {
    forall id, k :: 0 <= k < |react(id)| ==> 0 <= react(id)[k]
  }

  predicate Queued(q: seq<Entry>, id: nat) {
    exists i :: 0 <= i < |q| && q[i].id == id
  }

  // ---- What holds of every clock, in the middle of a loop that still has `calls` entries to call ----

  predicate Ordered(c: Clock) {
    Sorted(c.q) && Ids(c.q, |c.births|)
  }

  predicate Dated(c: Clock, p: int)
    requires Ordered(c)
  {
    forall i :: 0 <= i < |c.q| ==>
      OnTime(c.births[c.q[i].id], c.q[i].delay, c.now, p)
  }

  /** What remains of a delay `now` ticks into the run. */
  predicate OnTime(b: Birth, left: int, now: nat, p: int) {
    b.tick <= now && left == b.delay - p * (now - b.tick)
  }

  predicate Waiting(c: Clock, p: int, calls: nat)
    requires p > 0 && Ordered(c)
  {
    && calls <= |c.q|
    && (forall i :: 0 <= i < calls ==> c.q[i].delay <= 0 && Due(c.births[c.q[i].id], p) == c.now)
    && (forall i :: calls <= i < |c.q| ==> Due(c.births[c.q[i].id], p) > c.now)
  }

  /** No timeout has been called twice, and none that was not pushed. */
  predicate LoggedOnce(c: Clock) {
    && (forall i :: 0 <= i < |c.log| ==> c.log[i].id < |c.births|)
    && (forall i, j :: 0 <= i < j < |c.log| ==> c.log[i].id != c.log[j].id)
  }

  predicate Punctual(c: Clock, p: int)
    requires p > 0 && LoggedOnce(c)
  {
    forall i :: 0 <= i < |c.log| ==> c.log[i].tick == Due(c.births[c.log[i].id], p) <= c.now
  }

  predicate Partition(c: Clock) {
    forall id {:trigger Queued(c.q, id)} :: 0 <= id < |c.births| ==> (Queued(c.q, id) <==> !Logged(c.log, id))
  }

  /** What holds whatever callbacks push. */
  predicate Steady(c: Clock) {
    Ordered(c) && LoggedOnce(c) && Partition(c)
  }

  predicate Good(c: Clock, p: int, calls: nat)
    requires p > 0
  {
    Steady(c) && Dated(c, p) && Waiting(c, p, calls) && Punctual(c, p)
  }

  // ---- A push ----

  lemma PushedQueue(c: Clock, delay: int, id: nat)
    ensures Queued(Push(c, delay).q, id) <==> Queued(c.q, id) || id == |c.births|
  {
    var d, p := Push(c, delay), Place(c.q, delay);
    if i :| 0 <= i < |c.q| && c.q[i].id == id {
      assert d.q[if i < p then i else i + 1].id == id;
    }
    assert d.q[p].id == |c.births|;
  }

  lemma PushedAt(c: Clock, delay: int, i: nat)
    requires i < |Push(c, delay).q|
    ensures var at := Place(c.q, delay);
      Push(c, delay).q[i] == if i < at then c.q[i] else if i == at then Entry(|c.births|, delay) else c.q[i - 1]
  {
  }

  lemma PushKeepsOrder(c: Clock, delay: int)
    requires Ordered(c)
    ensures Ordered(Push(c, delay))
  {
    InsertSorts(c.q, Entry(|c.births|, delay));
    PushKeepsIds(c, delay);
  }

  lemma PushKeepsDates(c: Clock, delay: int, p: int)
    requires p > 0 && Ordered(c) && Dated(c, p) && Ordered(Push(c, delay))
    ensures Dated(Push(c, delay), p)
  {
    var d := Push(c, delay);
    forall i | 0 <= i < |d.q|
      ensures OnTime(d.births[d.q[i].id], d.q[i].delay, d.now, p)
    {
      assert OnTime(Birth(c.now, delay), delay, c.now, p);
      PushedAt(c, delay, i);
    }
  }

  /** None of the first `calls` entries waits longer than `delay`. */
  predicate NotAhead(q: seq<Entry>, calls: nat, delay: int) {
    forall i :: 0 <= i < calls && i < |q| ==> q[i].delay <= delay
  }

  lemma PushKeepsWaiting(c: Clock, delay: int, p: int, calls: nat)
    requires p > 0 && Ordered(c) && Waiting(c, p, calls) && Ordered(Push(c, delay)) && NotAhead(c.q, calls, delay)
    ensures Waiting(Push(c, delay), p, calls)
  {
    var d, at := Push(c, delay), Place(c.q, delay);
    PlaceBehind(c.q, delay, calls);
    forall i | 0 <= i < |d.q|
      ensures if i < calls then d.q[i].delay <= 0 && Due(d.births[d.q[i].id], p) == d.now
              else Due(d.births[d.q[i].id], p) > d.now
    {
      PushedAt(c, delay, i);
    }
  }

  lemma PushKeepsFront(c: Clock, delay: int, calls: nat, other: int)
    requires calls <= |c.q| && NotAhead(c.q, calls, delay) && NotAhead(c.q, calls, other)
    ensures NotAhead(Push(c, delay).q, calls, other)
  {
    PlaceBehind(c.q, delay, calls);
    forall i | 0 <= i < calls ensures Push(c, delay).q[i] == c.q[i] {
      PushedAt(c, delay, i);
    }
  }

  lemma PushIsGood(c: Clock, delay: int, p: int, calls: nat)
    requires p > 0 && Good(c, p, calls) && NotAhead(c.q, calls, delay)
    ensures Good(Push(c, delay), p, calls)
  {
    PushIsSteady(c, delay);
    PushKeepsDates(c, delay, p);
    PushKeepsWaiting(c, delay, p, calls);
  }

  lemma PushIsSteady(c: Clock, delay: int)
    requires Steady(c)
    ensures Steady(Push(c, delay))
  {
    var d := Push(c, delay);
    PushKeepsOrder(c, delay);
    forall id: nat | id < |d.births| ensures Queued(d.q, id) <==> !Logged(d.log, id) {
      PushedQueue(c, delay, id);
      assert id < |c.births| ==> (Queued(c.q, id) <==> !Logged(c.log, id));
    }
  }

  lemma {:induction false} PushAllIsSteady(c: Clock, delays: seq<int>)
    requires Steady(c)
    ensures Steady(PushAll(c, delays))
    decreases |delays|
  {
    if delays != [] {
      PushIsSteady(c, delays[0]);
      PushAllIsSteady(Push(c, delays[0]), delays[1..]);
    }
  }

  lemma {:induction false} PushAllIsGood(c: Clock, delays: seq<int>, p: int, calls: nat)
    requires p > 0 && Good(c, p, calls)
    requires forall k :: 0 <= k < |delays| ==> NotAhead(c.q, calls, delays[k])
    ensures Good(PushAll(c, delays), p, calls)
    decreases |delays|
  {
    if delays != [] {
      var d, more := Push(c, delays[0]), delays[1..];
      PushIsGood(c, delays[0], p, calls);
      forall k | 0 <= k < |more| ensures NotAhead(d.q, calls, more[k]) {
        PushKeepsFront(c, delays[0], calls, delays[k + 1]);
      }
      PushAllIsGood(d, more, p, calls);
    }
  }

  // ---- A call ----

  lemma PoppedIsSteady(c: Clock)
    requires Steady(c) && c.q != []
    ensures Steady(Popped(c))
  {
    var x, d := c.q[0].id, Popped(c);
    assert forall i :: 0 <= i < |d.q| ==> d.q[i] == c.q[i + 1];
    assert Queued(c.q, x);
    forall i | 0 <= i < |c.log| ensures c.log[i].id != x {
      assert !Logged(c.log, x);
    }
    PopKeepsPartition(c);
  }

  lemma PopKeepsPartition(c: Clock)
    requires Partition(c) && Ordered(c) && c.q != []
    ensures Partition(Popped(c))
  {
    var x, log := c.q[0].id, Popped(c).log;
    forall id: nat | id < |c.births| ensures Queued(c.q[1..], id) <==> !Logged(log, id) {
      assert Queued(c.q, id) <==> !Logged(c.log, id);
      if i :| 0 <= i < |c.q| && c.q[i].id == id && id != x {
        assert c.q[1..][i - 1].id == id;
      }
      if i :| 0 <= i < |c.log| && c.log[i].id == id {
        assert log[i].id == id;
      }
      assert log[|c.log|].id == x;
    }
  }

  lemma PoppedIsGood(c: Clock, p: int, calls: nat)
    requires p > 0 && Good(c, p, calls) && calls > 0
    ensures Good(Popped(c), p, calls - 1)
  {
    PoppedIsSteady(c);
    assert forall i :: 0 <= i < |c.q| - 1 ==> Popped(c).q[i] == c.q[i + 1];
  }

  lemma {:induction false} PopLoopIsSteady(c: Clock, calls: nat, react: Script)
    requires Steady(c)
    ensures Steady(PopLoop(c, calls, react))
    decreases calls
  {
    if calls > 0 && c.q != [] {
      PoppedIsSteady(c);
      PushAllIsSteady(Popped(c), react(c.q[0].id));
      PopLoopIsSteady(CallHead(c, react), calls - 1, react);
    }
  }

  lemma CallIsGood(c: Clock, calls: nat, p: int, react: Script)
    requires p > 0 && Good(c, p, calls) && calls > 0 && NoOvertaking(c.q[..calls], react)
    ensures var next := CallHead(c, react);
      && Good(next, p, calls - 1) && next.now == c.now
      && NoOvertaking(next.q[..calls - 1], react)
  {
    var e, pushed := c.q[..calls], react(c.q[0].id);
    var popped := Popped(c);
    PoppedIsGood(c, p, calls);
    NoOvertakingAfter(e, react);
    assert e[1..] == popped.q[..calls - 1];
    forall k | 0 <= k < |pushed| ensures NotAhead(popped.q, calls - 1, pushed[k]) {
      assert forall i :: 0 <= i < calls - 1 ==> popped.q[i] == e[1..][i];
    }
    PushAllIsGood(popped, pushed, p, calls - 1);
    PushAllBehind(popped, e[1..], pushed);
    PushAllKeeps(popped, pushed);
    assert CallHead(c, react).q[..calls - 1] == e[1..];
  }

  lemma {:induction false} PopLoopIsGood(c: Clock, calls: nat, p: int, react: Script)
    requires p > 0 && Good(c, p, calls) && NoOvertaking(c.q[..calls], react)
    ensures Good(PopLoop(c, calls, react), p, 0)
    ensures PopLoop(c, calls, react).now == c.now
    decreases calls
  {
    if calls > 0 {
      CallIsGood(c, calls, p, react);
      PopLoopIsGood(CallHead(c, react), calls - 1, p, react);
    }
  }

  // ---- A tick ----

  /** `n` ticks cover `d` exactly when they last at least as long. */
  lemma TicksCover(d: int, p: int, n: nat)
    requires p > 0
    ensures Ticks(d, p) <= n <==> d <= p * n
  {
    if d > 0 {
      var t := (d + p - 1) / p;
      assert p * t <= d + p - 1 < p * t + p;
      if t <= n {
        Longer(p, t, n);
      } else {
        Longer(p, n + 1, t);
        Shorten(p, n);
      }
    } else {
      Longer(p, 0, n);
    }
  }

  lemma Longer(p: int, a: int, b: int)
    requires p > 0 && a <= b
    ensures p * a <= p * b
  {
  }

  /** An entry that was not yet due has no delay left on the next tick exactly when it is due then. */
  lemma DueNow(b: Birth, p: int, now: nat, left: int)
    requires p > 0 && b.tick <= now && Due(b, p) > now
    requires left == b.delay - p * (now + 1 - b.tick)
    ensures left <= 0 <==> Due(b, p) == now + 1
  {
    TicksCover(b.delay, p, now + 1 - b.tick);
  }

  lemma Shorten(p: int, a: int)
    ensures p * (a + 1) == p * a + p
  {
  }

  lemma DecrementedIsGood(c: Clock, p: int)
    requires p > 0 && Good(c, p, 0)
    ensures var d := Decremented(c, p); Good(d, p, Expired(d.q))
  {
    var d := Decremented(c, p);
    DecrementSorted(c.q, p);
    ExpiredFirst(d.q);
    forall i | 0 <= i < |d.q|
      ensures OnTime(d.births[d.q[i].id], d.q[i].delay, d.now, p)
      ensures d.q[i].delay <= 0 <==> Due(d.births[d.q[i].id], p) == d.now
      ensures Due(d.births[d.q[i].id], p) >= d.now
    {
      var b := c.births[c.q[i].id];
      Shorten(p, c.now - b.tick);
      DueNow(b, p, c.now, d.q[i].delay);
    }
    DecrementIsSteady(c, p);
  }

  lemma DecrementIsSteady(c: Clock, p: int)
    requires Steady(c)
    ensures Steady(Decremented(c, p))
  {
    var d := Decremented(c, p);
    DecrementKeepsIds(c.q, p, |c.births|);
    forall id: nat | id < |d.births| ensures Queued(d.q, id) <==> !Logged(d.log, id) {
      assert Queued(c.q, id) <==> !Logged(c.log, id);
      if i :| 0 <= i < |c.q| && c.q[i].id == id {
        assert d.q[i].id == id;
      }
    }
  }

  /** The clock when tick `n + 1` of the run has counted the expired entries. */
  function CountedAt(ticks: seq<seq<int>>, n: nat, p: int, react: Script): Clock
    requires n < |ticks|
  {
    Decremented(PushAll(RunTo(ticks, n, p, react), ticks[n]), p)
  }

  /** In that tick no callback pushes a timeout that overtakes the last of them. */
  ghost predicate NothingOvertakes(ticks: seq<seq<int>>, n: nat, p: int, react: Script)
    requires n < |ticks|
  {
    var d := CountedAt(ticks, n, p, react);
    NoOvertaking(d.q[..Expired(d.q)], react)
  }

  /** Nor in any of the first `n` ticks. */
  ghost predicate NeverOvertakes(ticks: seq<seq<int>>, n: nat, p: int, react: Script)
    requires n <= |ticks|
  {
    n > 0 ==> NeverOvertakes(ticks, n - 1, p, react) && NothingOvertakes(ticks, n - 1, p, react)
  }

  lemma CountedIsGood(ticks: seq<seq<int>>, n: nat, p: int, react: Script)
    requires p > 0 && n < |ticks| && Good(RunTo(ticks, n, p, react), p, 0) && RunTo(ticks, n, p, react).now == n
    ensures var d := CountedAt(ticks, n, p, react); Good(d, p, Expired(d.q)) && d.now == n + 1
  {
    var c := RunTo(ticks, n, p, react);
    PushAllIsGood(c, ticks[n], p, 0);
    PushAllKeeps(c, ticks[n]);
    DecrementedIsGood(PushAll(c, ticks[n]), p);
  }

  /** The run one tick on. */
  lemma RunTicks(ticks: seq<seq<int>>, n: nat, p: int, react: Script)
    requires n < |ticks|
    ensures var d := CountedAt(ticks, n, p, react);
      RunTo(ticks, n + 1, p, react) == PopLoop(d, Expired(d.q), react)
  {
  }

  /** As long as nothing overtakes. */
  lemma {:induction false} RunIsGood(ticks: seq<seq<int>>, n: nat, p: int, react: Script)
    requires p > 0 && n <= |ticks| && NeverOvertakes(ticks, n, p, react)
    ensures Good(RunTo(ticks, n, p, react), p, 0)
    ensures RunTo(ticks, n, p, react).now == n
  {
    if n > 0 {
      RunIsGood(ticks, n - 1, p, react);
      CountedIsGood(ticks, n - 1, p, react);
      var d := CountedAt(ticks, n - 1, p, react);
      PopLoopIsGood(d, Expired(d.q), p, react);
      RunTicks(ticks, n - 1, p, react);
    }
  }

  // ---- Every tick, also after something has overtaken ----

  /**
   In every run, whatever is pushed: the queue is sorted, every timeout pushed is either queued, once, or has been
   called, once, and never both.
   */
  lemma {:induction false} RunIsSteady(ticks: seq<seq<int>>, n: nat, p: int, react: Script)
    requires n <= |ticks|
    ensures Steady(RunTo(ticks, n, p, react))
  {
    if n > 0 {
      var c := RunTo(ticks, n - 1, p, react);
      RunIsSteady(ticks, n - 1, p, react);
      PushAllIsSteady(c, ticks[n - 1]);
      DecrementIsSteady(PushAll(c, ticks[n - 1]), p);
      var d := CountedAt(ticks, n - 1, p, react);
      PopLoopIsSteady(d, Expired(d.q), react);
      RunTicks(ticks, n - 1, p, react);
    }
  }

  lemma SteadyIsUncalled(c: Clock, i: nat)
    requires Steady(c) && i < |c.q|
    ensures !Logged(c.log, c.q[i].id)
  {
    assert Queued(c.q, c.q[i].id);
  }

  /**
   Every tick of every run calls exactly the entries expired on it, in their order, if and only if on that tick no
   callback pushes a timeout that overtakes the last of them.
   */
  lemma EveryTickCallsTheExpired(ticks: seq<seq<int>>, n: nat, p: int, react: Script)
    requires n < |ticks|
    ensures var d := CountedAt(ticks, n, p, react);
      var e := d.q[..Expired(d.q)];
      && Sorted(e)
      && (forall i :: 0 <= i < |d.q| ==> (d.q[i].delay <= 0 <==> i < |e|))
      && (RunTo(ticks, n + 1, p, react).log == RunTo(ticks, n, p, react).log + Firings(e, d.now)
          <==> NothingOvertakes(ticks, n, p, react))
  {
    var c := RunTo(ticks, n, p, react);
    var pushed := PushAll(c, ticks[n]);
    RunIsSteady(ticks, n, p, react);
    PushAllIsSteady(c, ticks[n]);
    PushAllKeeps(c, ticks[n]);
    forall i | 0 <= i < |pushed.q| ensures !Logged(pushed.log, pushed.q[i].id) {
      SteadyIsUncalled(pushed, i);
    }
    TickCallsTheExpired(pushed, p, react);
    RunTicks(ticks, n, p, react);
  }

  // ---- What later ticks add ----

  /** Pushes are only added, and calls only on ticks after `n`. */
  predicate Later(c: Clock, d: Clock, n: nat) {
    && c.births <= d.births && c.log <= d.log
    && forall i :: |c.log| <= i < |d.log| ==> d.log[i].tick > n
  }

  lemma {:induction false} PushAllAdds(c: Clock, delays: seq<int>)
    ensures var d := PushAll(c, delays); c.births <= d.births && d.log == c.log && d.now == c.now
    decreases |delays|
  {
    if delays != [] {
      PushAllAdds(Push(c, delays[0]), delays[1..]);
    }
  }

  lemma {:induction false} PopLoopAdds(c: Clock, calls: nat, react: Script, n: nat)
    requires c.now > n
    ensures Later(c, PopLoop(c, calls, react), n) && PopLoop(c, calls, react).now == c.now
    decreases calls
  {
    if calls > 0 && c.q != [] {
      var popped := Popped(c);
      PushAllAdds(popped, react(c.q[0].id));
      PopLoopAdds(CallHead(c, react), calls - 1, react, n);
    }
  }

  lemma LaterTwice(c: Clock, d: Clock, e: Clock, n: nat, m: nat)
    requires Later(c, d, n) && Later(d, e, m) && n <= m
    ensures Later(c, e, n)
  {
    assert forall i :: |c.log| <= i < |d.log| ==> e.log[i] == d.log[i];
  }

  lemma TickAdds(ticks: seq<seq<int>>, n: nat, p: int, react: Script)
    requires n < |ticks| && RunTo(ticks, n, p, react).now == n
    ensures Later(RunTo(ticks, n, p, react), RunTo(ticks, n + 1, p, react), n)
    ensures RunTo(ticks, n + 1, p, react).now == n + 1
  {
    var d := CountedAt(ticks, n, p, react);
    PushAllAdds(RunTo(ticks, n, p, react), ticks[n]);
    PopLoopAdds(d, Expired(d.q), react, n);
    RunTicks(ticks, n, p, react);
  }

  lemma {:induction false} RunNow(ticks: seq<seq<int>>, n: nat, p: int, react: Script)
    requires n <= |ticks|
    ensures RunTo(ticks, n, p, react).now == n
  {
    if n > 0 {
      RunNow(ticks, n - 1, p, react);
      TickAdds(ticks, n - 1, p, react);
    }
  }

  /** What each clock of a sequence adds to the one before, the last adds to all. */
  lemma {:induction false} ChainAdds(cs: seq<Clock>, n: nat, m: nat)
    requires n <= m < |cs| && forall i :: 0 <= i < |cs| - 1 ==> Later(cs[i], cs[i + 1], i)
    ensures Later(cs[n], cs[m], n)
  {
    if n < m {
      ChainAdds(cs, n, m - 1);
      assert Later(cs[m - 1], cs[m - 1 + 1], m - 1);
      LaterTwice(cs[n], cs[m - 1], cs[m], n, m - 1);
    }
  }

  lemma RunAdds(ticks: seq<seq<int>>, n: nat, p: int, react: Script)
    requires n <= |ticks|
    ensures Later(RunTo(ticks, n, p, react), Run(ticks, p, react), n)
  {
    var cs := seq(|ticks| + 1, i requires 0 <= i <= |ticks| => RunTo(ticks, i, p, react));
    forall i | 0 <= i < |cs| - 1 ensures Later(cs[i], cs[i + 1], i) {
      RunNow(ticks, i, p, react);
      TickAdds(ticks, i, p, react);
    }
    ChainAdds(cs, n, |ticks|);
  }

  // ---- Every run ----

  /**
   `n` ticks into a run the timeout has been called exactly once, on its due tick, if that tick has come;
   otherwise it has not been called and is in the queue exactly once.
   */
  predicate OnDueTick(c: Clock, id: nat, n: nat, p: int)
    requires p > 0 && id < |c.births|
  {
    var due := Due(c.births[id], p);
    && (due <= n ==>
          && (exists i :: 0 <= i < |c.log| && c.log[i] == Firing(id, due))
          && (forall i, j :: 0 <= i < |c.log| && 0 <= j < |c.log| && c.log[i].id == id == c.log[j].id ==> i == j)
          && !Queued(c.q, id))
    && (due > n ==>
          && !Logged(c.log, id)
          && Queued(c.q, id)
          && (forall i, j :: 0 <= i < |c.q| && 0 <= j < |c.q| && c.q[i].id == id == c.q[j].id ==> i == j))
  }

  lemma GoodIsOnDueTick(c: Clock, id: nat, p: int)
    requires p > 0 && Good(c, p, 0) && id < |c.births|
    ensures OnDueTick(c, id, c.now, p)
  {
    assert Queued(c.q, id) <==> !Logged(c.log, id);
    if Queued(c.q, id) {
      assert Due(c.births[id], p) > c.now;
    } else {
      var i :| 0 <= i < |c.log| && c.log[i].id == id;
      assert c.log[i] == Firing(id, Due(c.births[id], p));
    }
  }

  /** If something overtakes, the last of the expired entries is due on this tick and not called on it. */
  lemma OvertakenMissesItsTick(d: Clock, p: int, react: Script) returns (id: nat)
    requires p > 0 && Good(d, p, Expired(d.q)) && !NoOvertaking(d.q[..Expired(d.q)], react)
    ensures id < |d.births| && Due(d.births[id], p) == d.now
    ensures !Logged(PopLoop(d, Expired(d.q), react).log, id)
  {
    var e := d.q[..Expired(d.q)];
    var i := |e| - 1;
    id := d.q[i].id;
    assert e[i] == d.q[i] && Queued(d.q, id);
    OvertakenIsNotCalled(d, e, react);
  }

  /** A timeout that misses its tick is not called on it later. */
  lemma MissedForGood(ticks: seq<seq<int>>, n: nat, p: int, react: Script, id: nat)
    requires p > 0 && n < |ticks|
    requires var c := RunTo(ticks, n + 1, p, react);
      id < |c.births| && Due(c.births[id], p) == n + 1 && !Logged(c.log, id)
    ensures var c := Run(ticks, p, react); id < |c.births| && !OnDueTick(c, id, |ticks|, p)
  {
    var c, d := RunTo(ticks, n + 1, p, react), Run(ticks, p, react);
    RunAdds(ticks, n + 1, p, react);
    forall i | 0 <= i < |d.log| ensures d.log[i] != Firing(id, n + 1) {
      assert i < |c.log| ==> d.log[i] == c.log[i] && c.log[i].id != id;
    }
  }

  /** Up to the first overtaking all is well, and from then on something is not. */
  lemma {:induction false} GoodOrMissed(ticks: seq<seq<int>>, n: nat, p: int, react: Script)
    requires p > 0 && n <= |ticks|
    ensures var c := Run(ticks, p, react);
      || NeverOvertakes(ticks, n, p, react)
      || exists id :: 0 <= id < |c.births| && !OnDueTick(c, id, |ticks|, p)
  {
    if n > 0 {
      GoodOrMissed(ticks, n - 1, p, react);
      if NeverOvertakes(ticks, n - 1, p, react) && !NothingOvertakes(ticks, n - 1, p, react) {
        RunIsGood(ticks, n - 1, p, react);
        MissesAt(ticks, n - 1, p, react);
      }
    }
  }

  lemma MissesAt(ticks: seq<seq<int>>, n: nat, p: int, react: Script)
    requires p > 0 && n < |ticks| && !NothingOvertakes(ticks, n, p, react)
    requires Good(RunTo(ticks, n, p, react), p, 0) && RunTo(ticks, n, p, react).now == n
    ensures var c := Run(ticks, p, react); exists id :: 0 <= id < |c.births| && !OnDueTick(c, id, |ticks|, p)
  {
    var d := CountedAt(ticks, n, p, react);
    CountedIsGood(ticks, n, p, react);
    RunTicks(ticks, n, p, react);
    PopLoopAdds(d, Expired(d.q), react, n);
    var id := OvertakenMissesItsTick(d, p, react);
    MissedForGood(ticks, n, p, react, id);
  }

  /**
   In a run every timeout is called exactly once, on its due tick, and queued exactly once until then, if and only
   if on no tick a callback pushes a timeout that overtakes the last of the entries expired on that tick.
   */
  lemma CalledOnTheDueTick(ticks: seq<seq<int>>, p: int, react: Script)
    requires p > 0
    ensures var c := Run(ticks, p, react);
      (forall id :: 0 <= id < |c.births| ==> OnDueTick(c, id, |ticks|, p))
      <==> NeverOvertakes(ticks, |ticks|, p, react)
  {
    var c := Run(ticks, p, react);
    GoodOrMissed(ticks, |ticks|, p, react);
    if NeverOvertakes(ticks, |ticks|, p, react) {
      RunIsGood(ticks, |ticks|, p, react);
      forall id | 0 <= id < |c.births| ensures OnDueTick(c, id, |ticks|, p) {
        GoodIsOnDueTick(c, id, p);
      }
    }
  }

  /** In particular when callbacks push no negative delays. */
  lemma NonNegativeIsOnTime(ticks: seq<seq<int>>, p: int, react: Script, id: nat)
    requires p > 0 && NonNegative(react) && id < |Run(ticks, p, react).births|
    ensures OnDueTick(Run(ticks, p, react), id, |ticks|, p)
  {
    NonNegativeRuns(ticks, |ticks|, p, react);
    CalledOnTheDueTick(ticks, p, react);
  }

  lemma {:induction false} NonNegativeRuns(ticks: seq<seq<int>>, n: nat, p: int, react: Script)
    requires p > 0 && NonNegative(react) && n <= |ticks|
    ensures NeverOvertakes(ticks, n, p, react)
  {
    if n > 0 {
      NonNegativeRuns(ticks, n - 1, p, react);
      RunIsGood(ticks, n - 1, p, react);
      NonNegativeTick(ticks, n - 1, p, react);
    }
  }

  lemma NonNegativeTick(ticks: seq<seq<int>>, n: nat, p: int, react: Script)
    requires p > 0 && n < |ticks| && NonNegative(react)
    requires Good(RunTo(ticks, n, p, react), p, 0) && RunTo(ticks, n, p, react).now == n
    ensures NothingOvertakes(ticks, n, p, react)
  {
    CountedIsGood(ticks, n, p, react);
    NonNegativeNeverOvertakes(CountedAt(ticks, n, p, react).q, react);
  }
}
