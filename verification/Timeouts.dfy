/**
 The life of timeouts, tick by tick.

 A callback may push timeouts itself, in the middle of the loop that calls the expired ones. What the callback
 of the entry `id` pushes is `react(id)`; an entry is called at most once, so this describes every behaviour.
 */
module Timeouts {
  import opened Seqs
  import opened TimerQueues

  /** When a timeout was pushed (the number of ticks before), and with which delay. */
  datatype Birth = Birth(tick: nat, delay: int)

  datatype Firing = Firing(id: nat, tick: nat)

  /** The queue, the number of ticks so far, every push so far (by id), and every call so far. */
  datatype Clock = Clock(q: seq<Entry>, now: nat, births: seq<Birth>, log: seq<Firing>)

  type Script = nat -> seq<int>

  const START := Clock([], 0, [], [])

  function Push(c: Clock, delay: int): Clock {
    c.(q := Insert(c.q, Entry(|c.births|, delay)), births := c.births + [Birth(c.now, delay)])
  }

  function PushAll(c: Clock, delays: seq<int>): Clock
    decreases |delays|
  {
    if delays == [] then c else PushAll(Push(c, delays[0]), delays[1..])
  }

  function Decrement(q: seq<Entry>, precision: int): (r: seq<Entry>)
    ensures |r| == |q|
    ensures forall i :: 0 <= i < |q| ==> r[i] == Entry(q[i].id, q[i].delay - precision)
  {
    if q == [] then [] else [Entry(q[0].id, q[0].delay - precision)] + Decrement(q[1..], precision)
  }

  /** How many entries have no delay left. */
  function Expired(q: seq<Entry>): (n: nat)
    ensures n <= |q|
  {
    if q == [] then 0 else (if q[|q| - 1].delay <= 0 then 1 else 0) + Expired(q[..|q| - 1])
  }

  /** The clock when the head of the queue has left it and is about to be called. */
  function Popped(c: Clock): Clock
    requires c.q != []
  {
    c.(q := c.q[1..], log := c.log + [Firing(c.q[0].id, c.now)])
  }

  /** The clock when the head of the queue has been called and its callback has returned. */
  function CallHead(c: Clock, react: Script): Clock
    requires c.q != []
  {
    PushAll(Popped(c), react(c.q[0].id))
  }

  function PopLoop(c: Clock, calls: nat, react: Script): Clock
    decreases calls
  {
    if calls == 0 || c.q == [] then c else PopLoop(CallHead(c, react), calls - 1, react)
  }

  function Decremented(c: Clock, precision: int): Clock {
    c.(q := Decrement(c.q, precision), now := c.now + 1)
  }

  function Tick(c: Clock, precision: int, react: Script): Clock {
    var d := Decremented(c, precision);
    PopLoop(d, Expired(d.q), react)
  }

  /** The clock after the first `n` ticks of a run; before each tick, the given delays are pushed from outside. */
  function RunTo(ticks: seq<seq<int>>, n: nat, precision: int, react: Script): Clock
    requires n <= |ticks|
  {
    if n == 0 then START
    else Tick(PushAll(RunTo(ticks, n - 1, precision, react), ticks[n - 1]), precision, react)
  }

  function Run(ticks: seq<seq<int>>, precision: int, react: Script): Clock {
    RunTo(ticks, |ticks|, precision, react)
  }

  // ---- One tick calls what had expired ----

  /** In a sorted queue the expired entries are the first ones. */
  lemma {:induction false} ExpiredFirst(q: seq<Entry>)
    requires Sorted(q)
    ensures forall i :: 0 <= i < |q| ==> (q[i].delay <= 0 <==> i < Expired(q))
  {
    if q != [] {
      var p := q[..|q| - 1];
      ExpiredFirst(p);
      if q[|q| - 1].delay <= 0 {
        forall i | 0 <= i < |p| ensures p[i].delay <= 0 {
          assert Before(q[i], q[|q| - 1]);
        }
        assert |p| > 0 ==> p[|p| - 1].delay <= 0;
      }
    }
  }

  function Firings(q: seq<Entry>, now: nat): (f: seq<Firing>)
    ensures |f| == |q|
    ensures forall i :: 0 <= i < |q| ==> f[i] == Firing(q[i].id, now)
  {
    if q == [] then [] else [Firing(q[0].id, now)] + Firings(q[1..], now)
  }

  /** No callback but the last pushes a timeout that overtakes the last of the expired entries `e`. */
  predicate NoOvertaking(e: seq<Entry>, react: Script) {
    forall j :: 0 <= j < |e| - 1 ==> forall k :: 0 <= k < |react(e[j].id)| ==> e[|e| - 1].delay <= react(e[j].id)[k]
  }

  lemma InsertBehind(a: seq<Entry>, b: seq<Entry>, e: Entry)
    requires forall i :: 0 <= i < |a| ==> a[i].delay <= e.delay
    ensures Insert(a + b, e) == a + Insert(b, e)
  {
    var p := Place(b, e.delay);
    forall j | 0 <= j < |a| + p ensures (a + b)[j].delay <= e.delay {
      assert j >= |a| ==> (a + b)[j] == b[j - |a|];
    }
    PlaceIsUnique(a + b, e.delay, |a| + p);
    assert (a + b)[..|a| + p] == a + b[..p] && (a + b)[|a| + p..] == b[p..];
  }

  /** Pushes that overtake none of `a` stay behind it. */
  lemma {:induction false} PushAllBehind(c: Clock, a: seq<Entry>, delays: seq<int>)
    requires a <= c.q
    requires forall i, k :: 0 <= i < |a| && 0 <= k < |delays| ==> a[i].delay <= delays[k]
    ensures a <= PushAll(c, delays).q
    decreases |delays|
  {
    if delays != [] {
      var e := Entry(|c.births|, delays[0]);
      forall i | 0 <= i < |a| ensures a[i].delay <= e.delay {
        assert a[i].delay <= delays[0];
      }
      InsertBehind(a, c.q[|a|..], e);
      assert a + c.q[|a|..] == c.q;
      forall i, k | 0 <= i < |a| && 0 <= k < |delays[1..]| ensures a[i].delay <= delays[1..][k] {
        assert delays[1..][k] == delays[k + 1];
      }
      PushAllBehind(Push(c, delays[0]), a, delays[1..]);
    }
  }

  lemma {:induction false} PushAllKeeps(c: Clock, delays: seq<int>)
    ensures var d := PushAll(c, delays); d.log == c.log && d.now == c.now && |d.births| >= |c.births|
    decreases |delays|
  {
    if delays != [] {
      PushAllKeeps(Push(c, delays[0]), delays[1..]);
    }
  }

  lemma NoOvertakingAfter(e: seq<Entry>, react: Script)
    requires e != [] && Sorted(e) && NoOvertaking(e, react)
    ensures Sorted(e[1..]) && NoOvertaking(e[1..], react)
    ensures forall i, k :: 0 <= i < |e| - 1 && 0 <= k < |react(e[0].id)| ==> e[1..][i].delay <= react(e[0].id)[k]
  {
    var rest := e[1..];
    forall j | 0 <= j < |rest| - 1
      ensures forall k :: 0 <= k < |react(rest[j].id)| ==> rest[|rest| - 1].delay <= react(rest[j].id)[k]
    {
      assert rest[j] == e[j + 1];
    }
    forall i, k | 0 <= i < |rest| && 0 <= k < |react(e[0].id)| ensures rest[i].delay <= react(e[0].id)[k] {
      assert i < |rest| - 1 ==> Before(e[i + 1], e[|e| - 1]);
    }
  }

  /** If nothing overtakes, the loop calls exactly the entries `e` that were at the front, in their order. */
  lemma {:induction false} CallsTheFront(c: Clock, e: seq<Entry>, react: Script)
    requires e <= c.q && Sorted(e) && NoOvertaking(e, react)
    ensures PopLoop(c, |e|, react).log == c.log + Firings(e, c.now)
    decreases |e|
  {
    if e != [] {
      var rest := e[1..];
      var popped := Popped(c);
      NoOvertakingAfter(e, react);
      PushAllBehind(popped, rest, react(e[0].id));
      PushAllKeeps(popped, react(e[0].id));
      CallsTheFront(CallHead(c, react), rest, react);
      Assoc(c.log, [Firing(e[0].id, c.now)], Firings(rest, c.now));
    }
  }

  // ---- and only then: an entry pushed out of the front is not called ----

  /** `id` is not among the first `n` entries. */
  predicate Outside(q: seq<Entry>, n: nat, id: nat) {
    forall i :: 0 <= i < n && i < |q| ==> q[i].id != id
  }

  predicate Logged(log: seq<Firing>, id: nat) {
    exists i :: 0 <= i < |log| && log[i].id == id
  }

  lemma {:induction false} PushAllStaysOutside(c: Clock, delays: seq<int>, n: nat, id: nat)
    requires Outside(c.q, n, id) && id < |c.births|
    ensures Outside(PushAll(c, delays).q, n, id)
    decreases |delays|
  {
    if delays != [] {
      var d := Push(c, delays[0]);
      var p := Place(c.q, delays[0]);
      forall i | 0 <= i < n && i < |d.q| ensures d.q[i].id != id {
        assert d.q[i] == if i < p then c.q[i] else if i == p then Entry(|c.births|, delays[0]) else c.q[i - 1];
      }
      PushAllStaysOutside(d, delays[1..], n, id);
    }
  }

  lemma {:induction false} OutsideIsNotCalled(c: Clock, calls: nat, react: Script, id: nat)
    requires Outside(c.q, calls, id) && id < |c.births| && !Logged(c.log, id)
    ensures !Logged(PopLoop(c, calls, react).log, id)
    decreases calls
  {
    if calls > 0 && c.q != [] {
      var popped := Popped(c);
      forall i | 0 <= i < calls - 1 && i < |popped.q| ensures popped.q[i].id != id {
        assert popped.q[i] == c.q[i + 1];
      }
      PushAllStaysOutside(popped, react(c.q[0].id), calls - 1, id);
      PushAllKeeps(popped, react(c.q[0].id));
      OutsideIsNotCalled(CallHead(c, react), calls - 1, react, id);
    }
  }

  /** A push that overtakes the last entry of the front `a` puts it outside the front. */
  lemma OnePushesOut(c: Clock, a: seq<Entry>, delay: int)
    requires a != [] && a <= c.q && Ids(c.q, |c.births|) && delay < a[|a| - 1].delay
    ensures Outside(Push(c, delay).q, |a|, a[|a| - 1].id)
  {
    var x, d, p := a[|a| - 1], Push(c, delay), Place(c.q, delay);
    assert c.q[|a| - 1] == x;
    PlaceBefore(c.q, delay, |a| - 1);
    forall i | 0 <= i < |a| && i < |d.q| ensures d.q[i].id != x.id {
      assert d.q[i] == if i < p then c.q[i] else if i == p then Entry(|c.births|, delay) else c.q[i - 1];
    }
  }

  lemma OneStaysBehind(c: Clock, a: seq<Entry>, delay: int)
    requires a != [] && a <= c.q && Sorted(a) && a[|a| - 1].delay <= delay
    ensures a <= Push(c, delay).q
  {
    forall i | 0 <= i < |a| ensures a[i].delay <= delay {
      assert i < |a| - 1 ==> Before(a[i], a[|a| - 1]);
    }
    InsertBehind(a, c.q[|a|..], Entry(|c.births|, delay));
    assert a + c.q[|a|..] == c.q;
  }

  lemma {:induction false} OvertakingPushesOut(c: Clock, a: seq<Entry>, delays: seq<int>, k: nat)
    requires a != [] && a <= c.q && Sorted(a) && Ids(c.q, |c.births|)
    requires k < |delays| && delays[k] < a[|a| - 1].delay
    ensures Outside(PushAll(c, delays).q, |a|, a[|a| - 1].id)
    decreases |delays|
  {
    var d := Push(c, delays[0]);
    if delays[0] < a[|a| - 1].delay {
      OnePushesOut(c, a, delays[0]);
      assert c.q[|a| - 1] == a[|a| - 1];
      PushAllStaysOutside(d, delays[1..], |a|, a[|a| - 1].id);
    } else {
      OneStaysBehind(c, a, delays[0]);
      PushKeepsIds(c, delays[0]);
      OvertakingPushesOut(d, a, delays[1..], k - 1);
    }
  }

  /** The ids in a queue are distinct and below `n`. */
  predicate Ids(q: seq<Entry>, n: nat) {
    && (forall i :: 0 <= i < |q| ==> q[i].id < n)
    && (forall i, j :: 0 <= i < j < |q| ==> q[i].id != q[j].id)
  }

  lemma PushKeepsIds(c: Clock, delay: int)
    requires Ids(c.q, |c.births|)
    ensures Ids(Push(c, delay).q, |Push(c, delay).births|)
  {
  }

  lemma {:induction false} PushAllKeepsIds(c: Clock, delays: seq<int>)
    requires Ids(c.q, |c.births|)
    ensures Ids(PushAll(c, delays).q, |PushAll(c, delays).births|)
    decreases |delays|
  {
    if delays != [] {
      PushKeepsIds(c, delays[0]);
      PushAllKeepsIds(Push(c, delays[0]), delays[1..]);
    }
  }

  /** A callback that overtakes the last entry of the front. */
  lemma CallOvertakes(c: Clock, e: seq<Entry>, react: Script, k: nat)
    requires |e| > 1 && e <= c.q && Sorted(e) && Ids(c.q, |c.births|) && !Logged(c.log, e[|e| - 1].id)
    requires k < |react(e[0].id)| && react(e[0].id)[k] < e[|e| - 1].delay
    ensures !Logged(PopLoop(c, |e|, react).log, e[|e| - 1].id)
  {
    var rest, x := e[1..], e[|e| - 1];
    var popped := Popped(c);
    assert x == rest[|rest| - 1] == c.q[|e| - 1] && rest <= popped.q;
    PushAllKeeps(popped, react(e[0].id));
    OvertakingPushesOut(popped, rest, react(e[0].id), k);
    OutsideIsNotCalled(CallHead(c, react), |rest|, react, x.id);
  }

  /** After one that does not, the rest of the front is still there. */
  lemma CallLeavesFront(c: Clock, e: seq<Entry>, react: Script)
    requires |e| > 1 && e <= c.q && Sorted(e) && Ids(c.q, |c.births|) && !Logged(c.log, e[|e| - 1].id)
    requires forall k :: 0 <= k < |react(e[0].id)| ==> e[|e| - 1].delay <= react(e[0].id)[k]
    ensures var next := CallHead(c, react);
      e[1..] <= next.q && Ids(next.q, |next.births|) && !Logged(next.log, e[|e| - 1].id)
  {
    var rest, pushed := e[1..], react(e[0].id);
    var popped := Popped(c);
    assert c.q[|e| - 1] == e[|e| - 1] == rest[|rest| - 1] && rest <= popped.q;
    PushAllKeeps(popped, pushed);
    PushAllKeepsIds(popped, pushed);
    NotBeforeLast(rest, pushed);
    PushAllBehind(popped, rest, pushed);
  }

  /** If something overtakes, the last of the entries at the front is not called by the loop. */
  lemma {:induction false} OvertakenIsNotCalled(c: Clock, e: seq<Entry>, react: Script)
    requires e != [] && e <= c.q && Sorted(e) && !NoOvertaking(e, react)
    requires Ids(c.q, |c.births|) && !Logged(c.log, e[|e| - 1].id)
    ensures !Logged(PopLoop(c, |e|, react).log, e[|e| - 1].id)
    decreases |e|
  {
    var pushed := react(e[0].id);
    if k :| 0 <= k < |pushed| && pushed[k] < e[|e| - 1].delay && |e| > 1 {
      CallOvertakes(c, e, react, k);
    } else {
      OvertakingIsLater(e, react);
      CallLeavesFront(c, e, react);
      OvertakenIsNotCalled(CallHead(c, react), e[1..], react);
    }
  }

  lemma NotBeforeLast(e: seq<Entry>, delays: seq<int>)
    requires e != [] && Sorted(e)
    requires forall k :: 0 <= k < |delays| ==> e[|e| - 1].delay <= delays[k]
    ensures forall i, k :: 0 <= i < |e| && 0 <= k < |delays| ==> e[i].delay <= delays[k]
  {
    forall i, k | 0 <= i < |e| && 0 <= k < |delays| ensures e[i].delay <= delays[k] {
      assert i < |e| - 1 ==> Before(e[i], e[|e| - 1]);
    }
  }

  lemma OvertakingIsLater(e: seq<Entry>, react: Script)
    requires |e| > 1 && !NoOvertaking(e, react)
    requires forall k :: 0 <= k < |react(e[0].id)| ==> e[|e| - 1].delay <= react(e[0].id)[k]
    ensures !NoOvertaking(e[1..], react)
  {
    var j, k :| 0 <= j < |e| - 1 && 0 <= k < |react(e[j].id)| && react(e[j].id)[k] < e[|e| - 1].delay;
    assert e[1..][j - 1] == e[j];
  }

  /** The loop calls exactly the entries `e` at the front, in their order, if and only if nothing overtakes. */
  lemma CallsTheFrontExactly(c: Clock, e: seq<Entry>, react: Script)
    requires e <= c.q && Sorted(e) && Ids(c.q, |c.births|)
    requires forall i :: 0 <= i < |e| ==> !Logged(c.log, e[i].id)
    ensures PopLoop(c, |e|, react).log == c.log + Firings(e, c.now) <==> NoOvertaking(e, react)
  {
    if NoOvertaking(e, react) {
      CallsTheFront(c, e, react);
    } else {
      var x := e[|e| - 1];
      OvertakenIsNotCalled(c, e, react);
      LastIsLogged(c.log, Firings(e, c.now), x.id);
    }
  }

  lemma DecrementKeepsIds(q: seq<Entry>, precision: int, n: nat)
    requires Sorted(q) && Ids(q, n)
    ensures Sorted(Decrement(q, precision)) && Ids(Decrement(q, precision), n)
  {
    DecrementSorted(q, precision);
  }

  /**
   One tick calls exactly the entries that had expired when they were counted, by remaining delay and, on ties,
   in the order of their pushes, if and only if no callback pushes a timeout that overtakes the last of them.
   */
  lemma TickCallsTheExpired(c: Clock, precision: int, react: Script)
    requires Sorted(c.q) && Ids(c.q, |c.births|)
    requires forall i :: 0 <= i < |c.q| ==> !Logged(c.log, c.q[i].id)
    ensures var d := Decremented(c, precision);
      var e := d.q[..Expired(d.q)];
      && Sorted(e)
      && (forall i :: 0 <= i < |d.q| ==> (d.q[i].delay <= 0 <==> i < |e|))
      && (Tick(c, precision, react).log == c.log + Firings(e, d.now) <==> NoOvertaking(e, react))
  {
    var d := Decremented(c, precision);
    DecrementKeepsIds(c.q, precision, |c.births|);
    ExpiredFirst(d.q);
    var e := d.q[..Expired(d.q)];
    forall i | 0 <= i < |e| ensures !Logged(d.log, e[i].id) {
      assert e[i].id == c.q[i].id;
    }
    CallsTheFrontExactly(d, e, react);
  }

  lemma DecrementSorted(q: seq<Entry>, precision: int)
    requires Sorted(q)
    ensures Sorted(Decrement(q, precision))
  {
    var r := Decrement(q, precision);
    forall i, j | 0 <= i < j < |r| ensures Before(r[i], r[j]) {
      assert Before(q[i], q[j]);
    }
  }

  lemma LastIsLogged(log: seq<Firing>, more: seq<Firing>, id: nat)
    requires more != [] && more[|more| - 1].id == id
    ensures Logged(log + more, id)
  {
    assert (log + more)[|log| + |more| - 1].id == id;
  }

  /** In particular when callbacks push no negative delays. */
  lemma NonNegativeNeverOvertakes(q: seq<Entry>, react: Script)
    requires Sorted(q)
    requires forall id, k :: 0 <= k < |react(id)| ==> 0 <= react(id)[k]
    ensures NoOvertaking(q[..Expired(q)], react)
  {
    ExpiredFirst(q);
  }

  /** But a callback that pushes a delay of -1 before an entry with no delay left takes its place. */
  lemma NegativeDelayOvertakes()
    ensures var react: Script := id => if id == 0 then [-1] else [];
      var c := PushAll(START, [0, 1]);
      Tick(c, 1, react).log == [Firing(0, 1), Firing(2, 1)]
  {
    var react: Script := id => if id == 0 then [-1] else [];
    var c := PushAll(START, [0, 1]);
    assert [0, 1][1..] == [1];
    assert Push(START, 0).q == [Entry(0, 0)];
    assert Place([Entry(0, 0)], 1) == 1;
    assert c.q == [Entry(0, 0), Entry(1, 1)];
    var d := Decremented(c, 1);
    assert d.q == [Entry(0, -1), Entry(1, 0)];
    assert d.q[..1][..0] == [];
    assert Expired(d.q[..1]) == 1;
    assert Expired(d.q) == 2;
    var popped := d.(q := d.q[1..], log := [Firing(0, 1)]);
    assert CallHead(d, react) == PushAll(popped, [-1]);
    assert PushAll(popped, [-1]) == Push(popped, -1);
    assert Push(popped, -1).q == [Entry(2, -1), Entry(1, 0)];
    assert PopLoop(CallHead(d, react), 1, react) == PopLoop(CallHead(CallHead(d, react), react), 0, react);
  }
}
