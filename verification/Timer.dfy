/**
 `BaseTimer`: the table of repeating timers and the queue of timeouts, and what one tick does to them.

 In ghost fields the timer carries the number of ticks and the history of pushes and calls, as the clock of module
 Timeouts does; `pushes` tells callbacks apart. Callbacks of repeating timers do not touch the timer here.
 */
module BaseTimers {
  import opened TimerQueues
  import opened Timeouts
  import opened RepeatingTimers

  class Timer<Id> {
    const id: Id
    const interval: int
    var pass: int
    var repeat: int

    constructor (id: Id, interval: int, repeat: int)
      ensures this.id == id && this.interval == interval && this.pass == interval && this.repeat == repeat
    {
      this.id, this.interval, this.pass, this.repeat := id, interval, interval, repeat;
    }

    ghost function View(): State
      reads this
    {
      State(interval, pass, repeat)
    }
  }

  /** What the first half of a tick makes of the timers in `ids`. */
  ghost predicate Ticked<Id>(
    before: map<Id, State>, after: map<Id, State>, fired: set<Id>, ids: set<Id>, precision: int)
  {
    && after.Keys <= before.Keys && fired <= ids <= before.Keys
    && (forall id :: id in before && id !in ids ==> id in after && after[id] == before[id])
    && (forall id :: id in ids ==>
          match Advance(before[id], precision)
          case Gone => id !in after && id in fired
          case Kept(t, f) => id in after && after[id] == t && (id in fired <==> f))
  }

  /** What it makes of one of them. */
  ghost predicate Moved<Id>(before: map<Id, State>, after: map<Id, State>, key: Id, fires: bool, precision: int)
    requires key in before
  {
    match Advance(before[key], precision)
    case Gone => fires && after == before - {key}
    case Kept(t, f) => fires == f && after == before[key := t]
  }

  lemma TickedMoves<Id>(
    before: map<Id, State>, mid: map<Id, State>, after: map<Id, State>, fired: set<Id>, ids: set<Id>,
    key: Id, fires: bool, precision: int)
    requires Ticked(before, mid, fired, ids, precision) && key in before && key !in ids
    requires Moved(mid, after, key, fires, precision)
    ensures Ticked(before, after, if fires then fired + {key} else fired, ids + {key}, precision)
  {
  }

  class BaseTimer<Id(==)> {
    const precision: int
    const react: Script
    var timers: map<Id, Timer<Id>>
    var start: bool
    const queue: TimerQueue
    var pushes: nat
    ghost var now: nat
    ghost var births: seq<Birth>
    ghost var log: seq<Firing>

    ghost predicate Valid()
      reads this, queue
    {
      && queue.Valid() && pushes == |births|
      && (forall i, j :: i in timers && j in timers && i != j ==> timers[i] != timers[j])
    }

    ghost function Clock(): Clock
      reads this, queue, queue.items
    {
      Timeouts.Clock(queue.View(), now, births, log)
    }

    ghost function Table(): map<Id, State>
      reads this, timers.Values
    {
      map id | id in timers :: timers[id].View()
    }

    constructor (precision: int, react: Script)
      ensures Valid() && this.precision == precision && this.react == react
      ensures fresh(queue) && timers == map[] && !start && Clock() == START
    {
      this.precision, this.react := precision, react;
      timers, start := map[], false;
      queue := new TimerQueue();
      pushes, now, births, log := 0, 0, [], [];
    }

    /** The first timer or timeout starts the ticking, with an empty table; so does the first after a stop. */
    method Start()
      requires Valid()
      modifies this`timers, this`start
      ensures Valid() && start
      ensures timers == if old(start) then old(timers) else map[]
    {
      if !start {
        timers := map[];
        start := true;
      }
    }

    method StopTimer()
      modifies this`start
      ensures !start
    {
      start := false;
    }

    // ---- Repeating timers ----

    method SetTimer(id: Id, interval: int, repeat: int)
      requires Valid()
      modifies this`timers, this`start
      ensures Valid() && start
      ensures Table() == (if old(start) then old(Table()) else map[])[id := Fresh(interval, repeat)]
    {
      Start();
      var t := new Timer(id, interval, repeat);
      timers := timers[id := t];
    }

    method KillTimer(id: Id)
      requires Valid()
      modifies this`timers
      ensures Valid() && Table() == old(Table()) - {id}
    {
      timers := timers - {id};
    }

    /** One round of the loop: the timer `key` advances. */
    method TickTimer(key: Id) returns (fires: bool)
      requires Valid() && key in timers
      modifies this`timers, timers[key]
      ensures Valid() && timers.Values <= old(timers.Values)
      ensures Moved(old(Table()), Table(), key, fires, precision)
    {
      ghost var before := Table();
      var value := timers[key];
      value.pass := value.pass - precision;
      fires := value.pass <= 0;
      if fires {
        value.pass := value.pass + value.interval;
        if value.repeat != -1 {
          value.repeat := value.repeat - 1;
        }
        if value.repeat != -1 && value.repeat <= 0 {
          timers := timers - {key};
          assert Table() == before - {key};
        }
      }
      assert key in timers ==> Table() == before[key := timers[key].View()];
    }

    /** The first half of a tick: every timer advances; those whose interval is over fire, in any order. */
    method TickTimers() returns (fired: set<Id>)
      requires Valid()
      modifies this`timers, timers.Values
      ensures Valid() && timers.Values <= old(timers.Values) && Clock() == old(Clock())
      ensures Ticked(old(Table()), Table(), fired, old(timers.Keys), precision)
    {
      fired := {};
      ghost var before := Table();
      var keys := timers.Keys;
      while keys != {}
        invariant Valid() && keys <= before.Keys && timers.Values <= old(timers.Values)
        invariant Ticked(before, Table(), fired, before.Keys - keys, precision)
        decreases keys
      {
        var key :| key in keys;
        ghost var mid := Table();
        assert key in mid;
        var fires := TickTimer(key);
        TickedMoves(before, mid, Table(), fired, before.Keys - keys, key, fires, precision);
        if fires {
          fired := fired + {key};
        }
        keys := keys - {key};
        assert before.Keys - keys == before.Keys - (keys + {key}) + {key};
      }
      assert before.Keys - keys == before.Keys;
    }

    // ---- Timeouts ----

    method SetTimeOut(duration: int)
      requires Valid()
      modifies queue, this`pushes, this`births, this`timers, this`start
      ensures Valid() && start && Clock() == Push(old(Clock()), duration)
      ensures timers == if old(start) then old(timers) else map[]
    {
      Start();
      Enqueue(duration);
    }

    method Enqueue(duration: int)
      requires Valid()
      modifies queue, this`pushes, this`births
      ensures Valid() && Clock() == Push(old(Clock()), duration)
    {
      ghost var q := queue.View();
      var f := new TimeFunc(pushes, duration);
      assert queue.View() == q;
      queue.Push(f);
      pushes, births := pushes + 1, births + [Birth(now, duration)];
    }

    /** What the callback of an entry does: it pushes timeouts. */
    method Call(id: nat)
      requires Valid() && start
      modifies queue, this`pushes, this`births, this`timers, this`start
      ensures Valid() && start && timers == old(timers) && Clock() == PushAll(old(Clock()), react(id))
    {
      var delays := react(id);
      ghost var before := Clock();
      assert delays[0..] == delays;
      for i := 0 to |delays|
        invariant Valid() && start && timers == old(timers)
        invariant PushAll(before, delays) == PushAll(Clock(), delays[i..])
      {
        assert delays[i..][1..] == delays[i + 1..];
        SetTimeOut(delays[i]);
      }
    }

    /** One round of the calling loop: the head of the queue leaves it and is called. */
    method CallNext()
      requires Valid() && start && queue.items != []
      modifies queue, this`pushes, this`births, this`log, this`timers, this`start
      ensures Valid() && start && timers == old(timers) && Clock() == CallHead(old(Clock()), react)
    {
      ghost var c := Clock();
      var timeCall := queue.Pop();
      log := log + [Firing(timeCall.id, now)];
      assert queue.View() == c.q[1..];
      Call(timeCall.id);
    }

    /** The calling loop. */
    method CallExpired(calls: nat)
      requires Valid() && start && calls <= |queue.items|
      modifies queue, this`pushes, this`births, this`log, this`timers, this`start
      ensures Valid() && start && timers == old(timers) && Clock() == PopLoop(old(Clock()), calls, react)
      ensures Table() == old(Table())
    {
      ghost var result := PopLoop(Clock(), calls, react);
      ghost var c := Clock();
      var call := calls;
      while call > 0
        invariant Valid() && start && timers == old(timers)
        invariant Clock() == c && StillToCall(c, call, react, result)
      {
        LoopMoves(c, call, react, result);
        c := CallHead(c, react);
        CallNext();
        call := call - 1;
      }
    }

    /** The second half of a tick: delays shrink, and as many entries are called as have none left. */
    method TickTimeouts()
      requires Valid() && start
      modifies queue, queue.items, this`now, this`pushes, this`births, this`log, this`timers, this`start
      ensures Valid() && start && Table() == old(Table()) && Clock() == Tick(old(Clock()), precision, react)
    {
      var call := Count();
      CallExpired(call);
    }

    /** Its first part: time goes on by a tick. */
    method Count() returns (call: nat)
      requires Valid() && start
      modifies queue.items, this`now
      ensures Valid() && Clock() == Decremented(old(Clock()), precision)
      ensures call == Expired(queue.View()) && Table() == old(Table())
    {
      call := CountExpired(queue, precision);
      now := now + 1;
    }

    /** One round of `Ticking`: a tick of all repeating timers, and one of the timeouts. */
    method Ticking() returns (fired: set<Id>)
      requires Valid() && start
      modifies this`timers, timers.Values, queue, queue.items, this`now, this`pushes, this`births, this`log, this`start
      ensures Valid() && start
      ensures Ticked(old(Table()), Table(), fired, old(timers.Keys), precision)
      ensures Clock() == Tick(old(Clock()), precision, react)
    {
      fired := TickTimers();
      TickTimeouts();
    }
  }

  /** One round of the counting loop: the delay of the item at `i` shrinks by one tick. */
  method Shorten(queue: TimerQueue, i: nat, precision: int) returns (expired: bool)
    requires queue.Valid() && i < |queue.items|
    modifies queue.items[i]
    ensures queue.Valid()
    ensures var e := old(queue.View())[i];
      && queue.View() == old(queue.View())[i := Entry(e.id, e.delay - precision)]
      && expired == (e.delay - precision <= 0)
  {
    var tick := queue.At(i);
    tick.delay := tick.delay - precision;
    expired := tick.delay <= 0;
  }

  /** The counting loop. */
  method CountExpired(queue: TimerQueue, precision: int) returns (call: nat)
    requires queue.Valid()
    modifies queue.items
    ensures queue.Valid() && queue.View() == Decrement(old(queue.View()), precision)
    ensures call == Expired(queue.View())
  {
    call := 0;
    ghost var result := Counting(queue.View(), 0, 0, precision);
    CountingIsDecrement(queue.View(), precision);
    for i := 0 to queue.Len()
      invariant queue.Valid() && Counting(queue.View(), i, call, precision) == result
    {
      var expired := Shorten(queue, i, precision);
      if expired {
        call := call + 1;
      }
    }
  }

  /** Calling `calls` more entries leads to `result`. */
  ghost predicate StillToCall(c: Clock, calls: nat, react: Script, result: Clock) {
    calls <= |c.q| && PopLoop(c, calls, react) == result
  }

  lemma LoopMoves(c: Clock, calls: nat, react: Script, result: Clock)
    requires StillToCall(c, calls, react, result) && calls > 0
    ensures StillToCall(CallHead(c, react), calls - 1, react, result)
  {
    PushAllGrows(Popped(c), react(c.q[0].id));
  }

  lemma {:induction false} PushAllGrows(c: Clock, delays: seq<int>)
    ensures |PushAll(c, delays).q| >= |c.q|
    decreases |delays|
  {
    if delays != [] {
      PushAllGrows(Push(c, delays[0]), delays[1..]);
    }
  }

  /** The queue and the count that counting from the item at `i` on leads to. */
  function Counting(q: seq<Entry>, i: nat, call: nat, precision: int): (seq<Entry>, nat)
    decreases |q| - i
  {
    if i >= |q| then (q, call)
    else
      var left := q[i].delay - precision;
      Counting(q[i := Entry(q[i].id, left)], i + 1, if left <= 0 then call + 1 else call, precision)
  }

  lemma CountingIsDecrement(q: seq<Entry>, precision: int)
    ensures var d := Decrement(q, precision); Counting(q, 0, 0, precision) == (d, Expired(d))
  {
    CountingFrom(q, Decrement(q, precision), q, 0, 0, precision);
  }

  /** `view` is the queue when the items of `q` before `i` have been counted. */
  predicate CountedTo(q: seq<Entry>, d: seq<Entry>, view: seq<Entry>, i: nat) {
    |view| == |q| == |d| && forall j :: 0 <= j < |q| ==> view[j] == if j < i then d[j] else q[j]
  }

  lemma {:induction false} CountingFrom(
    q: seq<Entry>, d: seq<Entry>, view: seq<Entry>, i: nat, call: nat, precision: int)
    requires |d| == |q| && forall j :: 0 <= j < |q| ==> d[j] == Entry(q[j].id, q[j].delay - precision)
    requires i <= |q| && CountedTo(q, d, view, i) && call == Expired(d[..i])
    ensures Counting(view, i, call, precision) == (d, Expired(d))
    decreases |q| - i
  {
    if i == |q| {
      CountEnds(q, d, view);
    } else {
      CountMoves(q, d, view, i);
      CountingFrom(q, d, view[i := d[i]], i + 1, if d[i].delay <= 0 then call + 1 else call, precision);
    }
  }

  lemma CountMoves(q: seq<Entry>, d: seq<Entry>, view: seq<Entry>, i: nat)
    requires CountedTo(q, d, view, i) && i < |q|
    ensures view[i] == q[i] && CountedTo(q, d, view[i := d[i]], i + 1)
    ensures Expired(d[..i + 1]) == Expired(d[..i]) + if d[i].delay <= 0 then 1 else 0
  {
    assert d[..i + 1][..i] == d[..i] && d[..i + 1][i] == d[i];
  }

  lemma CountEnds(q: seq<Entry>, d: seq<Entry>, view: seq<Entry>)
    requires CountedTo(q, d, view, |q|)
    ensures view == d && d[..|q|] == d
  {
  }
}
