/** The queue of pending timeouts, sorted by remaining delay. */
module TimerQueues {
  import opened Seqs

  /** A pending timeout: `id` counts the pushes, `delay` is what remains. */
  datatype Entry = Entry(id: nat, delay: int)

  /** Entries in the order they are to be called: by delay, then by time of push. */
  predicate Before(a: Entry, b: Entry) {
    a.delay < b.delay || (a.delay == b.delay && a.id < b.id)
  }

  predicate Sorted(q: seq<Entry>) {
    forall i, j :: 0 <= i < j < |q| ==> Before(q[i], q[j])
  }

  /** Where `Push` puts a new entry: before the first entry that has to wait longer. */
  function Place(q: seq<Entry>, delay: int): (i: nat)
    ensures i <= |q|
    ensures forall j :: 0 <= j < i ==> q[j].delay <= delay
    ensures i < |q| ==> delay < q[i].delay
  {
    if q == [] || delay < q[0].delay then 0 else 1 + Place(q[1..], delay)
  }

  function Insert(q: seq<Entry>, e: Entry): (r: seq<Entry>)
    ensures |r| == |q| + 1
  {
    var i := Place(q, e.delay);
    q[..i] + [e] + q[i..]
  }

  lemma {:induction false} PlaceIsUnique(q: seq<Entry>, delay: int, i: nat)
    requires i <= |q|
    requires forall j :: 0 <= j < i ==> q[j].delay <= delay
    requires i < |q| ==> delay < q[i].delay
    ensures i == Place(q, delay)
  {
    if i > 0 {
      PlaceIsUnique(q[1..], delay, i - 1);
    }
  }

  /** Behind entries that do not wait longer. */
  lemma {:induction false} PlaceBehind(q: seq<Entry>, delay: int, n: nat)
    requires n <= |q| && forall j :: 0 <= j < n ==> q[j].delay <= delay
    ensures n <= Place(q, delay)
  {
    if n > 0 {
      PlaceBehind(q[1..], delay, n - 1);
    }
  }

  /** Not behind an entry that waits longer. */
  lemma PlaceBefore(q: seq<Entry>, delay: int, n: nat)
    requires n < |q| && delay < q[n].delay
    ensures Place(q, delay) <= n
  {
  }

  /** A new entry keeps the queue sorted, behind the entries pushed earlier with the same delay. */
  lemma InsertSorts(q: seq<Entry>, e: Entry)
    requires Sorted(q) && forall i :: 0 <= i < |q| ==> q[i].id < e.id
    ensures Sorted(Insert(q, e))
  {
    var p, r := Place(q, e.delay), Insert(q, e);
    forall i, j | 0 <= i < j < |r| ensures Before(r[i], r[j]) {
      if j > p && i == p && j > p + 1 {
        assert Before(q[p], q[j - 1]);
      }
    }
  }

  /** What was pushed; `id` stands for the callback, which is told apart by the number of its push. */
  class TimeFunc {
    const id: nat
    var delay: int

    constructor (id: nat, delay: int)
      ensures this.id == id && this.delay == delay
    {
      this.id, this.delay := id, delay;
    }
  }

  class TimerQueue {
    var items: seq<TimeFunc>

    ghost predicate Valid()
      reads this
    {
      forall i, j :: 0 <= i < j < |items| ==> items[i] != items[j]
    }

    ghost function View(): (q: seq<Entry>)
      reads this, items
      ensures |q| == |items|
    {
      seq(|items|, i requires 0 <= i < |items| reads this, items => Entry(items[i].id, items[i].delay))
    }

    constructor ()
      ensures Valid() && items == []
    {
      items := [];
    }

    /** The index of the first item that waits longer, or -1. */
    method FindLonger(delay: int) returns (bigindex: int)
      ensures -1 <= bigindex < |items|
      ensures Place(View(), delay) == if bigindex == -1 then |items| else bigindex
    {
      bigindex := -1;
      for i := 0 to |items|
        invariant bigindex == -1
        invariant forall j :: 0 <= j < i ==> items[j].delay <= delay
      {
        if delay < items[i].delay {
          bigindex := i;
          break;
        }
      }
      PlaceIsUnique(View(), delay, if bigindex == -1 then |items| else bigindex);
    }

    /** Places `data` at `at`: appended, and if need be the items from `at` on shifted by one. */
    method PlaceAt(data: TimeFunc, at: int)
      requires Valid() && data !in items && -1 <= at < |items|
      modifies this
      ensures var p := if at == -1 then |old(items)| else at;
        items == old(items)[..p] + [data] + old(items)[p..]
      ensures Valid()
    {
      items := items + [data];
      if at != -1 {
        var length := |items|;
        items := items[..at + 1] + items[at..length - 1];
        items := items[at := data];
      }
    }

    method Push(data: TimeFunc)
      requires Valid() && data !in items
      modifies this
      ensures Valid()
      ensures View() == Insert(old(View()), Entry(data.id, data.delay))
    {
      ghost var q, e := View(), Entry(data.id, data.delay);
      if |items| == 0 {
        items := items + [data];
        assert Place(q, e.delay) == 0 && View() == [e];
      } else {
        var bigindex := FindLonger(data.delay);
        PlaceAt(data, bigindex);
        ghost var p := Place(q, e.delay);
        assert |View()| == |q| + 1 && View()[p] == e;
        assert View()[..p] == q[..p];
        assert View()[p + 1..] == q[p..];
        AroundOne(View(), q[..p], e, q[p..]);
      }
    }

    /** Panics on an empty queue, so the caller must not call it then. */
    method Pop() returns (f: TimeFunc)
      requires Valid() && items != []
      modifies this
      ensures Valid() && f == old(items[0]) && items == old(items)[1..]
    {
      f := items[0];
      items := items[1..];
    }

    function Len(): nat
      reads this
    {
      |items|
    }

    function At(i: nat): (f: TimeFunc?)
      reads this
    {
      if |items| <= i then null else items[i]
    }
  }
}
