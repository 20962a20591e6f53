/** The messages on a connection from a gate to a cluster, and the life of one session on it. */
module Protocol {
  import opened Bytes

  /** Bind a session, pass on a message of its client, or end it. */
  datatype Msg =
    | Link(session: nat, addr: seq<byte>)
    | Data(session: nat, payload: seq<byte>)
    | Break(session: nat)

  /** Where a session stands on one connection; `Wrong` when the messages were out of order. */
  datatype Phase = Absent | Linked(addr: seq<byte>) | Broken(addr: seq<byte>) | Wrong

  function Next(p: Phase, m: Msg): Phase {
    match m
    case Link(_, addr) => if p == Absent then Linked(addr) else Wrong
    case Data(_, _) => if p.Linked? then p else Wrong
    case Break(_) => if p.Linked? then Broken(p.addr) else Wrong
  }

  function PhaseOf(msgs: seq<Msg>, x: nat): Phase {
    if msgs == [] then Absent
    else
      var p, m := PhaseOf(msgs[..|msgs| - 1], x), msgs[|msgs| - 1];
      if m.session == x then Next(p, m) else p
  }

  /** The messages of one session. */
  function Of(msgs: seq<Msg>, x: nat): seq<Msg> {
    if msgs == [] then []
    else
      var p, m := Of(msgs[..|msgs| - 1], x), msgs[|msgs| - 1];
      if m.session == x then p + [m] else p
  }

  /** A link, then data, then at most one break. */
  predicate WellShaped(p: seq<Msg>) {
    p != [] ==>
      && p[0].Link?
      && (forall i :: 0 < i < |p| - 1 ==> p[i].Data?)
      && (|p| > 1 ==> !p[|p| - 1].Link?)
  }

  /** Phases say about a session exactly what the order of its messages is. */
  lemma {:induction false} PhaseIsShape(msgs: seq<Msg>, x: nat)
    ensures PhaseOf(msgs, x) != Wrong <==> WellShaped(Of(msgs, x))
    ensures PhaseOf(msgs, x) == Absent <==> Of(msgs, x) == []
    ensures PhaseOf(msgs, x) != Wrong && Of(msgs, x) != [] ==>
      var p := Of(msgs, x);
      if p[|p| - 1].Break? then PhaseOf(msgs, x) == Broken(p[0].addr) else PhaseOf(msgs, x) == Linked(p[0].addr)
  {
    if msgs != [] {
      PhaseIsShape(msgs[..|msgs| - 1], x);
      var p, m := Of(msgs[..|msgs| - 1], x), msgs[|msgs| - 1];
      if m.session == x {
        ShapeGrows(p, m);
      }
    }
  }

  lemma ShapeGrows(p: seq<Msg>, m: Msg)
    ensures WellShaped(p + [m]) <==>
      WellShaped(p) && (if p == [] then m.Link? else !m.Link? && !p[|p| - 1].Break?)
  {
    var q := p + [m];
    assert forall i :: 0 <= i < |p| ==> q[i] == p[i];
    if p != [] && WellShaped(q) {
      assert |p| > 1 ==> q[|p| - 1].Data?;
    }
  }

  lemma PhaseAppend(msgs: seq<Msg>, m: Msg, x: nat)
    ensures PhaseOf(msgs + [m], x) == if m.session == x then Next(PhaseOf(msgs, x), m) else PhaseOf(msgs, x)
  {
    assert (msgs + [m])[..|msgs|] == msgs;
  }

  /** What a session has gone through by message `k` limits what it can be later. */
  lemma {:induction false} PhasePrefix(msgs: seq<Msg>, k: nat, x: nat)
    requires k <= |msgs| && PhaseOf(msgs, x) != Wrong
    ensures PhaseOf(msgs[..k], x) != Wrong
    ensures PhaseOf(msgs, x) == Absent ==> PhaseOf(msgs[..k], x) == Absent
    decreases |msgs|
  {
    if k == |msgs| {
      assert msgs[..k] == msgs;
    } else {
      PhasePrefix(msgs[..|msgs| - 1], k, x);
      assert msgs[..|msgs| - 1][..k] == msgs[..k];
    }
  }

  /** A session some message belongs to is not absent. */
  lemma {:induction false} Present(msgs: seq<Msg>, k: nat)
    requires k < |msgs|
    ensures PhaseOf(msgs, msgs[k].session) != Absent
    decreases |msgs|
  {
    if k < |msgs| - 1 {
      Present(msgs[..|msgs| - 1], k);
    }
  }

  // ---- The cluster's side: its table of sessions ----

  /** The connection a session came by, and the address of its client. */
  datatype Session<T> = Session(conn: T, addr: seq<byte>)

  /** The table after a message from the connection `t`. */
  function Apply<T>(table: map<nat, Session<T>>, m: Msg, t: T): map<nat, Session<T>> {
    match m
    case Link(x, addr) => table[x := Session(t, addr)]
    case Data(_, _) => table
    case Break(x) => table - {x}
  }

  function Replay<T>(table: map<nat, Session<T>>, msgs: seq<Msg>, t: T): map<nat, Session<T>>
    decreases |msgs|
  {
    if msgs == [] then table else Replay(Apply(table, msgs[0], t), msgs[1..], t)
  }

  /** The table binds to `t` exactly the sessions that the messages received from `t` so far have linked. */
  ghost predicate Agrees<T>(table: map<nat, Session<T>>, got: seq<Msg>, t: T) {
    forall x: nat {:trigger PhaseOf(got, x)} ::
      match PhaseOf(got, x)
      case Linked(addr) => x in table && table[x] == Session(t, addr)
      case Broken(_) => x !in table
      case _ => x in table ==> table[x].conn != t
  }

  lemma ApplyAgrees<T>(table: map<nat, Session<T>>, msgs: seq<Msg>, k: nat, t: T)
    requires k < |msgs| && Agrees(table, msgs[..k], t)
    requires forall x: nat :: PhaseOf(msgs, x) != Wrong
    ensures Agrees(Apply(table, msgs[k], t), msgs[..k + 1], t)
  {
    var m := msgs[k];
    assert msgs[..k + 1] == msgs[..k] + [m];
    PhaseAppend(msgs[..k], m, m.session);
    assert PhaseOf(msgs, m.session) != Wrong;
    PhasePrefix(msgs, k + 1, m.session);
    var after := Apply(table, m, t);
    forall x: nat
      ensures match PhaseOf(msgs[..k + 1], x)
        case Linked(addr) => x in after && after[x] == Session(t, addr)
        case Broken(_) => x !in after
        case _ => x in after ==> after[x].conn != t
    {
      PhaseAppend(msgs[..k], m, x);
      assert x != m.session && x in table ==> x in after && after[x] == table[x];
    }
  }

  lemma {:induction false} ReplayAgrees<T>(table: map<nat, Session<T>>, msgs: seq<Msg>, k: nat, t: T)
    requires k <= |msgs| && Agrees(table, msgs[..k], t)
    requires forall x: nat :: PhaseOf(msgs, x) != Wrong
    ensures Agrees(Replay(table, msgs[k..], t), msgs, t)
    decreases |msgs| - k
  {
    if k == |msgs| {
      assert msgs[..k] == msgs && msgs[k..] == [];
    } else {
      ApplyAgrees(table, msgs, k, t);
      ReplayAgrees(Apply(table, msgs[k], t), msgs, k + 1, t);
      assert msgs[k..][1..] == msgs[k + 1..];
    }
  }
}
