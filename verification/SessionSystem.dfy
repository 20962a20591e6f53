/**
 A gate, its connections and the clusters behind them, step by step.

 Each connection is a FIFO; a disconnect discards what is still in it, and a reconnect is a new connection. A
 closing client's breaks are sent one at a time, with other steps in between.
 */
module SessionSystem {
  import opened Bytes
  import opened Protocol
  import opened GateModel

  /** A cluster: its server type, and its table of sessions. */
  datatype Cluster<T> = Cluster(server: nat, sessions: map<nat, Session<T>>)

  /** `pending`: breaks yet to be sent; `home`: the cluster behind a connection; `seen`: messages it has processed. */
  datatype System<C, T, H> = System(
    gate: Gate<C, T>,
    pending: set<(C, T)>,
    home: map<T, H>,
    seen: map<T, nat>,
    clusters: map<H, Cluster<T>>)

  datatype Event<C, T, H> =
    | Accepted(c: C, addr: seq<byte>)
    | Verified(c: C)
    | Sent(c: C, server: nat, msgid: nat, payload: seq<byte>, pick: nat)
    | Closed(c: C)
    | BreakSent(c: C, t: T)
    | Connected(t: T, h: H, id: nat)
    | Disconnected(t: T)
    | Delivered(t: T)

  function Init<C, T, H>(gateId: nat, servers: map<H, nat>): System<C, T, H> {
    System(Gate(0, gateId, map[], map[], map[], map[]), {}, map[], map[],
           map h | h in servers :: Cluster(servers[h], map[]))
  }

  /** The connection's FIFO is not empty. */
  predicate HasMessage<C, T, H>(s: System<C, T, H>, t: T) {
    && t in s.gate.trans && s.gate.trans[t].up && t in s.seen && s.seen[t] < |s.gate.trans[t].sent|
    && t in s.home && s.home[t] in s.clusters
  }

  /** One step; an event that cannot happen in `s` changes nothing. */
  function Step<C(==), T(==), H>(s: System<C, T, H>, e: Event<C, T, H>): System<C, T, H> {
    var g := s.gate;
    match e
    case Accepted(c, addr) => s.(gate := Accept(g, c, addr))
    case Verified(c) => s.(gate := Verify(g, c))
    case Sent(c, server, msgid, payload, pick) => s.(gate := Message(g, c, server, msgid, payload, pick))
    case Closed(c) =>
      if c in g.clients && g.clients[c].live then
        s.(gate := Close(g, c), pending := s.pending + set t | t in g.clients[c].conns.Values :: (c, t))
      else s
    case BreakSent(c, t) =>
      if (c, t) in s.pending then s.(gate := SendBreak(g, c, t), pending := s.pending - {(c, t)}) else s
    case Connected(t, h, id) =>
      if t in g.trans || h !in s.clusters then s
      else s.(gate := Connect(g, t, s.clusters[h].server, id), home := s.home[t := h], seen := s.seen[t := 0])
    case Disconnected(t) => s.(gate := Disconnect(g, t))
    case Delivered(t) =>
      if !HasMessage(s, t) then s
      else
        var h, m := s.home[t], g.trans[t].sent[s.seen[t]];
        var cluster := s.clusters[h];
        s.(seen := s.seen[t := s.seen[t] + 1],
           clusters := s.clusters[h := cluster.(sessions := Apply(cluster.sessions, m, t))])
  }

  function Run<C(==), T(==), H>(s: System<C, T, H>, es: seq<Event<C, T, H>>): System<C, T, H>
    decreases |es|
  {
    if es == [] then s else Run(Step(s, es[0]), es[1..])
  }

  // ---- The invariant ----

  /** The client is bound to `t`, or was when it closed. */
  predicate Bound<C, T(==)>(g: Gate<C, T>, c: C, t: T) {
    && c in g.clients && t in g.trans
    && var server := g.trans[t].server;
       server in g.clients[c].conns && g.clients[c].conns[server] == t
  }

  /** Where the session of a client should stand on a connection that is up. */
  function Expected<C(==), T(==), H>(s: System<C, T, H>, c: C, t: T): Phase
    requires c in s.gate.clients
  {
    if !Bound(s.gate, c, t) then Absent
    else if s.gate.clients[c].live || (c, t) in s.pending then Linked(s.gate.clients[c].addr)
    else Broken(s.gate.clients[c].addr)
  }

  ghost predicate IsSession<C(!new), T>(g: Gate<C, T>, x: nat) {
    exists c :: c in g.clients && g.clients[c].id == x
  }

  /** Every session stands on every connection that is up where it should. */
  ghost predicate TrafficIsExact<C(!new), T(!new), H>(s: System<C, T, H>) {
    && (forall t, c :: t in s.gate.trans && s.gate.trans[t].up && c in s.gate.clients ==>
          PhaseOf(s.gate.trans[t].sent, s.gate.clients[c].id) == Expected(s, c, t))
    && (forall t, x: nat :: t in s.gate.trans && s.gate.trans[t].up && !IsSession(s.gate, x) ==>
          PhaseOf(s.gate.trans[t].sent, x) == Absent)
  }

  /** No connection, up or not, was ever sent a session's messages out of order. */
  ghost predicate TrafficIsOrdered<C, T(!new), H>(s: System<C, T, H>) {
    forall t, x: nat :: t in s.gate.trans ==> PhaseOf(s.gate.trans[t].sent, x) != Wrong
  }

  ghost predicate PendingIsClosed<C(!new), T(!new), H>(s: System<C, T, H>) {
    forall c, t :: (c, t) in s.pending ==>
      && c in s.gate.clients && !s.gate.clients[c].live && t in s.gate.trans
      && (s.gate.trans[t].up ==> Bound(s.gate, c, t))
  }

  /** Each connection leads to a cluster of its type, which has processed a first part of its messages. */
  ghost predicate Homes<C, T(!new), H>(s: System<C, T, H>) {
    forall t :: t in s.gate.trans ==>
      && t in s.home && s.home[t] in s.clusters && s.clusters[s.home[t]].server == s.gate.trans[t].server
      && t in s.seen && s.seen[t] <= |s.gate.trans[t].sent|
  }

  /** Each cluster's table agrees with what it has processed from the connections that are up. */
  ghost predicate TablesAgree<C, T(!new), H>(s: System<C, T, H>)
    requires Homes(s)
  {
    forall t :: t in s.gate.trans && s.gate.trans[t].up ==>
      Agrees(s.clusters[s.home[t]].sessions, s.gate.trans[t].sent[..s.seen[t]], t)
  }

  /** Tables only bind sessions to connections there have been. */
  ghost predicate EntriesAreKnown<C, T, H(!new)>(s: System<C, T, H>) {
    forall h, x :: h in s.clusters && x in s.clusters[h].sessions ==> s.clusters[h].sessions[x].conn in s.gate.trans
  }

  ghost predicate Inv<C(!new), T(!new), H(!new)>(s: System<C, T, H>) {
    && Sound(s.gate)
    && TrafficIsExact(s) && TrafficIsOrdered(s)
    && PendingIsClosed(s)
    && Homes(s) && TablesAgree(s) && EntriesAreKnown(s)
  }
}
