/** The invariant of module SessionSystem, and what follows from it for every run. */
module SessionSafety {
  import opened Bytes
  import opened Seqs
  import opened Protocol
  import opened GateModel
  import opened SessionSystem

  // ---- Registration ----

  lemma RegisteredKeepsTraffic<C(!new), T(!new), H(!new)>(s: System<C, T, H>, c: C, info: Client<T>)
    requires Inv(s) && s.gate.count + 1 < MAX_REGISTRATIONS && info.conns == map[]
    requires c in s.gate.clients ==> s.gate.clients[c].conns == map[]
    ensures TrafficIsExact(s.(gate := Register(s.gate, c, info)))
  {
    var r := s.(gate := Register(s.gate, c, info));
    var id := SessionId(s.gate.count + 1, s.gate.gateId);
    RegisterIsSound(s.gate, c, info);
    assert !IsSession(s.gate, id);
    forall t, d | t in r.gate.trans && r.gate.trans[t].up && d in r.gate.clients
      ensures PhaseOf(r.gate.trans[t].sent, r.gate.clients[d].id) == Expected(r, d, t)
    {
      if d != c {
        assert Expected(r, d, t) == Expected(s, d, t);
      }
    }
    forall t, x: nat | t in r.gate.trans && r.gate.trans[t].up && !IsSession(r.gate, x)
      ensures PhaseOf(r.gate.trans[t].sent, x) == Absent
    {
      RegisteredKeepsOthers(s, c, info, t, x);
    }
  }

  /** An id that is no session's after a registration is on no connection: it was none before, or that of `c`. */
  lemma RegisteredKeepsOthers<C(!new), T(!new), H(!new)>(s: System<C, T, H>, c: C, info: Client<T>, t: T, x: nat)
    requires TrafficIsExact(s) && (c in s.gate.clients ==> s.gate.clients[c].conns == map[])
    requires !IsSession(Register(s.gate, c, info), x) && t in s.gate.trans && s.gate.trans[t].up
    ensures PhaseOf(s.gate.trans[t].sent, x) == Absent
  {
    var r := Register(s.gate, c, info);
    assert forall d :: d in s.gate.clients && d != c ==> r.clients[d].id == s.gate.clients[d].id;
    assert forall d :: d in s.gate.clients && d != c ==> s.gate.clients[d].id != x;
    if c in s.gate.clients && s.gate.clients[c].id == x {
      assert PhaseOf(s.gate.trans[t].sent, s.gate.clients[c].id) == Expected(s, c, t) == Absent;
    } else {
      assert !IsSession(s.gate, x);
    }
  }

  lemma RegisteredKeepsInv<C(!new), T(!new), H(!new)>(s: System<C, T, H>, c: C, info: Client<T>)
    requires Inv(s) && s.gate.count + 1 < MAX_REGISTRATIONS && info.conns == map[] && info.live
    requires c in s.gate.clients ==> s.gate.clients[c].conns == map[] && s.gate.clients[c].live
    ensures Inv(s.(gate := Register(s.gate, c, info)))
  {
    RegisterIsSound(s.gate, c, info);
    RegisteredKeepsTraffic(s, c, info);
  }

  // ---- Messages ----

  /** Appending to one FIFO does not change what has been processed from any. */
  lemma WrittenKeepsTables<C(!new), T(!new), H(!new)>(s: System<C, T, H>, t: T, msgs: seq<Msg>)
    requires Homes(s) && TablesAgree(s)
    ensures var r := s.(gate := Write(s.gate, t, msgs)); Homes(r) && TablesAgree(r)
  {
    var r := s.(gate := Write(s.gate, t, msgs));
    forall u | u in r.gate.trans && r.gate.trans[u].up
      ensures Agrees(r.clusters[r.home[u]].sessions, r.gate.trans[u].sent[..r.seen[u]], u)
    {
      assert r.gate.trans[u].sent[..r.seen[u]] == s.gate.trans[u].sent[..s.seen[u]];
    }
  }

  /** What a write does to the standing of each session on the connection. */
  lemma WrittenPhases<C, T>(g: Gate<C, T>, t: T, m: Msg)
    requires t in g.trans && g.trans[t].up
    ensures var r := Write(g, t, [m]);
      && r.trans.Keys == g.trans.Keys
      && (forall u :: u in g.trans && u != t ==> r.trans[u] == g.trans[u])
      && (forall x: nat :: PhaseOf(r.trans[t].sent, x) ==
            if m.session == x then Next(PhaseOf(g.trans[t].sent, x), m) else PhaseOf(g.trans[t].sent, x))
  {
    forall x: nat ensures PhaseOf(g.trans[t].sent + [m], x) ==
      if m.session == x then Next(PhaseOf(g.trans[t].sent, x), m) else PhaseOf(g.trans[t].sent, x)
    {
      PhaseAppend(g.trans[t].sent, m, x);
    }
  }

  /** A step that writes `m` for `c` to `t`, and changes where no one else should stand, keeps the traffic exact. */
  lemma WrittenKeepsTraffic<C(!new), T(!new), H(!new)>(s: System<C, T, H>, r: System<C, T, H>, c: C, t: T, m: Msg)
    requires TrafficIsExact(s) && TrafficIsOrdered(s) && Registered(s.gate)
    requires t in s.gate.trans && s.gate.trans[t].up && c in s.gate.clients && m.session == s.gate.clients[c].id
    requires r.gate.trans == Write(s.gate, t, [m]).trans && SameIds(s.gate, r.gate)
    requires forall d, u :: d in s.gate.clients && u in s.gate.trans && (d != c || u != t) ==>
      Expected(r, d, u) == Expected(s, d, u)
    requires Expected(r, c, t) == Next(Expected(s, c, t), m) != Wrong
    ensures TrafficIsExact(r) && TrafficIsOrdered(r)
  {
    WrittenPhases(s.gate, t, m);
    SameSessions(s.gate, r.gate);
    assert PhaseOf(s.gate.trans[t].sent, m.session) == Expected(s, c, t);
    forall u, d | u in r.gate.trans && r.gate.trans[u].up && d in r.gate.clients
      ensures PhaseOf(r.gate.trans[u].sent, r.gate.clients[d].id) == Expected(r, d, u)
    {
      assert PhaseOf(s.gate.trans[u].sent, s.gate.clients[d].id) == Expected(s, d, u);
    }
    forall u, x: nat | u in r.gate.trans && r.gate.trans[u].up && !IsSession(r.gate, x)
      ensures PhaseOf(r.gate.trans[u].sent, x) == Absent
    {
      assert x != m.session;
    }
  }

  ghost predicate SameIds<C(!new), T>(g: Gate<C, T>, h: Gate<C, T>) {
    g.clients.Keys == h.clients.Keys && forall c :: c in g.clients ==> g.clients[c].id == h.clients[c].id
  }

  lemma SameSessions<C(!new), T>(g: Gate<C, T>, h: Gate<C, T>)
    requires SameIds(g, h)
    ensures forall x: nat :: IsSession(g, x) == IsSession(h, x)
  {
    forall x: nat ensures IsSession(g, x) == IsSession(h, x) {
      if c :| c in g.clients && g.clients[c].id == x {
        assert h.clients[c].id == x;
      }
      if c :| c in h.clients && h.clients[c].id == x {
        assert g.clients[c].id == x;
      }
    }
  }

  /** A step that writes nothing, and changes where no one should stand on a connection that is up. */
  lemma SilentKeepsTraffic<C(!new), T(!new), H(!new)>(s: System<C, T, H>, r: System<C, T, H>)
    requires TrafficIsExact(s) && TrafficIsOrdered(s) && SameIds(s.gate, r.gate)
    requires r.gate.trans.Keys == s.gate.trans.Keys
    requires forall t :: t in s.gate.trans ==>
      r.gate.trans[t].sent == s.gate.trans[t].sent && (r.gate.trans[t].up ==> s.gate.trans[t].up)
    requires forall c, t :: c in s.gate.clients && t in s.gate.trans && r.gate.trans[t].up ==>
      Expected(r, c, t) == Expected(s, c, t)
    ensures TrafficIsExact(r) && TrafficIsOrdered(r)
  {
    SameSessions(s.gate, r.gate);
    forall t, c | t in r.gate.trans && r.gate.trans[t].up && c in r.gate.clients
      ensures PhaseOf(r.gate.trans[t].sent, r.gate.clients[c].id) == Expected(r, c, t)
    {
      assert PhaseOf(s.gate.trans[t].sent, s.gate.clients[c].id) == Expected(s, c, t);
    }
  }

  /** Data on an established route. */
  lemma DataKeepsInv<C(!new), T(!new), H(!new)>(s: System<C, T, H>, c: C, t: T, payload: seq<byte>)
    requires Inv(s) && Bound(s.gate, c, t) && s.gate.clients[c].live
    ensures Inv(s.(gate := Write(s.gate, t, [Data(s.gate.clients[c].id, payload)])))
  {
    var m := Data(s.gate.clients[c].id, payload);
    var r := s.(gate := Write(s.gate, t, [m]));
    WriteIsSound(s.gate, t, [m]);
    WrittenKeepsTables(s, t, [m]);
    DataChangesNothingExpected(s, t, [m]);
    WrittenKeepsTraffic(s, r, c, t, m);
  }

  lemma DataChangesNothingExpected<C(!new), T(!new), H(!new)>(s: System<C, T, H>, t: T, msgs: seq<Msg>)
    requires PendingIsClosed(s)
    ensures var r := s.(gate := Write(s.gate, t, msgs));
      && PendingIsClosed(r) && SameIds(s.gate, r.gate)
      && forall d, u :: d in s.gate.clients && u in s.gate.trans ==> Expected(r, d, u) == Expected(s, d, u)
  {
  }

  /** The first message to a server type. */
  lemma LinkKeepsInv<C(!new), T(!new), H(!new)>(s: System<C, T, H>, c: C, server: nat, t: T)
    requires Inv(s) && c in s.gate.clients && s.gate.clients[c].live && s.gate.clients[c].verified
    requires server !in s.gate.clients[c].conns
    requires t in s.gate.trans && s.gate.trans[t].up && s.gate.trans[t].server == server
    ensures var client := s.gate.clients[c];
      Inv(s.(gate := Bind(Write(s.gate, t, [Link(client.id, client.addr)]), c, server, t)))
  {
    var client := s.gate.clients[c];
    var m := Link(client.id, client.addr);
    var w := Write(s.gate, t, [m]);
    var r := s.(gate := Bind(w, c, server, t));
    WriteIsSound(s.gate, t, [m]);
    BindIsSound(w, c, server, t);
    WrittenKeepsTables(s, t, [m]);
    LinkChangesExpected(s, c, server, t);
    WrittenKeepsTraffic(s, r, c, t, m);
  }

  lemma LinkChangesExpected<C(!new), T(!new), H(!new)>(s: System<C, T, H>, c: C, server: nat, t: T)
    requires PendingIsClosed(s) && c in s.gate.clients && s.gate.clients[c].live
    requires server !in s.gate.clients[c].conns
    requires t in s.gate.trans && s.gate.trans[t].up && s.gate.trans[t].server == server
    ensures var client := s.gate.clients[c];
      var r := s.(gate := Bind(Write(s.gate, t, [Link(client.id, client.addr)]), c, server, t));
      && PendingIsClosed(r) && SameIds(s.gate, r.gate)
      && Expected(s, c, t) == Absent && Expected(r, c, t) == Linked(client.addr)
      && forall d, u :: d in s.gate.clients && u in s.gate.trans && (d != c || u != t) ==>
           Expected(r, d, u) == Expected(s, d, u)
  {
  }

  /** The link and the first data. */
  lemma IntroducedKeepsInv<C(!new), T(!new), H(!new)>(s: System<C, T, H>, c: C, server: nat, t: T, payload: seq<byte>)
    requires Inv(s) && c in s.gate.clients && s.gate.clients[c].live && s.gate.clients[c].verified
    requires server !in s.gate.clients[c].conns
    requires t in s.gate.trans && s.gate.trans[t].up && s.gate.trans[t].server == server
    ensures var client := s.gate.clients[c];
      Inv(s.(gate := Bind(Write(s.gate, t, [Link(client.id, client.addr), Data(client.id, payload)]), c, server, t)))
  {
    var client := s.gate.clients[c];
    LinkKeepsInv(s, c, server, t);
    IntroducedInTwo(s.gate, c, server, t, Link(client.id, client.addr), Data(client.id, payload));
    var r := s.(gate := Bind(Write(s.gate, t, [Link(client.id, client.addr)]), c, server, t));
    DataKeepsInv(r, c, t, payload);
  }

  lemma SentKeepsInv<C(!new), T(!new), H(!new)>(
    s: System<C, T, H>, c: C, server: nat, msgid: nat, payload: seq<byte>, pick: nat)
    requires Inv(s)
    ensures Inv(s.(gate := Message(s.gate, c, server, msgid, payload, pick)))
  {
    var g := s.gate;
    if c in g.clients && g.clients[c].live && g.clients[c].verified && msgid != 0 {
      var client := g.clients[c];
      if server in client.conns {
        DataKeepsInv(s, c, client.conns[server], payload);
      } else if server in g.group && pick in g.group[server] {
        var t := g.group[server][pick];
        IntroducedKeepsInv(s, c, server, t, payload);
      }
    }
  }

  // ---- Closing ----

  lemma ClosedKeepsInv<C(!new), T(!new), H(!new)>(s: System<C, T, H>, c: C)
    requires Inv(s)
    ensures Inv(Step(s, Closed(c)))
  {
    if c in s.gate.clients && s.gate.clients[c].live {
      var r := Step(s, Closed(c));
      CloseIsSound(s.gate, c);
      ClosedKeepsExpected(s, c);
      ClosedKeepsRest(s, c);
      SilentKeepsTraffic(s, r);
    }
  }

  lemma ClosedKeepsRest<C(!new), T(!new), H(!new)>(s: System<C, T, H>, c: C)
    requires Homes(s) && TablesAgree(s) && EntriesAreKnown(s)
    ensures var r := Step(s, Closed(c)); Homes(r) && TablesAgree(r) && EntriesAreKnown(r)
  {
  }

  lemma ClosedKeepsExpected<C(!new), T(!new), H(!new)>(s: System<C, T, H>, c: C)
    requires Sound(s.gate) && PendingIsClosed(s) && c in s.gate.clients && s.gate.clients[c].live
    ensures var r := Step(s, Closed(c));
      && PendingIsClosed(r)
      && forall d, u :: d in s.gate.clients && u in s.gate.trans ==> Expected(r, d, u) == Expected(s, d, u)
  {
    var r := Step(s, Closed(c));
    var conns := s.gate.clients[c].conns;
    forall d, u ensures (d, u) in r.pending <==> (d, u) in s.pending || (d == c && u in conns.Values) {
    }
    forall u | u in conns.Values ensures u in s.gate.trans && Bound(s.gate, c, u) {
      var server :| server in conns && conns[server] == u;
    }
    forall d, u | d in s.gate.clients && u in s.gate.trans ensures Expected(r, d, u) == Expected(s, d, u) {
      if d == c && Bound(s.gate, c, u) {
        assert conns[s.gate.trans[u].server] == u;
        assert (c, u) in r.pending;
      }
    }
  }

  lemma BreakKeepsInv<C(!new), T(!new), H(!new)>(s: System<C, T, H>, c: C, t: T)
    requires Inv(s)
    ensures Inv(Step(s, BreakSent(c, t)))
  {
    if (c, t) in s.pending {
      var m := Break(s.gate.clients[c].id);
      var r := Step(s, BreakSent(c, t));
      WriteIsSound(s.gate, t, [m]);
      WrittenKeepsTables(s, t, [m]);
      BreakChangesExpected(s, c, t);
      if s.gate.trans[t].up {
        WrittenKeepsTraffic(s, r, c, t, m);
      } else {
        SilentKeepsTraffic(s, r);
      }
    }
  }

  lemma BreakChangesExpected<C(!new), T(!new), H(!new)>(s: System<C, T, H>, c: C, t: T)
    requires PendingIsClosed(s) && (c, t) in s.pending
    ensures var r := Step(s, BreakSent(c, t));
      && PendingIsClosed(r) && SameIds(s.gate, r.gate)
      && (s.gate.trans[t].up ==> Expected(s, c, t).Linked? && Expected(r, c, t) == Broken(s.gate.clients[c].addr))
      && forall d, u :: d in s.gate.clients && u in s.gate.trans && (d != c || u != t) ==>
           Expected(r, d, u) == Expected(s, d, u)
  {
  }

  // ---- Connections ----

  lemma ConnectedKeepsInv<C(!new), T(!new), H(!new)>(s: System<C, T, H>, t: T, h: H, id: nat)
    requires Inv(s)
    ensures Inv(Step(s, Connected(t, h, id)))
  {
    if t !in s.gate.trans && h in s.clusters {
      ConnectIsSound(s.gate, t, s.clusters[h].server, id);
      ConnectedKeepsTraffic(s, t, h, id);
      ConnectedKeepsRest(s, t, h, id);
    }
  }

  /** No session is on a new connection. */
  lemma ConnectedKeepsTraffic<C(!new), T(!new), H(!new)>(s: System<C, T, H>, t: T, h: H, id: nat)
    requires Inv(s) && t !in s.gate.trans && h in s.clusters
    ensures var r := Step(s, Connected(t, h, id)); TrafficIsExact(r) && TrafficIsOrdered(r)
  {
    var r := Step(s, Connected(t, h, id));
    assert forall u :: u in s.gate.trans ==> r.gate.trans[u] == s.gate.trans[u];
    forall u, c | u in r.gate.trans && r.gate.trans[u].up && c in r.gate.clients
      ensures PhaseOf(r.gate.trans[u].sent, r.gate.clients[c].id) == Expected(r, c, u)
    {
      if u == t {
        assert !Bound(r.gate, c, t);
      } else {
        assert Expected(r, c, u) == Expected(s, c, u);
      }
    }
    SameSessions(s.gate, r.gate);
  }

  /** Tables do not mention a new connection, so they agree with what came by it, nothing. */
  lemma ConnectedKeepsRest<C(!new), T(!new), H(!new)>(s: System<C, T, H>, t: T, h: H, id: nat)
    requires Inv(s) && t !in s.gate.trans && h in s.clusters
    ensures var r := Step(s, Connected(t, h, id));
      PendingIsClosed(r) && Homes(r) && TablesAgree(r) && EntriesAreKnown(r)
  {
    var r := Step(s, Connected(t, h, id));
    assert forall u :: u in s.gate.trans ==> r.gate.trans[u] == s.gate.trans[u];
    assert Homes(r);
    forall u | u in r.gate.trans && r.gate.trans[u].up
      ensures Agrees(r.clusters[r.home[u]].sessions, r.gate.trans[u].sent[..r.seen[u]], u)
    {
      if u == t {
        assert r.gate.trans[u].sent[..r.seen[u]] == [];
      }
    }
  }

  lemma DisconnectedKeepsInv<C(!new), T(!new), H(!new)>(s: System<C, T, H>, t: T)
    requires Inv(s)
    ensures Inv(Step(s, Disconnected(t)))
  {
    if t in s.gate.trans && s.gate.trans[t].up {
      var r := Step(s, Disconnected(t));
      DisconnectIsSound(s.gate, t);
      DisconnectedKeepsExpected(s, t);
      SilentKeepsTraffic(s, r);
      DisconnectedKeepsRest(s, t);
    }
  }

  lemma DisconnectedKeepsExpected<C(!new), T(!new), H(!new)>(s: System<C, T, H>, t: T)
    requires t in s.gate.trans && s.gate.trans[t].up
    ensures var r := Step(s, Disconnected(t));
      && SameIds(s.gate, r.gate)
      && forall c, u :: c in s.gate.clients && u in s.gate.trans && r.gate.trans[u].up ==>
           Expected(r, c, u) == Expected(s, c, u)
  {
    var r := Step(s, Disconnected(t));
    forall c, u | c in s.gate.clients && u in s.gate.trans && u != t
      ensures Bound(r.gate, c, u) == Bound(s.gate, c, u)
    {
    }
  }

  lemma DisconnectedKeepsRest<C(!new), T(!new), H(!new)>(s: System<C, T, H>, t: T)
    requires Inv(s) && t in s.gate.trans && s.gate.trans[t].up
    ensures var r := Step(s, Disconnected(t)); PendingIsClosed(r) && Homes(r) && TablesAgree(r)
  {
    var r := Step(s, Disconnected(t));
    assert forall u :: u in s.gate.trans && u != t ==> r.gate.trans[u] == s.gate.trans[u];
    DisconnectedKeepsPending(s, t);
  }

  lemma DisconnectedKeepsPending<C(!new), T(!new), H(!new)>(s: System<C, T, H>, t: T)
    requires PendingIsClosed(s) && t in s.gate.trans && s.gate.trans[t].up
    ensures PendingIsClosed(Step(s, Disconnected(t)))
  {
    var r := Step(s, Disconnected(t));
    forall c, u | (c, u) in r.pending && u != t && r.gate.trans[u].up ensures Bound(r.gate, c, u) {
      assert Bound(s.gate, c, u);
    }
  }

  // ---- Delivery ----

  /** A message of a session can only be in the FIFO of the one connection of that type the session is on. */
  lemma OnlyConnection<C(!new), T(!new), H(!new)>(s: System<C, T, H>, t: T, k: nat, u: T)
    requires Inv(s) && t in s.gate.trans && s.gate.trans[t].up && u in s.gate.trans && s.gate.trans[u].up
    requires k < |s.gate.trans[t].sent| && u != t && s.gate.trans[u].server == s.gate.trans[t].server
    ensures PhaseOf(s.gate.trans[u].sent, s.gate.trans[t].sent[k].session) == Absent
  {
    var x := s.gate.trans[t].sent[k].session;
    Present(s.gate.trans[t].sent, k);
    assert IsSession(s.gate, x);
    var c :| c in s.gate.clients && s.gate.clients[c].id == x;
    assert PhaseOf(s.gate.trans[t].sent, x) == Expected(s, c, t);
    assert PhaseOf(s.gate.trans[u].sent, x) == Expected(s, c, u);
  }

  lemma DeliveredKeepsTables<C(!new), T(!new), H(!new)>(s: System<C, T, H>, t: T)
    requires Inv(s) && HasMessage(s, t)
    ensures Homes(Step(s, Delivered(t))) && TablesAgree(Step(s, Delivered(t))) && EntriesAreKnown(Step(s, Delivered(t)))
  {
    var r := Step(s, Delivered(t));
    var k, sent := s.seen[t], s.gate.trans[t].sent;
    ApplyAgrees(s.clusters[s.home[t]].sessions, sent, k, t);
    forall u | u in r.gate.trans && r.gate.trans[u].up
      ensures Agrees(r.clusters[r.home[u]].sessions, r.gate.trans[u].sent[..r.seen[u]], u)
    {
      if u != t && s.home[u] == s.home[t] {
        OnlyConnection(s, t, k, u);
        PhasePrefix(s.gate.trans[u].sent, s.seen[u], sent[k].session);
        OtherSessionsAgree(s.clusters[s.home[t]].sessions, sent[k], t, s.gate.trans[u].sent[..s.seen[u]], u);
      }
    }
  }

  lemma OtherSessionsAgree<T>(table: map<nat, Session<T>>, m: Msg, t: T, got: seq<Msg>, u: T)
    requires Agrees(table, got, u) && PhaseOf(got, m.session) == Absent && u != t
    ensures Agrees(Apply(table, m, t), got, u)
  {
    var after := Apply(table, m, t);
    forall x: nat
      ensures match PhaseOf(got, x)
        case Linked(addr) => x in after && after[x] == Session(u, addr)
        case Broken(_) => x !in after
        case _ => x in after ==> after[x].conn != u
    {
      assert x != m.session && x in after ==> x in table && after[x] == table[x];
      assert x != m.session && x in table ==> x in after;
    }
  }

  lemma DeliveredKeepsInv<C(!new), T(!new), H(!new)>(s: System<C, T, H>, t: T)
    requires Inv(s)
    ensures Inv(Step(s, Delivered(t)))
  {
    if HasMessage(s, t) {
      var r := Step(s, Delivered(t));
      DeliveredKeepsTables(s, t);
      assert forall d, u :: d in s.gate.clients ==> Expected(r, d, u) == Expected(s, d, u);
    }
  }

  // ---- Every run ----

  lemma StepKeepsInv<C(!new), T(!new), H(!new)>(s: System<C, T, H>, e: Event<C, T, H>)
    requires Inv(s) && Step(s, e).gate.count < MAX_REGISTRATIONS
    ensures Inv(Step(s, e))
  {
    match e
    case Accepted(c, addr) =>
      if c !in s.gate.clients {
        RegisteredKeepsInv(s, c, Client(0, addr, map[], false, true));
      }
    case Verified(c) =>
      if c in s.gate.clients && s.gate.clients[c].live && !s.gate.clients[c].verified {
        var info := s.gate.clients[c].(verified := true);
        assert info.conns == map[];
        RegisteredKeepsInv(s, c, info);
      }
    case Sent(c, server, msgid, payload, pick) => SentKeepsInv(s, c, server, msgid, payload, pick);
    case Closed(c) => ClosedKeepsInv(s, c);
    case BreakSent(c, t) => BreakKeepsInv(s, c, t);
    case Connected(t, h, id) => ConnectedKeepsInv(s, t, h, id);
    case Disconnected(t) => DisconnectedKeepsInv(s, t);
    case Delivered(t) => DeliveredKeepsInv(s, t);
  }

  lemma StepCounts<C(!new), T(!new), H(!new)>(s: System<C, T, H>, e: Event<C, T, H>)
    ensures s.gate.count <= Step(s, e).gate.count
  {
    match e
    case Accepted(_, _) =>
    case Verified(_) =>
    case Sent(c, server, msgid, payload, pick) =>
      assert Message(s.gate, c, server, msgid, payload, pick).count == s.gate.count;
    case Closed(_) =>
    case BreakSent(_, _) =>
    case Connected(_, _, _) =>
    case Disconnected(_) =>
    case Delivered(_) =>
  }

  lemma {:induction false} CountGrows<C(!new), T(!new), H(!new)>(s: System<C, T, H>, es: seq<Event<C, T, H>>)
    ensures s.gate.count <= Run(s, es).gate.count
    decreases |es|
  {
    if es != [] {
      StepCounts(s, es[0]);
      CountGrows(Step(s, es[0]), es[1..]);
    }
  }

  lemma {:induction false} RunKeepsInv<C(!new), T(!new), H(!new)>(s: System<C, T, H>, es: seq<Event<C, T, H>>)
    requires Inv(s) && Run(s, es).gate.count < MAX_REGISTRATIONS
    ensures Inv(Run(s, es))
    decreases |es|
  {
    if es != [] {
      CountGrows(Step(s, es[0]), es[1..]);
      StepKeepsInv(s, es[0]);
      RunKeepsInv(Step(s, es[0]), es[1..]);
    }
  }

  /** Every state a gate with fewer than 2^24 registrations can reach satisfies the invariant. */
  lemma EveryRunIsSafe<C(!new), T(!new), H(!new)>(gateId: nat, servers: map<H, nat>, es: seq<Event<C, T, H>>)
    requires gateId < 256 && Run(Init<C, T, H>(gateId, servers), es).gate.count < MAX_REGISTRATIONS
    ensures Inv(Run(Init<C, T, H>(gateId, servers), es))
  {
    RunKeepsInv(Init<C, T, H>(gateId, servers), es);
  }

  // ---- What this means ----

  /** Whatever happens, a session's messages on a connection are a link, then data, then at most one break. */
  lemma TrafficHasShape<C(!new), T(!new), H(!new)>(s: System<C, T, H>, t: T, x: nat)
    requires Inv(s) && t in s.gate.trans
    ensures WellShaped(Of(s.gate.trans[t].sent, x))
  {
    PhaseIsShape(s.gate.trans[t].sent, x);
  }

  /** Data finds its session in the cluster's table, with its client's address, bound to the connection it came by. */
  lemma DataMeetsItsSession<C(!new), T(!new), H(!new)>(s: System<C, T, H>, t: T)
    requires Inv(s) && HasMessage(s, t) && s.gate.trans[t].sent[s.seen[t]].Data?
    ensures var x, table := s.gate.trans[t].sent[s.seen[t]].session, s.clusters[s.home[t]].sessions;
      && x in table && table[x].conn == t
      && exists c :: c in s.gate.clients && s.gate.clients[c].id == x && table[x].addr == s.gate.clients[c].addr
  {
    var sent, k := s.gate.trans[t].sent, s.seen[t];
    var x := sent[k].session;
    assert PhaseOf(sent, x) != Wrong;
    PhasePrefix(sent, k + 1, x);
    assert sent[..k + 1] == sent[..k] + [sent[k]];
    PhaseAppend(sent[..k], sent[k], x);
    var addr := PhaseOf(sent[..k], x).addr;
    assert s.clusters[s.home[t]].sessions[x] == Session(t, addr);
    Present(sent, k);
    assert IsSession(s.gate, x);
    var c :| c in s.gate.clients && s.gate.clients[c].id == x;
    assert PhaseOf(sent, x) == Expected(s, c, t);
    LinkedAddress(sent, k, x);
  }

  /** The address a session is linked with does not change. */
  lemma {:induction false} LinkedAddress(msgs: seq<Msg>, k: nat, x: nat)
    requires k <= |msgs| && PhaseOf(msgs[..k], x).Linked? && PhaseOf(msgs, x) != Wrong
    ensures var addr := PhaseOf(msgs[..k], x).addr; PhaseOf(msgs, x) in {Linked(addr), Broken(addr)}
    decreases |msgs|
  {
    if k == |msgs| {
      assert msgs[..k] == msgs;
    } else {
      var shorter := msgs[..|msgs| - 1];
      assert shorter[..k] == msgs[..k];
      LinkedAddress(shorter, k, x);
    }
  }

  /**
   Once the FIFO of a connection that is up has been processed, the cluster's table binds to it exactly the
   sessions of the clients located there, or closing and with their break not yet sent.
   */
  lemma ReplayGivesTheLocated<C(!new), T(!new), H(!new)>(s: System<C, T, H>, t: T, x: nat)
    requires Inv(s) && t in s.gate.trans && s.gate.trans[t].up
    ensures var table := Replay(s.clusters[s.home[t]].sessions, s.gate.trans[t].sent[s.seen[t]..], t);
      (x in table && table[x].conn == t)
      <==> exists c :: c in s.gate.clients && s.gate.clients[c].id == x && Bound(s.gate, c, t)
                       && (s.gate.clients[c].live || (c, t) in s.pending)
  {
    var sent := s.gate.trans[t].sent;
    ReplayAgrees(s.clusters[s.home[t]].sessions, sent, s.seen[t], t);
    var table := Replay(s.clusters[s.home[t]].sessions, sent[s.seen[t]..], t);
    assert PhaseOf(sent, x) != Wrong;
    assert (x in table && table[x].conn == t) <==> PhaseOf(sent, x).Linked?;
    if c :| c in s.gate.clients && s.gate.clients[c].id == x && Bound(s.gate, c, t)
            && (s.gate.clients[c].live || (c, t) in s.pending) {
      assert PhaseOf(sent, x) == Expected(s, c, t);
    }
    if PhaseOf(sent, x).Linked? {
      assert IsSession(s.gate, x);
      var c :| c in s.gate.clients && s.gate.clients[c].id == x;
      assert PhaseOf(sent, x) == Expected(s, c, t);
    }
  }

  // ---- Stickiness ----

  /** What a session sent as data, in order. */
  function Payloads(msgs: seq<Msg>, x: nat): seq<seq<byte>> {
    if msgs == [] then []
    else
      var p, m := Payloads(msgs[..|msgs| - 1], x), msgs[|msgs| - 1];
      if m.Data? && m.session == x then p + [m.payload] else p
  }

  /** What a client sends to a server type in the course of some events, heartbeats left out. */
  function Addressed<C(==), T, H>(es: seq<Event<C, T, H>>, c: C, server: nat): seq<seq<byte>> {
    if es == [] then []
    else
      (if es[0].Sent? && es[0].c == c && es[0].server == server && es[0].msgid != 0 then [es[0].payload] else [])
      + Addressed(es[1..], c, server)
  }

  /** Neither does the client close nor the connection go down. */
  predicate Undisturbed<C(==), T(==), H>(es: seq<Event<C, T, H>>, c: C, t: T) {
    es != [] ==> es[0] != Closed(c) && es[0] != Disconnected(t) && Undisturbed(es[1..], c, t)
  }

  lemma PayloadsAppend(msgs: seq<Msg>, m: Msg, x: nat)
    ensures Payloads(msgs + [m], x) ==
      Payloads(msgs, x) + if m.Data? && m.session == x then [m.payload] else []
  {
    assert (msgs + [m])[..|msgs|] == msgs;
  }

  /** From `g` to `r` the established route of `c` by `t` stays as it is, and takes the data `more`. */
  ghost predicate Stays<C, T>(g: Gate<C, T>, r: Gate<C, T>, c: C, t: T, more: seq<seq<byte>>)
    requires Bound(g, c, t)
  {
    && Bound(r, c, t) && r.clients[c].live && r.clients[c].id == g.clients[c].id
    && r.trans[t].server == g.trans[t].server
    && Payloads(r.trans[t].sent, g.clients[c].id) == Payloads(g.trans[t].sent, g.clients[c].id) + more
  }

  /** One step leaves an established route as it is, and puts on it what the client sends to that server type. */
  lemma StepIsSticky<C(!new), T(!new), H(!new)>(s: System<C, T, H>, e: Event<C, T, H>, c: C, t: T)
    requires Sound(s.gate) && Bound(s.gate, c, t) && s.gate.clients[c].live
    requires e != Closed(c) && e != Disconnected(t)
    ensures Stays(s.gate, Step(s, e).gate, c, t, Addressed([e], c, s.gate.trans[t].server))
  {
    assert Addressed([e][1..], c, s.gate.trans[t].server) == [];
    if e.Sent? {
      SentIsSticky(s.gate, e.c, e.server, e.msgid, e.payload, e.pick, c, t);
    } else {
      OthersAreSticky(s, e, c, t);
    }
  }

  lemma OthersAreSticky<C(!new), T(!new), H(!new)>(s: System<C, T, H>, e: Event<C, T, H>, c: C, t: T)
    requires Sound(s.gate) && Bound(s.gate, c, t) && s.gate.clients[c].live
    requires !e.Sent? && e != Closed(c) && e != Disconnected(t)
    ensures Stays(s.gate, Step(s, e).gate, c, t, [])
  {
    match e
    case BreakSent(d, u) => BreakIsSticky(s.gate, d, u, c, t);
    case Accepted(_, _) => RegisteredIsSticky(s, e, c, t);
    case Verified(_) => RegisteredIsSticky(s, e, c, t);
    case Closed(d) => ClosedIsSticky(s, d, c, t);
    case Connected(u, h, id) => ConnectedIsSticky(s, u, h, id, c, t);
    case Disconnected(u) => DisconnectedIsSticky(s.gate, u, c, t);
    case Delivered(_) =>
  }

  lemma RegisteredIsSticky<C(!new), T(!new), H(!new)>(s: System<C, T, H>, e: Event<C, T, H>, c: C, t: T)
    requires Sound(s.gate) && Bound(s.gate, c, t) && s.gate.clients[c].live && (e.Accepted? || e.Verified?)
    ensures Stays(s.gate, Step(s, e).gate, c, t, [])
  {
  }

  lemma ClosedIsSticky<C(!new), T(!new), H(!new)>(s: System<C, T, H>, d: C, c: C, t: T)
    requires Bound(s.gate, c, t) && s.gate.clients[c].live && d != c
    ensures Stays(s.gate, Step(s, Closed(d)).gate, c, t, [])
  {
  }

  lemma ConnectedIsSticky<C(!new), T(!new), H(!new)>(s: System<C, T, H>, u: T, h: H, id: nat, c: C, t: T)
    requires Bound(s.gate, c, t) && s.gate.clients[c].live
    ensures Stays(s.gate, Step(s, Connected(u, h, id)).gate, c, t, [])
  {
  }

  lemma BreakIsSticky<C, T>(g: Gate<C, T>, d: C, u: T, c: C, t: T)
    requires Bound(g, c, t) && g.clients[c].live
    ensures Stays(g, SendBreak(g, d, u), c, t, [])
  {
    if d in g.clients && u == t {
      PayloadsAppend(g.trans[t].sent, Break(g.clients[d].id), g.clients[c].id);
    }
  }

  lemma DisconnectedIsSticky<C(!new), T(!new)>(g: Gate<C, T>, u: T, c: C, t: T)
    requires Bound(g, c, t) && g.clients[c].live && u != t
    ensures Stays(g, Disconnect(g, u), c, t, [])
  {
  }

  lemma SentIsSticky<C(!new), T(!new)>(
    g: Gate<C, T>, d: C, to: nat, msgid: nat, payload: seq<byte>, pick: nat, c: C, t: T)
    requires Sound(g) && Bound(g, c, t) && g.clients[c].live
    ensures Stays(g, Message(g, d, to, msgid, payload, pick), c, t,
                  if d == c && to == g.trans[t].server && msgid != 0 then [payload] else [])
  {
    var sent, x := g.trans[t].sent, g.clients[c].id;
    if d in g.clients && g.clients[d].live && g.clients[d].verified && msgid != 0 {
      var client := g.clients[d];
      if to in client.conns {
        PayloadsAppend(sent, Data(client.id, payload), x);
      } else if to in g.group && pick in g.group[to] {
        PayloadsAppend(sent, Link(client.id, client.addr), x);
        PayloadsAppend(sent + [Link(client.id, client.addr)], Data(client.id, payload), x);
        assert sent + [Link(client.id, client.addr), Data(client.id, payload)]
            == sent + [Link(client.id, client.addr)] + [Data(client.id, payload)];
      }
    }
  }

  lemma AddressedFirst<C, T, H>(es: seq<Event<C, T, H>>, c: C, server: nat)
    requires es != []
    ensures Addressed(es, c, server) == Addressed([es[0]], c, server) + Addressed(es[1..], c, server)
  {
    assert [es[0]][1..] == [];
  }

  lemma StaysTwice<C, T>(
    g: Gate<C, T>, h: Gate<C, T>, r: Gate<C, T>, c: C, t: T, a: seq<seq<byte>>, b: seq<seq<byte>>)
    requires Bound(g, c, t) && Stays(g, h, c, t, a) && Stays(h, r, c, t, b)
    ensures Stays(g, r, c, t, a + b)
  {
    Assoc(Payloads(g.trans[t].sent, g.clients[c].id), a, b);
  }

  /**
   Routing is sticky: from the first message to a server type until the client closes or the connection goes
   down, everything the client sends to that type goes to one and the same instance, in order.
   */
  lemma {:induction false} RoutingIsSticky<C(!new), T(!new), H(!new)>(
    s: System<C, T, H>, es: seq<Event<C, T, H>>, c: C, t: T)
    requires Inv(s) && Run(s, es).gate.count < MAX_REGISTRATIONS
    requires Bound(s.gate, c, t) && s.gate.clients[c].live && Undisturbed(es, c, t)
    ensures Stays(s.gate, Run(s, es).gate, c, t, Addressed(es, c, s.gate.trans[t].server))
    decreases |es|
  {
    if es != [] {
      var next := Step(s, es[0]);
      CountGrows(next, es[1..]);
      StepKeepsInv(s, es[0]);
      StepIsSticky(s, es[0], c, t);
      RoutingIsSticky(next, es[1..], c, t);
      var server := s.gate.trans[t].server;
      AddressedFirst(es, c, server);
      StaysTwice(s.gate, next.gate, Run(next, es[1..]).gate, c, t,
                 Addressed([es[0]], c, server), Addressed(es[1..], c, server));
    }
  }
}
