/** What a gate's tables hold in every run: whom an id leads to, and which connections can be picked. */
module GateTables {
  import opened Bytes
  import opened Protocol
  import opened GateModel
  import opened SessionSystem
  import opened SessionSafety

  // ---- The table of clients ----

  /** Ids in the table have been given out. */
  ghost predicate KeysAreGiven<C, T>(g: Gate<C, T>) {
    forall k :: k in g.table ==> k / 256 <= g.count
  }

  /** Moreover no closed client is found under its present id. */
  ghost predicate Tidy<C(!new), T>(g: Gate<C, T>) {
    && KeysAreGiven(g)
    && (forall c :: c in g.clients && !g.clients[c].live ==> g.clients[c].id !in g.table)
  }

  ghost predicate SameClients<C(!new), T>(g: Gate<C, T>, h: Gate<C, T>) {
    && h.count == g.count && h.table == g.table && h.clients.Keys == g.clients.Keys
    && forall c :: c in g.clients ==>
         && h.clients[c].id == g.clients[c].id && h.clients[c].live == g.clients[c].live
         && h.clients[c].verified == g.clients[c].verified
  }

  lemma RegisterKeepsTidy<C(!new), T>(g: Gate<C, T>, c: C, info: Client<T>)
    requires Registered(g) && Tidy(g) && g.count + 1 < MAX_REGISTRATIONS && info.live
    requires c in g.clients ==> g.clients[c].live
    ensures Tidy(Register(g, c, info))
  {
    NextIdIsFresh(g);
  }

  lemma CloseKeepsTidy<C(!new), T>(g: Gate<C, T>, c: C)
    requires Tidy(g)
    ensures Tidy(Close(g, c))
  {
  }

  lemma OthersKeepClients<C(!new), T(!new), H(!new)>(s: System<C, T, H>, e: Event<C, T, H>)
    requires !e.Accepted? && !e.Verified? && !e.Closed?
    ensures SameClients(s.gate, Step(s, e).gate)
  {
    match e
    case Sent(c, server, msgid, payload, pick) =>
    case BreakSent(_, _) =>
    case Connected(_, _, _) =>
    case Disconnected(_) =>
    case Delivered(_) =>
  }

  lemma StepKeepsTidy<C(!new), T(!new), H(!new)>(s: System<C, T, H>, e: Event<C, T, H>)
    requires Inv(s) && Tidy(s.gate) && Step(s, e).gate.count < MAX_REGISTRATIONS
    ensures Tidy(Step(s, e).gate)
  {
    match e
    case Accepted(c, addr) =>
      if c !in s.gate.clients {
        RegisterKeepsTidy(s.gate, c, Client(0, addr, map[], false, true));
      }
    case Verified(c) =>
      if c in s.gate.clients && s.gate.clients[c].live && !s.gate.clients[c].verified {
        RegisterKeepsTidy(s.gate, c, s.gate.clients[c].(verified := true));
      }
    case Closed(c) => CloseKeepsTidy(s.gate, c);
    case _ => OthersKeepClients(s, e);
  }

  lemma {:induction false} RunKeepsTidy<C(!new), T(!new), H(!new)>(s: System<C, T, H>, es: seq<Event<C, T, H>>)
    requires Inv(s) && Tidy(s.gate) && Run(s, es).gate.count < MAX_REGISTRATIONS
    ensures Inv(Run(s, es)) && Tidy(Run(s, es).gate)
    decreases |es|
  {
    if es != [] {
      CountGrows(Step(s, es[0]), es[1..]);
      StepKeepsInv(s, es[0]);
      StepKeepsTidy(s, es[0]);
      RunKeepsTidy(Step(s, es[0]), es[1..]);
    }
  }

  /** After any run, the present id of a client names its gate, and leads to it exactly as long as it is live. */
  lemma FoundWhileLive<C(!new), T(!new), H(!new)>(gateId: nat, servers: map<H, nat>, es: seq<Event<C, T, H>>, c: C)
    requires gateId < 256 && Run(Init<C, T, H>(gateId, servers), es).gate.count < MAX_REGISTRATIONS
    requires c in Run(Init<C, T, H>(gateId, servers), es).gate.clients
    ensures var g := Run(Init<C, T, H>(gateId, servers), es).gate;
      && g.clients[c].id % 256 == g.gateId
      && (g.clients[c].live <==> g.clients[c].id in g.table && g.table[g.clients[c].id] == c)
  {
    RunKeepsTidy(Init<C, T, H>(gateId, servers), es);
  }

  /** An id the client had before its present one still leads to it. */
  ghost predicate HasOldId<C, T>(g: Gate<C, T>, c: C)
    requires c in g.clients
  {
    exists k :: k in g.table && k != g.clients[c].id && g.table[k] == c
  }

  /** The table keeps the id a client had before its first package, and gives it to no one else. */
  ghost predicate KeepsFirstIds<C(!new), T>(g: Gate<C, T>) {
    && (forall c :: c in g.clients ==> (g.clients[c].verified <==> HasOldId(g, c)))
    && KeysAreGiven(g)
    && (forall c :: c in g.clients && g.clients[c].id in g.table ==> g.table[g.clients[c].id] == c)
  }

  lemma SameHaveOldIds<C(!new), T>(g: Gate<C, T>, h: Gate<C, T>, c: C)
    requires c in g.clients && c in h.clients && g.clients[c].id == h.clients[c].id
    requires forall k :: k != g.clients[c].id ==>
      ((k in g.table && g.table[k] == c) <==> (k in h.table && h.table[k] == c))
    ensures HasOldId(g, c) <==> HasOldId(h, c)
  {
    if k :| k in g.table && k != g.clients[c].id && g.table[k] == c {
      assert k in h.table && h.table[k] == c;
    }
    if k :| k in h.table && k != g.clients[c].id && h.table[k] == c {
      assert k in g.table && g.table[k] == c;
    }
  }

  lemma OthersHaveOldIds<C(!new), T>(g: Gate<C, T>, c: C, info: Client<T>)
    requires Registered(g) && KeepsFirstIds(g) && g.count + 1 < MAX_REGISTRATIONS
    ensures forall d :: d in g.clients && d != c ==> (HasOldId(Register(g, c, info), d) <==> HasOldId(g, d))
  {
    var h, id := Register(g, c, info), SessionId(g.count + 1, g.gateId);
    NextIdIsFresh(g);
    assert id !in g.table;
    forall d | d in g.clients && d != c ensures HasOldId(h, d) <==> HasOldId(g, d) {
      SameHaveOldIds(g, h, d);
    }
  }

  lemma AcceptKeepsFirstIds<C(!new), T>(g: Gate<C, T>, c: C, addr: seq<byte>)
    requires Registered(g) && KeepsFirstIds(g) && g.count + 1 < MAX_REGISTRATIONS
    ensures KeepsFirstIds(Accept(g, c, addr))
  {
    if c !in g.clients {
      NextIdIsFresh(g);
      OthersHaveOldIds(g, c, Client(0, addr, map[], false, true));
    }
  }

  lemma RegisterKeepsKeys<C(!new), T>(g: Gate<C, T>, c: C, info: Client<T>)
    requires Registered(g) && KeepsFirstIds(g) && g.count + 1 < MAX_REGISTRATIONS
    ensures var h := Register(g, c, info);
      && KeysAreGiven(h)
      && (forall d :: d in h.clients && h.clients[d].id in h.table ==> h.table[h.clients[d].id] == d)
  {
    NextIdIsFresh(g);
  }

  lemma VerifyKeepsFirstIds<C(!new), T>(g: Gate<C, T>, c: C)
    requires Registered(g) && KeepsFirstIds(g) && g.count + 1 < MAX_REGISTRATIONS
    requires c in g.clients && g.clients[c].live && !g.clients[c].verified
    ensures KeepsFirstIds(Verify(g, c))
  {
    var info, h, first := g.clients[c].(verified := true), Verify(g, c), g.clients[c].id;
    NextIdIsFresh(g);
    OthersHaveOldIds(g, c, info);
    RegisterKeepsKeys(g, c, info);
    assert HasOldId(h, c) by {
      assert first in h.table && h.table[first] == c && first != h.clients[c].id;
    }
    assert forall d :: d in h.clients && d != c ==> h.clients[d] == g.clients[d];
  }

  lemma CloseKeepsFirstIds<C(!new), T>(g: Gate<C, T>, c: C)
    requires Registered(g) && KeepsFirstIds(g)
    ensures KeepsFirstIds(Close(g, c))
  {
    if c in g.clients && g.clients[c].live {
      var h := Close(g, c);
      forall d | d in g.clients ensures HasOldId(h, d) <==> HasOldId(g, d) {
        SameHaveOldIds(g, h, d);
      }
    }
  }

  lemma SameKeepFirstIds<C(!new), T>(g: Gate<C, T>, h: Gate<C, T>)
    requires SameClients(g, h) && KeepsFirstIds(g)
    ensures KeepsFirstIds(h)
  {
    forall d | d in g.clients ensures HasOldId(h, d) <==> HasOldId(g, d) {
      SameHaveOldIds(g, h, d);
    }
  }

  lemma StepKeepsFirstIds<C(!new), T(!new), H(!new)>(s: System<C, T, H>, e: Event<C, T, H>)
    requires Inv(s) && KeepsFirstIds(s.gate) && Step(s, e).gate.count < MAX_REGISTRATIONS
    ensures KeepsFirstIds(Step(s, e).gate)
  {
    match e
    case Accepted(c, addr) =>
      if c !in s.gate.clients {
        AcceptKeepsFirstIds(s.gate, c, addr);
      }
    case Verified(c) =>
      if c in s.gate.clients && s.gate.clients[c].live && !s.gate.clients[c].verified {
        VerifyKeepsFirstIds(s.gate, c);
      }
    case Closed(c) => CloseKeepsFirstIds(s.gate, c);
    case _ =>
      OthersKeepClients(s, e);
      SameKeepFirstIds(s.gate, Step(s, e).gate);
  }

  lemma {:induction false} RunKeepsFirstIds<C(!new), T(!new), H(!new)>(s: System<C, T, H>, es: seq<Event<C, T, H>>)
    requires Inv(s) && KeepsFirstIds(s.gate) && Run(s, es).gate.count < MAX_REGISTRATIONS
    ensures KeepsFirstIds(Run(s, es).gate)
    decreases |es|
  {
    if es != [] {
      CountGrows(Step(s, es[0]), es[1..]);
      StepKeepsInv(s, es[0]);
      StepKeepsFirstIds(s, es[0]);
      RunKeepsFirstIds(Step(s, es[0]), es[1..]);
    }
  }

  /**
   After any run, a closed client is still in the table exactly if it sent a first package: closing takes out only
   the id it got then, and the one from before leads to it for good.
   */
  lemma ClosedStayIfVerified<C(!new), T(!new), H(!new)>(
    gateId: nat, servers: map<H, nat>, es: seq<Event<C, T, H>>, c: C)
    requires gateId < 256 && Run(Init<C, T, H>(gateId, servers), es).gate.count < MAX_REGISTRATIONS
    requires var g := Run(Init<C, T, H>(gateId, servers), es).gate; c in g.clients && !g.clients[c].live
    ensures var g := Run(Init<C, T, H>(gateId, servers), es).gate; c in g.table.Values <==> g.clients[c].verified
  {
    var g := Run(Init<C, T, H>(gateId, servers), es).gate;
    RunKeepsFirstIds(Init<C, T, H>(gateId, servers), es);
    RunKeepsTidy(Init<C, T, H>(gateId, servers), es);
    if k :| k in g.table && k != g.clients[c].id && g.table[k] == c {
      assert g.table[k] in g.table.Values;
    }
  }

  // ---- The group ----

  /** The connection can be picked. */
  predicate Instance<C, T(==)>(g: Gate<C, T>, t: T)
    requires t in g.trans
  {
    var tran := g.trans[t];
    tran.server in g.group && tran.id in g.group[tran.server] && g.group[tran.server][tran.id] == t
  }

  ghost predicate Complete<C, T(!new)>(g: Gate<C, T>) {
    forall t :: t in g.trans && g.trans[t].up ==> Instance(g, t)
  }

  /** No connection that is up has this type and id. */
  ghost predicate Unclaimed<C, T(!new)>(g: Gate<C, T>, server: nat, id: nat) {
    forall t :: t in g.trans && g.trans[t].up ==> g.trans[t].server != server || g.trans[t].id != id
  }

  /** A new connection leaves the group complete if and only if no other has its type and id. */
  lemma ConnectJoins<C(!new), T(!new)>(g: Gate<C, T>, t: T, server: nat, id: nat)
    requires GroupIsUp(g) && Complete(g) && t !in g.trans
    ensures Complete(Connect(g, t, server, id)) <==> Unclaimed(g, server, id)
  {
    var h := Connect(g, t, server, id);
    assert forall u :: u in g.trans ==> h.trans[u] == g.trans[u];
    if Unclaimed(g, server, id) {
      assert server in g.group ==> id !in g.group[server];
      assert Instance(h, t);
      forall u | u in g.trans && g.trans[u].up ensures Instance(h, u) {
        assert Instance(g, u);
      }
    } else {
      var u :| u in g.trans && g.trans[u].up && g.trans[u].server == server && g.trans[u].id == id;
      assert Instance(g, u);
      assert !Instance(h, t);
    }
  }

  /** It takes no instance out of the group, and is one itself exactly if there was none of its type and id. */
  lemma ConnectIsExact<C(!new), T(!new)>(g: Gate<C, T>, t: T, server: nat, id: nat)
    requires GroupIsUp(g) && t !in g.trans
    ensures forall u :: u in g.trans && Instance(g, u) ==> Instance(Connect(g, t, server, id), u)
    ensures Instance(Connect(g, t, server, id), t) <==> server !in g.group || id !in g.group[server]
  {
  }

  lemma DisconnectKeepsComplete<C(!new), T(!new)>(g: Gate<C, T>, t: T)
    requires Complete(g) && t in g.trans && g.trans[t].up
    ensures Complete(Disconnect(g, t))
  {
    var h := Disconnect(g, t);
    assert Instance(g, t);
    forall u | u in h.trans && h.trans[u].up ensures Instance(h, u) {
      assert u != t && h.trans[u] == g.trans[u] && Instance(g, u);
    }
  }

  /** A loss takes no other instance out of the group exactly if the entry under its type and id is its own or none. */
  lemma DisconnectIsExact<C(!new), T(!new)>(g: Gate<C, T>, t: T)
    requires GroupIsUp(g) && t in g.trans && g.trans[t].up
    ensures (forall u :: u in g.trans && u != t && Instance(g, u) ==> Instance(Disconnect(g, t), u))
       <==> Instance(g, t) || g.trans[t].server !in g.group || g.trans[t].id !in g.group[g.trans[t].server]
  {
    var server, id, h := g.trans[t].server, g.trans[t].id, Disconnect(g, t);
    if server in g.group && id in g.group[server] && !Instance(g, t) {
      var u := g.group[server][id];
      assert Instance(g, u) && !Instance(h, u);
    }
  }

  ghost predicate SameTrans<C, T(!new)>(g: Gate<C, T>, h: Gate<C, T>) {
    && h.group == g.group && h.trans.Keys == g.trans.Keys
    && forall t :: t in g.trans ==> h.trans[t].(sent := []) == g.trans[t].(sent := [])
  }

  lemma MessageKeepsTrans<C, T(!new)>(
    g: Gate<C, T>, c: C, server: nat, msgid: nat, payload: seq<byte>, pick: nat)
    ensures SameTrans(g, Message(g, c, server, msgid, payload, pick))
  {
  }

  lemma OthersKeepTrans<C(!new), T(!new), H(!new)>(s: System<C, T, H>, e: Event<C, T, H>)
    requires !e.Connected? && !e.Disconnected?
    ensures SameTrans(s.gate, Step(s, e).gate)
  {
    match e
    case Sent(c, server, msgid, payload, pick) => MessageKeepsTrans(s.gate, c, server, msgid, payload, pick);
    case BreakSent(_, _) =>
    case Accepted(_, _) =>
    case Verified(_) =>
    case Closed(_) =>
    case Delivered(_) =>
  }

  lemma SameTransSameGroup<C(!new), T(!new)>(g: Gate<C, T>, h: Gate<C, T>)
    requires SameTrans(g, h) && Complete(g)
    ensures Complete(h)
  {
    forall t | t in h.trans && h.trans[t].up ensures Instance(h, t) {
      assert h.trans[t].(sent := []) == g.trans[t].(sent := []) && Instance(g, t);
    }
  }

  /** In no event does a connection come with the type and id of one that is up. */
  ghost predicate NoDuplicates<C(!new), T(!new), H(!new)>(s: System<C, T, H>, es: seq<Event<C, T, H>>)
    decreases |es|
  {
    es != [] ==>
      && (es[0].Connected? && es[0].t !in s.gate.trans && es[0].h in s.clusters ==>
            Unclaimed(s.gate, s.clusters[es[0].h].server, es[0].id))
      && NoDuplicates(Step(s, es[0]), es[1..])
  }

  lemma StepKeepsComplete<C(!new), T(!new), H(!new)>(s: System<C, T, H>, e: Event<C, T, H>)
    requires Sound(s.gate) && Complete(s.gate)
    requires e.Connected? && e.t !in s.gate.trans && e.h in s.clusters ==>
      Unclaimed(s.gate, s.clusters[e.h].server, e.id)
    ensures Complete(Step(s, e).gate)
  {
    match e
    case Connected(t, h, id) =>
      if t !in s.gate.trans && h in s.clusters {
        ConnectJoins(s.gate, t, s.clusters[h].server, id);
      }
    case Disconnected(t) =>
      if t in s.gate.trans && s.gate.trans[t].up {
        DisconnectKeepsComplete(s.gate, t);
      }
    case _ =>
      OthersKeepTrans(s, e);
      SameTransSameGroup(s.gate, Step(s, e).gate);
  }

  lemma {:induction false} RunKeepsComplete<C(!new), T(!new), H(!new)>(s: System<C, T, H>, es: seq<Event<C, T, H>>)
    requires Inv(s) && Complete(s.gate) && NoDuplicates(s, es) && Run(s, es).gate.count < MAX_REGISTRATIONS
    ensures Inv(Run(s, es)) && Complete(Run(s, es).gate)
    decreases |es|
  {
    if es != [] {
      CountGrows(Step(s, es[0]), es[1..]);
      StepKeepsInv(s, es[0]);
      StepKeepsComplete(s, es[0]);
      RunKeepsComplete(Step(s, es[0]), es[1..]);
    }
  }

  /**
   As long as no connection comes with the type and id of one that is up, the instances messages can be routed
   to are exactly the connections that are up.
   */
  lemma GroupIsExact<C(!new), T(!new), H(!new)>(gateId: nat, servers: map<H, nat>, es: seq<Event<C, T, H>>, t: T)
    requires gateId < 256 && Run(Init<C, T, H>(gateId, servers), es).gate.count < MAX_REGISTRATIONS
    requires NoDuplicates(Init<C, T, H>(gateId, servers), es)
    ensures var g := Run(Init<C, T, H>(gateId, servers), es).gate;
      (t in g.trans && g.trans[t].up)
      <==> exists server, id :: server in g.group && id in g.group[server] && g.group[server][id] == t
  {
    RunKeepsComplete(Init<C, T, H>(gateId, servers), es);
    var g := Run(Init<C, T, H>(gateId, servers), es).gate;
    if t in g.trans && g.trans[t].up {
      assert Instance(g, t);
    }
  }
}
