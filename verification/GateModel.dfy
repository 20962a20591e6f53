/**
 The state of a gate and the steps of its event handlers, over identities `C` of client connections and `T` of
 connections to clusters. Each step runs atomically, as the handlers do under the gate's locks. The gate has
 no sink, and its clients are websocket clients.
 */
module GateModel {
  import opened Bytes
  import opened Protocol

  const MAX_REGISTRATIONS := 0x100_0000

  /** A websocket client: its session id, where its messages to each server type go, and how far it has come. */
  datatype Client<T> = Client(id: nat, addr: seq<byte>, conns: map<nat, T>, verified: bool, live: bool)

  /** A connection to a cluster: its identity after the handshake, and everything written to it. */
  datatype Tran = Tran(server: nat, id: nat, up: bool, sent: seq<Msg>)

  datatype Gate<C, T> = Gate(
    count: nat,
    gateId: nat,
    table: map<nat, C>,
    clients: map<C, Client<T>>,
    group: map<nat, map<nat, T>>,
    trans: map<T, Tran>)

  // ---- Session ids ----

  /** The id of the `n`-th registration, in 32-bit arithmetic. */
  function SessionId(n: nat, gateId: nat): (id: nat)
    ensures id < 0x1_0000_0000
  {
    (n * 0x100 + gateId) % 0x1_0000_0000
  }

  /** An id names its gate, and the registration up to a multiple of 2^24. */
  lemma SessionIdFields(n: nat, gateId: nat)
    requires gateId < 256
    ensures SessionId(n, gateId) == n % MAX_REGISTRATIONS * 256 + gateId
    ensures SessionId(n, gateId) % 256 == gateId
  {
    var q, r := n / MAX_REGISTRATIONS, n % MAX_REGISTRATIONS;
    assert n * 256 + gateId == q * 0x1_0000_0000 + (r * 256 + gateId);
  }

  /** Ids of all gates are distinct, except for registrations of one gate that are a multiple of 2^24 apart. */
  lemma SessionIdsAreUnique(n: nat, gateId: nat, m: nat, otherGate: nat)
    requires gateId < 256 && otherGate < 256
    ensures SessionId(n, gateId) == SessionId(m, otherGate)
       <==> gateId == otherGate && n % MAX_REGISTRATIONS == m % MAX_REGISTRATIONS
  {
    SessionIdFields(n, gateId);
    SessionIdFields(m, otherGate);
  }

  // ---- The handlers ----

  /** `Register`: the next id, under which the client is stored; ids it had before stay in the table. */
  function Register<C, T>(g: Gate<C, T>, c: C, info: Client<T>): Gate<C, T> {
    var id := SessionId(g.count + 1, g.gateId);
    g.(count := g.count + 1, table := g.table[id := c], clients := g.clients[c := info.(id := id)])
  }

  lemma RegisterOver<C, T>(g: Gate<C, T>, c: C, info: Client<T>)
    ensures Register(g.(clients := g.clients[c := info]), c, info) == Register(g, c, info)
  {
    assert g.clients[c := info][c := info.(id := SessionId(g.count + 1, g.gateId))]
        == g.clients[c := info.(id := SessionId(g.count + 1, g.gateId))];
  }

  /** A new websocket connection. */
  function Accept<C, T>(g: Gate<C, T>, c: C, addr: seq<byte>): Gate<C, T> {
    if c in g.clients then g else Register(g, c, Client(0, addr, map[], false, true))
  }

  /** Its first package, after which its messages count. */
  function Verify<C, T>(g: Gate<C, T>, c: C): Gate<C, T> {
    if c !in g.clients || !g.clients[c].live || g.clients[c].verified then g
    else Register(g, c, g.clients[c].(verified := true))
  }

  /** Writing to a connection that is up. */
  function Write<C, T>(g: Gate<C, T>, t: T, msgs: seq<Msg>): Gate<C, T> {
    if t in g.trans && g.trans[t].up then g.(trans := g.trans[t := g.trans[t].(sent := g.trans[t].sent + msgs)]) else g
  }

  /**
   `OnClientMessage`: to the client's connection for the server type, or else to the instance `pick` of that
   type, any of those in the group, to which the client is bound from then on.
   */
  function Message<C, T>(g: Gate<C, T>, c: C, server: nat, msgid: nat, payload: seq<byte>, pick: nat): Gate<C, T> {
    if c !in g.clients || !g.clients[c].live || !g.clients[c].verified || msgid == 0 then g
    else
      var client := g.clients[c];
      if server in client.conns then Write(g, client.conns[server], [Data(client.id, payload)])
      else if server !in g.group || pick !in g.group[server] then g
      else
        var t := g.group[server][pick];
        Bind(Write(g, t, [Link(client.id, client.addr), Data(client.id, payload)]), c, server, t)
  }

  lemma WriteTwice<C, T>(g: Gate<C, T>, t: T, a: Msg, b: Msg)
    ensures Write(Write(g, t, [a]), t, [b]) == Write(g, t, [a, b])
  {
    if t in g.trans && g.trans[t].up {
      assert g.trans[t].sent + [a] + [b] == g.trans[t].sent + [a, b];
    }
  }

  /** `SetLocation`. */
  function Bind<C, T>(g: Gate<C, T>, c: C, server: nat, t: T): Gate<C, T>
    requires c in g.clients
  {
    var client := g.clients[c];
    g.(clients := g.clients[c := client.(conns := client.conns[server := t])])
  }

  /** The link is written and the client bound before the data is written. */
  lemma IntroducedInTwo<C, T>(g: Gate<C, T>, c: C, server: nat, t: T, a: Msg, b: Msg)
    requires c in g.clients
    ensures Bind(Write(g, t, [a, b]), c, server, t) == Write(Bind(Write(g, t, [a]), c, server, t), t, [b])
  {
    WriteTwice(g, t, a, b);
  }

  /** `RemoveClientLink`, up to the breaks it then sends: the client's id leaves the table. */
  function Close<C, T>(g: Gate<C, T>, c: C): Gate<C, T> {
    if c !in g.clients || !g.clients[c].live then g
    else g.(table := g.table - {g.clients[c].id}, clients := g.clients[c := g.clients[c].(live := false)])
  }

  /** One of those breaks. */
  function SendBreak<C, T>(g: Gate<C, T>, c: C, t: T): Gate<C, T> {
    if c !in g.clients then g else Write(g, t, [Break(g.clients[c].id)])
  }

  /** All the breaks to the connections `ts`. */
  function BreakAll<C, T(==)>(g: Gate<C, T>, c: C, ts: set<T>): Gate<C, T>
    requires c in g.clients
  {
    g.(trans := map t | t in g.trans ::
         if t in ts && g.trans[t].up then g.trans[t].(sent := g.trans[t].sent + [Break(g.clients[c].id)])
         else g.trans[t])
  }

  /** They can be sent one after the other, in any order. */
  lemma BreaksOneByOne<C, T>(g: Gate<C, T>, c: C, ts: set<T>, t: T)
    requires c in g.clients && t !in ts
    ensures BreakAll(g, c, ts + {t}) == SendBreak(BreakAll(g, c, ts), c, t)
  {
    var b := BreakAll(g, c, ts);
    assert t in g.trans ==> b.trans[t] == g.trans[t];
    assert BreakAll(g, c, ts + {t}).trans == SendBreak(b, c, t).trans;
  }

  lemma NoBreaks<C, T>(g: Gate<C, T>, c: C)
    requires c in g.clients
    ensures BreakAll(g, c, {}) == g
  {
    assert BreakAll(g, c, {}).trans == g.trans;
  }

  /** `PushServer`, unless there is an instance of that type and id already. */
  function PushInstance<T>(group: map<nat, map<nat, T>>, server: nat, id: nat, t: T): map<nat, map<nat, T>> {
    var instances := if server in group then group[server] else map[];
    group[server := if id in instances then instances else instances[id := t]]
  }

  lemma PushedInstances<T>(group: map<nat, map<nat, T>>, server: nat, id: nat, t: T, all: set<T>)
    requires t in all && forall i, k :: i in group && k in group[i] ==> group[i][k] in all
    ensures var r := PushInstance(group, server, id, t); forall i, k :: i in r && k in r[i] ==> r[i][k] in all
  {
  }

  /** `OnTranConnected`: into the group, unless an instance of that type and id is there already. */
  function Connect<C, T>(g: Gate<C, T>, t: T, server: nat, id: nat): Gate<C, T> {
    if t in g.trans then g
    else g.(trans := g.trans[t := Tran(server, id, true, [])], group := PushInstance(g.group, server, id, t))
  }

  function Leave<T(==)>(client: Client<T>, server: nat, t: T): Client<T> {
    if server in client.conns && client.conns[server] == t then client.(conns := client.conns - {server}) else client
  }

  /** Those of the clients in `those` leave the connection. */
  function LeaveAll<C(==), T(==)>(clients: map<C, Client<T>>, those: set<C>, server: nat, t: T): map<C, Client<T>> {
    map c | c in clients :: if c in those then Leave(clients[c], server, t) else clients[c]
  }

  lemma LeaveAllMoves<C, T>(clients: map<C, Client<T>>, those: set<C>, c: C, server: nat, t: T)
    requires c in clients
    ensures var l := LeaveAll(clients, those, server, t);
      l[c := Leave(l[c], server, t)] == LeaveAll(clients, those + {c}, server, t)
  {
  }

  /** `RemoveServer` takes out whatever instance has the connection's type and id. */
  function RemoveInstance<T>(group: map<nat, map<nat, T>>, server: nat, id: nat): map<nat, map<nat, T>> {
    if server in group then group[server := group[server] - {id}] else group
  }

  lemma RemainingInstances<T>(group: map<nat, map<nat, T>>, server: nat, id: nat, all: set<T>)
    requires forall i, k :: i in group && k in group[i] ==> group[i][k] in all
    ensures var r := RemoveInstance(group, server, id); forall i, k :: i in r && k in r[i] ==> r[i][k] in all
  {
  }

  /** `OnTranDisconect`: out of the group, and every client in the table leaves the connection. */
  function Disconnect<C(==), T(==)>(g: Gate<C, T>, t: T): Gate<C, T> {
    if t !in g.trans || !g.trans[t].up then g
    else
      var tran := g.trans[t];
      g.(trans := g.trans[t := tran.(up := false)],
         group := RemoveInstance(g.group, tran.server, tran.id),
         clients := LeaveAll(g.clients, g.table.Values, tran.server, t))
  }

  // ---- What holds of every reachable gate ----

  /** Ids are those of distinct registrations; live clients are found under theirs. */
  ghost predicate Registered<C, T>(g: Gate<C, T>) {
    && g.gateId < 256
    && (forall c :: c in g.clients ==>
          var id := g.clients[c].id; id % 256 == g.gateId && 1 <= id / 256 <= g.count)
    && (forall c, d :: c in g.clients && d in g.clients && c != d ==> g.clients[c].id != g.clients[d].id)
    && (forall c :: c in g.clients && g.clients[c].live ==> g.clients[c].id in g.table && g.table[g.clients[c].id] == c)
    && (forall k :: k in g.table ==> g.table[k] in g.clients)
  }

  /** The instances of the group are up and filed under their own type and id. */
  ghost predicate GroupIsUp<C, T>(g: Gate<C, T>) {
    forall server, id :: server in g.group && id in g.group[server] ==>
      var t := g.group[server][id];
      t in g.trans && g.trans[t].up && g.trans[t].server == server && g.trans[t].id == id
  }

  /** Clients are bound to connections of the right type, live ones to connections that are up. */
  ghost predicate RoutesAreFresh<C, T>(g: Gate<C, T>) {
    forall c, server :: c in g.clients && server in g.clients[c].conns ==>
      var t := g.clients[c].conns[server];
      && g.clients[c].verified
      && t in g.trans && g.trans[t].server == server
      && (g.clients[c].live ==> g.trans[t].up)
  }

  ghost predicate Sound<C, T>(g: Gate<C, T>) {
    Registered(g) && GroupIsUp(g) && RoutesAreFresh(g)
  }

  /** The id of a new registration is larger than all those before it. */
  lemma NextIdIsFresh<C, T>(g: Gate<C, T>)
    requires Registered(g) && g.count + 1 < MAX_REGISTRATIONS
    ensures var id := SessionId(g.count + 1, g.gateId); id / 256 == g.count + 1 && id % 256 == g.gateId
    ensures forall d :: d in g.clients ==> g.clients[d].id != SessionId(g.count + 1, g.gateId)
  {
    SessionIdFields(g.count + 1, g.gateId);
    assert forall d :: d in g.clients ==> g.clients[d].id / 256 <= g.count;
  }

  lemma RegisterKeepsRegistered<C, T>(g: Gate<C, T>, c: C, info: Client<T>)
    requires Registered(g) && g.count + 1 < MAX_REGISTRATIONS
    ensures Registered(Register(g, c, info))
  {
    var id, r := SessionId(g.count + 1, g.gateId), Register(g, c, info);
    NextIdIsFresh(g);
    assert r.clients[c].id == id;
    forall d | d in r.clients && d != c
      ensures r.clients[d] == g.clients[d] && r.clients[d].id != id
      ensures r.clients[d].live ==> r.clients[d].id in r.table && r.table[r.clients[d].id] == d
    {
    }
    RegisterKeepsTable(g, c, info);
  }

  lemma RegisterKeepsTable<C, T>(g: Gate<C, T>, c: C, info: Client<T>)
    requires Registered(g)
    ensures var r := Register(g, c, info); forall k :: k in r.table ==> r.table[k] in r.clients
  {
  }

  lemma RegisterIsSound<C, T>(g: Gate<C, T>, c: C, info: Client<T>)
    requires Sound(g) && g.count + 1 < MAX_REGISTRATIONS
    requires info.conns == map[]
    ensures Sound(Register(g, c, info))
    ensures forall d :: d in g.clients ==> g.clients[d].id != SessionId(g.count + 1, g.gateId)
  {
    NextIdIsFresh(g);
    RegisterKeepsRegistered(g, c, info);
  }

  lemma WriteIsSound<C, T>(g: Gate<C, T>, t: T, msgs: seq<Msg>)
    requires Sound(g)
    ensures Sound(Write(g, t, msgs))
  {
  }

  lemma BindIsSound<C, T>(g: Gate<C, T>, c: C, server: nat, t: T)
    requires Sound(g) && c in g.clients && g.clients[c].verified
    requires t in g.trans && g.trans[t].up && g.trans[t].server == server
    ensures Sound(Bind(g, c, server, t))
  {
  }

  lemma CloseIsSound<C, T>(g: Gate<C, T>, c: C)
    requires Sound(g)
    ensures Sound(Close(g, c))
  {
  }

  lemma ConnectIsSound<C, T>(g: Gate<C, T>, t: T, server: nat, id: nat)
    requires Sound(g)
    ensures Sound(Connect(g, t, server, id))
  {
  }

  lemma DisconnectIsSound<C, T>(g: Gate<C, T>, t: T)
    requires Sound(g)
    ensures Sound(Disconnect(g, t))
  {
    if t in g.trans && g.trans[t].up {
      LiveClientsLeave(g, t);
      DisconnectKeepsGroup(g, t);
      var d := Disconnect(g, t);
      forall c, server | c in d.clients && server in d.clients[c].conns
        ensures d.clients[c].conns[server] == g.clients[c].conns[server]
      {
      }
    }
  }

  lemma DisconnectKeepsGroup<C, T>(g: Gate<C, T>, t: T)
    requires GroupIsUp(g) && t in g.trans && g.trans[t].up
    ensures GroupIsUp(Disconnect(g, t))
  {
    var d := Disconnect(g, t);
    assert forall server, id :: server in d.group && id in d.group[server] ==>
      d.group[server][id] == g.group[server][id];
  }

  lemma LiveClientsLeave<C, T>(g: Gate<C, T>, t: T)
    requires Sound(g) && t in g.trans && g.trans[t].up
    ensures var d := Disconnect(g, t);
      && Registered(d)
      && (forall c, server :: c in d.clients && d.clients[c].live && server in d.clients[c].conns ==>
            d.clients[c].conns[server] != t)
  {
    var d := Disconnect(g, t);
    forall c | c in g.clients ensures d.clients[c].id == g.clients[c].id && d.clients[c].live == g.clients[c].live {
    }
    forall c | c in g.clients && g.clients[c].live ensures d.clients[c] == Leave(g.clients[c], g.trans[t].server, t) {
      assert g.table[g.clients[c].id] == c;
      assert c in g.table.Values;
    }
  }

  /** After a disconnect neither the group nor any live client refers to the connection. */
  lemma DisconnectIsForgotten<C, T>(g: Gate<C, T>, t: T)
    requires Sound(g)
    ensures var d := Disconnect(g, t);
      && (forall server, id :: server in d.group && id in d.group[server] ==> d.group[server][id] != t)
      && (forall c, server :: c in d.clients && d.clients[c].live && server in d.clients[c].conns ==>
            d.clients[c].conns[server] != t)
  {
    DisconnectIsSound(g, t);
  }

  /** A connection refused by the group for its id takes, when it goes down, the instance with that id with it. */
  lemma DuplicateTakesTheOther<C, T>(g: Gate<C, T>, t: T, other: T, server: nat, id: nat)
    requires Sound(g) && t !in g.trans && server in g.group && id in g.group[server] && g.group[server][id] == other
    ensures var d := Disconnect(Connect(g, t, server, id), t);
      id !in d.group[server] && other in d.trans && d.trans[other].up
  {
  }
}
