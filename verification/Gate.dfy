/**
 The gate's objects. Each handler is proved against the step of module GateModel with the same effect on the
 gate's `View`. `clients` and `trans` collect the connections there have been.
 */
module Gates {
  import opened Bytes
  import opened Protocol
  import M = GateModel
  import R = Relays

  /** A connection to a cluster, after its handshake. */
  class TranConn {
    const server: nat
    const id: nat
    var connect: bool
    var sent: seq<Msg>

    constructor (server: nat, id: nat)
      ensures this.server == server && this.id == id && connect && sent == []
    {
      this.server, this.id, connect, sent := server, id, true, [];
    }

    ghost function View(): M.Tran
      reads this
    {
      M.Tran(server, id, connect, sent)
    }

    method Send(m: Msg)
      modifies this`sent
      ensures sent == if connect then old(sent) + [m] else old(sent)
    {
      if connect {
        sent := sent + [m];
      }
    }
  }

  /** A websocket client; `outbox` holds what is to be framed and written to it. */
  class WSConn {
    var id: nat
    var firstPackage: bool
    var connect: bool
    const addr: seq<byte>
    var conns: map<nat, TranConn>
    var outbox: seq<(nat, seq<byte>)>

    constructor (addr: seq<byte>)
      ensures id == 0 && firstPackage && connect && this.addr == addr && conns == map[] && outbox == []
    {
      id, firstPackage, connect, this.addr, conns, outbox := 0, true, true, addr, map[], [];
    }

    method Send(session: nat, data: seq<byte>)
      modifies this`outbox
      ensures outbox == if connect then old(outbox) + [(session, data)] else old(outbox)
    {
      if connect {
        outbox := outbox + [(session, data)];
      }
    }

    ghost function View(): M.Client<TranConn>
      reads this
    {
      M.Client(id, addr, conns, !firstPackage, connect)
    }

    method SetLocation(server: nat, link: TranConn)
      modifies this`conns
      ensures conns == old(conns)[server := link]
    {
      conns := conns[server := link];
    }

    function GetLocation(server: nat): TranConn?
      reads this
    {
      if server in conns then conns[server] else null
    }

    method LeaveLocation(conn: TranConn)
      modifies this`conns
      ensures View() == M.Leave(old(View()), conn.server, conn)
    {
      var ser := GetLocation(conn.server);
      if ser == conn {
        conns := conns - {conn.server};
      }
    }
  }

  /** The instances of one server type. */
  class Server {
    var instances: map<nat, TranConn>

    constructor ()
      ensures instances == map[]
    {
      instances := map[];
    }

    method PushServer(t: TranConn) returns (ok: bool)
      modifies this
      ensures ok == (t.id !in old(instances))
      ensures instances == if ok then old(instances)[t.id := t] else old(instances)
    {
      ok := t.id !in instances;
      if ok {
        instances := instances[t.id := t];
      }
    }

    method RemoveServer(t: TranConn) returns (ok: bool)
      modifies this
      ensures ok == (t.id in old(instances))
      ensures instances == old(instances) - {t.id}
    {
      ok := t.id in instances;
      if ok {
        instances := instances - {t.id};
      }
    }

    /** Any instance: the iteration order of a Go map is not specified. */
    method GetInstance() returns (t: TranConn?, ghost pick: nat)
      ensures t == null <==> instances == map[]
      ensures t != null ==> pick in instances && instances[pick] == t
      ensures t == null ==> pick !in instances
    {
      pick := 0;
      if instances.Keys == {} {
        t := null;
      } else {
        var k :| k in instances.Keys;
        t, pick := instances[k], k;
      }
    }
  }

  class ServerGroup {
    var servers: map<nat, Server>

    constructor ()
      ensures servers == map[]
    {
      servers := map[];
    }

    ghost predicate Valid()
      reads this
    {
      forall i, j :: i in servers && j in servers && i != j ==> servers[i] != servers[j]
    }

    ghost function View(): map<nat, map<nat, TranConn>>
      reads this, servers.Values
    {
      map i | i in servers :: servers[i].instances
    }

    method PushServer(t: TranConn) returns (ok: bool)
      requires Valid()
      modifies this, servers.Values
      ensures Valid() && forall s :: s in servers.Values ==> s in old(servers.Values) || fresh(s)
      ensures ok == (t.server in old(View()) ==> t.id !in old(View())[t.server])
      ensures View() == M.PushInstance(old(View()), t.server, t.id, t)
    {
      if t.server !in servers {
        var s := new Server();
        servers := servers[t.server := s];
      }
      ok := servers[t.server].PushServer(t);
    }

    method RemoveServer(t: TranConn) returns (ok: bool)
      requires Valid()
      modifies servers.Values
      ensures Valid()
      ensures View() == M.RemoveInstance(old(View()), t.server, t.id)
    {
      ok := false;
      if t.server in servers {
        ok := servers[t.server].RemoveServer(t);
      }
    }

    method GetServer(server: nat) returns (t: TranConn?, ghost pick: nat)
      ensures t != null ==>
        server in servers && pick in servers[server].instances && servers[server].instances[pick] == t
      ensures t == null <==> server !in servers || servers[server].instances == map[]
    {
      t, pick := null, 0;
      if server in servers {
        t, pick := servers[server].GetInstance();
      }
    }
  }

  class Gate {
    var count: nat
    const gateId: nat
    var table: map<nat, WSConn>
    const group: ServerGroup
    ghost var clients: set<WSConn>
    ghost var trans: set<TranConn>

    ghost predicate Valid()
      reads this, group, group.servers.Values, clients, trans
    {
      && group.Valid()
      && table.Values <= clients
      && (forall c, i :: c in clients && i in c.conns ==> c.conns[i] in trans)
      && (forall i, k :: i in group.servers && k in group.servers[i].instances ==>
            group.servers[i].instances[k] in trans)
    }

    ghost function View(): M.Gate<WSConn, TranConn>
      reads this, group, group.servers.Values, clients, trans
    {
      M.Gate(count, gateId, table, Clients(), group.View(), Trans())
    }

    ghost function Clients(): map<WSConn, M.Client<TranConn>>
      reads this, clients
    {
      map c | c in clients :: c.View()
    }

    ghost function Trans(): map<TranConn, M.Tran>
      reads this, trans
    {
      map t | t in trans :: t.View()
    }

    constructor (gateId: nat)
      ensures Valid() && View() == M.Gate(0, gateId, map[], map[], map[], map[])
      ensures fresh(group)
    {
      this.gateId := gateId;
      count, table := 0, map[];
      group := new ServerGroup();
      clients, trans := {}, {};
    }

    function GetClient(id: nat): (c: WSConn?)
      reads this
      ensures c != null <==> id in table
      ensures c != null ==> table[id] == c
    {
      if id in table then table[id] else null
    }

    method Register(client: WSConn)
      requires Valid() && client in clients
      modifies this`count, this`table, client`id
      ensures Valid() && View() == M.Register(old(View()), client, old(client.View()))
      ensures Trans() == old(Trans()) && group.View() == old(group.View())
    {
      Enrol(client);
    }

    method Enrol(client: WSConn)
      requires Valid() && client in clients
      modifies this`count, this`table, client`id
      ensures Valid() && Trans() == old(Trans()) && group.View() == old(group.View())
      ensures count == old(count) + 1 && client.id == M.SessionId(count, gateId)
      ensures table == old(table)[client.id := client]
      ensures Clients() == old(Clients())[client := old(client.View()).(id := client.id)]
    {
      count := count + 1;
      client.id := (count * 0x100 + gateId) % 0x1_0000_0000;
      table := table[client.id := client];
      OneClientChanged(client);
    }

    /** When no client but `client` changes, the model's table of clients changes in one place. */
    twostate lemma OneClientChanged(client: WSConn)
      requires client in clients && clients == old(clients)
      requires forall c :: c in clients && c != client ==> c.View() == old(c.View())
      ensures Clients() == old(Clients())[client := client.View()]
    {
    }

    /** A connection joins those there have been. */
    ghost method AddClient(client: WSConn)
      requires Valid() && client !in clients && client.conns == map[]
      modifies this`clients
      ensures Valid() && clients == old(clients) + {client} && Clients() == old(Clients())[client := client.View()]
      ensures Trans() == old(Trans()) && group.View() == old(group.View())
    {
      clients := clients + {client};
    }

    method CreateWS(addr: seq<byte>) returns (client: WSConn)
      requires Valid()
      modifies this`count, this`table, this`clients
      ensures Valid() && fresh(client) && View() == M.Accept(old(View()), client, addr)
    {
      ghost var g := View();
      client := new WSConn(addr);
      AddClient(client);
      assert View() == g.(clients := g.clients[client := M.Client(0, addr, map[], false, true)]);
      Register(client);
      M.RegisterOver(g, client, M.Client(0, addr, map[], false, true));
    }

    /** The first package of a client, after which its messages are handled. */
    method FirstPackage(client: WSConn)
      requires Valid() && client in clients && client.connect && client.firstPackage
      modifies this`count, this`table, client`id, client`firstPackage
      ensures Valid() && View() == M.Verify(old(View()), client)
    {
      ghost var g, before := View(), client.View();
      client.firstPackage := false;
      OneClientChanged(client);
      ghost var info := before.(verified := true);
      assert View() == g.(clients := g.clients[client := info]);
      Register(client);
      M.RegisterOver(g, client, info);
    }

    /** `Send` on one of the gate's connections. */
    method Write(t: TranConn, m: Msg)
      requires Valid() && t in trans
      modifies t`sent
      ensures Valid() && View() == M.Write(old(View()), t, [m])
      ensures Clients() == old(Clients()) && group.View() == old(group.View())
    {
      t.Send(m);
      assert Trans() == M.Write(old(View()), t, [m]).trans;
    }

    method Bind(client: WSConn, server: nat, t: TranConn)
      requires Valid() && client in clients && t in trans
      modifies client`conns
      ensures Valid() && View() == M.Bind(old(View()), client, server, t)
    {
      client.SetLocation(server, t);
      OneClientChanged(client);
      assert Trans() == old(Trans());
    }

    /** The first message of a client to a server type. */
    method Introduce(client: WSConn, server: nat, t: TranConn, data: seq<byte>)
      requires Valid() && client in clients && t in trans
      modifies client`conns, t`sent
      ensures Valid()
      ensures var msgs := [Link(client.id, client.addr), Data(client.id, data)];
        View() == M.Bind(M.Write(old(View()), t, msgs), client, server, t)
    {
      var link, body := Link(client.id, client.addr), Data(client.id, data);
      M.WriteTwice(View(), t, link, body);
      Write(t, link);
      Write(t, body);
      Bind(client, server, t);
    }

    method OnClientMessage(server: nat, msgid: nat, data: seq<byte>, client: WSConn) returns (ghost pick: nat)
      requires Valid() && client in clients && client.connect && !client.firstPackage
      modifies client`conns, trans`sent
      ensures Valid() && View() == M.Message(old(View()), client, server, msgid, data, pick)
      ensures msgid != 0 && server !in old(client.conns) && server in group.View() && group.View()[server] != map[] ==>
        pick in group.View()[server]
    {
      pick := 0;
      if msgid == 0 {
        return;
      }
      ghost var g := View();
      assert g.clients[client] == client.View();
      var ser := client.GetLocation(server);
      if ser == null {
        var other;
        other, pick := group.GetServer(server);
        if other != null {
          Introduce(client, server, other, data);
        }
      } else {
        Write(ser, Data(client.id, data));
      }
    }

    /** A packet from a cluster; those for the gate itself are left out here. */
    method OnTranMessage(session: nat, option: nat, data: seq<byte>)
      requires Valid()
      modifies clients`outbox
      ensures Valid() && View() == old(View())
      ensures forall c :: c in clients ==>
        c.outbox == old(c.outbox) +
          if option != 1 && session in View().table && View().table[session] == c && View().clients[c].live
          then [(session, data)] else []
    {
      if option != R.SERVER {
        var c := GetClient(session);
        if c != null {
          c.Send(session, data);
        }
      }
    }

    /** `UnRegister` of a gate without a sink. */
    method RemoveClientLink(client: WSConn)
      requires Valid() && client in clients && client.connect
      requires M.RoutesAreFresh(View())
      modifies this`table, client`connect, trans`sent
      ensures Valid()
      ensures View() == M.BreakAll(M.Close(old(View()), client), client, old(client.conns.Values))
    {
      assert forall r :: r in client.conns ==> client.conns[r].server == r by {
        assert View().clients[client] == client.View();
        assert forall t :: t in trans ==> View().trans[t] == t.View();
      }
      CloseClient(client);
      TellAll(client);
    }

    /** A break to every connection the client is bound to. */
    method TellAll(client: WSConn)
      requires Valid() && client in clients
      requires forall r :: r in client.conns ==> client.conns[r].server == r
      modifies trans`sent
      ensures Valid() && View() == M.BreakAll(old(View()), client, client.conns.Values)
    {
      ghost var g := View();
      assert g.clients[client] == client.View();
      ghost var told: set<TranConn> := {};
      M.NoBreaks(g, client);
      var links := client.conns.Keys;
      while links != {}
        invariant Valid() && links <= client.conns.Keys
        invariant forall t :: t in told <==>
          t.server in client.conns && t.server !in links && client.conns[t.server] == t
        invariant View() == M.BreakAll(g, client, told)
        decreases links
      {
        var s :| s in links;
        var t := client.conns[s];
        M.BreaksOneByOne(g, client, told, t);
        Write(t, Break(client.id));
        links := links - {s};
        told := told + {t};
      }
      assert told == client.conns.Values;
    }

    /** The client is gone: it leaves the table. */
    method CloseClient(client: WSConn)
      requires Valid() && client in clients && client.connect
      modifies this`table, client`connect
      ensures Valid() && View() == M.Close(old(View()), client)
      ensures Trans() == old(Trans())
    {
      assert View().clients[client] == client.View();
      HangUp(client);
    }

    method HangUp(client: WSConn)
      requires Valid() && client in clients
      modifies this`table, client`connect
      ensures Valid() && Trans() == old(Trans()) && group.View() == old(group.View())
      ensures table == old(table) - {client.id}
      ensures Clients() == old(Clients())[client := old(client.View()).(live := false)]
    {
      client.connect := false;
      table := table - {client.id};
      OneClientChanged(client);
    }

    ghost method AddTran(t: TranConn)
      requires Valid() && t !in trans
      modifies this`trans
      ensures Valid() && trans == old(trans) + {t} && Trans() == old(Trans())[t := t.View()]
      ensures Clients() == old(Clients()) && group.View() == old(group.View())
    {
      trans := trans + {t};
    }

    method OnTranConnected(t: TranConn)
      requires Valid() && t !in trans && t.connect && t.sent == []
      modifies this`trans, group, group.servers.Values
      ensures Valid() && View() == M.Connect(old(View()), t, t.server, t.id)
    {
      AddTran(t);
      PushTran(t);
    }

    /** The connection joins the group. */
    method PushTran(t: TranConn)
      requires Valid() && t in trans
      modifies group, group.servers.Values
      ensures Valid() && group.View() == M.PushInstance(old(group.View()), t.server, t.id, t)
      ensures Clients() == old(Clients()) && Trans() == old(Trans())
    {
      M.PushedInstances(group.View(), t.server, t.id, t, trans);
      var ok := group.PushServer(t);
      GroupIsKnown();
    }

    lemma GroupIsKnown()
      requires forall i, k :: i in group.View() && k in group.View()[i] ==> group.View()[i][k] in trans
      ensures forall i, k :: i in group.servers && k in group.servers[i].instances ==>
        group.servers[i].instances[k] in trans
    {
      forall i, k | i in group.servers && k in group.servers[i].instances
        ensures group.servers[i].instances[k] in trans
      {
        assert group.View()[i][k] == group.servers[i].instances[k];
      }
    }

    /** The connection is gone, from the group as well. */
    method DropTran(t: TranConn)
      requires Valid() && t in trans && t.connect
      modifies t`connect, group.servers.Values
      ensures Valid()
      ensures Clients() == old(Clients()) && group.View() == M.RemoveInstance(old(group.View()), t.server, t.id)
      ensures Trans() == old(Trans())[t := old(t.View()).(up := false)]
    {
      M.RemainingInstances(group.View(), t.server, t.id, trans);
      t.connect := false;
      var ok := group.RemoveServer(t);
      GroupIsKnown();
    }

    /** One client leaves the connection. */
    method LeaveOne(client: WSConn, t: TranConn)
      requires Valid() && client in clients
      modifies client`conns
      ensures Valid() && Trans() == old(Trans()) && group.View() == old(group.View())
      ensures Clients() == old(Clients())[client := M.Leave(old(Clients())[client], t.server, t)]
    {
      client.LeaveLocation(t);
    }

    method OnTranDisconect(t: TranConn)
      requires Valid() && t in trans && t.connect
      modifies t`connect, group.servers.Values, clients`conns
      ensures Valid() && View() == M.Disconnect(old(View()), t)
    {
      ghost var before := Clients();
      DropTran(t);
      ghost var dropped, rest := Trans(), group.View();
      ghost var left: set<WSConn> := {};
      assert Clients() == M.LeaveAll(before, left, t.server, t);
      var ids := table.Keys;
      while ids != {}
        invariant Valid() && ids <= table.Keys && Trans() == dropped && group.View() == rest
        invariant forall c :: c in left <==> exists k :: k in table && k !in ids && table[k] == c
        invariant Clients() == M.LeaveAll(before, left, t.server, t)
        decreases ids
      {
        var k :| k in ids;
        LeaveOne(table[k], t);
        M.LeaveAllMoves(before, left, table[k], t.server, t);
        ids := ids - {k};
        left := left + {table[k]};
      }
      assert left == table.Values;
    }
  }
}
