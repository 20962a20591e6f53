/** The center's objects, each operation proved against the step of module CenterModel with the same effect. */
module Centers {
  import M = CenterModel

  /** A connected server; `inbox` collects the records it has been sent. */
  class ServerLink {
    const server: nat
    var id: nat
    var ip: nat
    var port: nat
    var ready: bool
    var inbox: seq<M.Record>

    /** After the handshake, which tells the type and perhaps claims an id. */
    constructor (server: nat, claim: nat)
      ensures this.server == server && View() == M.Link(server, claim, 0, 0, false, [])
    {
      this.server, id, ip, port, ready, inbox := server, claim, 0, 0, false, [];
    }

    ghost function View(): M.Link
      reads this
    {
      M.Link(server, id, ip, port, ready, inbox)
    }

    method SetIpPort(ip: nat, port: nat)
      modifies this`ip, this`port, this`ready
      ensures View() == old(View()).(ip := ip, port := port, ready := true)
    {
      this.ip, this.port, ready := ip, port, true;
    }

    function GetRegister(): M.Record
      reads this
    {
      M.Record(ip, port, server, id)
    }
  }

  /** The servers of one type. */
  class Server {
    var next: nat
    var conns: map<nat, ServerLink>

    constructor ()
      ensures View() == M.Table(0, map[])
    {
      next, conns := 0, map[];
    }

    ghost function View(): M.Table<ServerLink>
      reads this
    {
      M.Table(next, conns)
    }

    method PushServer(conn: ServerLink) returns (id: nat)
      modifies this
      ensures conn.id == 0 ==> View() == M.Pushed(old(View()), conn, 0) && id == M.GivenId(old(View()), 0)
      ensures conn.id != 0 ==> next == old(next) && conns == old(conns)[conn.id := conn] && id == conn.id
    {
      if conn.id == 0 {
        next := next + 1;
        next := next % 256;
        conns := conns[next := conn];
        id := next;
      } else {
        conns := conns[conn.id := conn];
        id := conn.id;
      }
    }

    method RemoveServer(id: nat) returns (ok: bool)
      modifies this
      ensures ok == (id in old(conns)) && View() == M.Removed(old(View()), id)
    {
      ok := id in conns;
      if ok {
        conns := conns - {id};
      }
    }
  }

  class Servers {
    var servers: map<nat, Server>

    constructor ()
      ensures servers == map[]
    {
      servers := map[];
    }

    ghost predicate Valid()
      reads this
    {
      forall i, j :: i in servers && j in servers && i != j ==> servers[i] != servers[j]
    }

    ghost function View(): map<nat, M.Table<ServerLink>>
      reads this, servers.Values
    {
      map i | i in servers :: servers[i].View()
    }

    method GetServer(server: nat) returns (s: Server)
      requires Valid()
      modifies this
      ensures Valid() && server in servers && servers[server] == s
      ensures forall o :: o in servers.Values ==> o in old(servers.Values) || fresh(o)
      ensures View() == M.Touch(old(View()), server)
    {
      if server !in servers {
        var o := new Server();
        servers := servers[server := o];
      }
      s := servers[server];
    }

    method PushServer(client: ServerLink) returns (id: nat)
      requires Valid()
      modifies this, servers.Values
      ensures Valid()
      ensures forall o :: o in servers.Values ==> o in old(servers.Values) || fresh(o)
      ensures var tables := M.Touch(old(View()), client.server);
        && View() == tables[client.server := M.Pushed(tables[client.server], client, client.id)]
        && id == M.GivenId(tables[client.server], client.id)
    {
      var server := GetServer(client.server);
      if client.id == 0 {
        id := server.PushServer(client);
      } else if client.id in server.conns {
        id := 0;
      } else {
        id := server.PushServer(client);
      }
    }

    method RemoveServer(client: ServerLink) returns (ok: bool)
      requires Valid()
      modifies this, servers.Values
      ensures Valid()
      ensures forall o :: o in servers.Values ==> o in old(servers.Values) || fresh(o)
      ensures var tables := M.Touch(old(View()), client.server);
        && View() == tables[client.server := M.Removed(tables[client.server], client.id)]
        && ok == (client.id in tables[client.server].conns)
    {
      var server := GetServer(client.server);
      ok := server.RemoveServer(client.id);
    }
  }

  class Center {
    const servers: Servers
    ghost var links: set<ServerLink>

    ghost predicate Valid()
      reads this, servers, servers.servers.Values
    {
      && servers.Valid()
      && (forall i, k :: i in servers.servers && k in servers.servers[i].conns ==> servers.servers[i].conns[k] in links)
    }

    ghost function View(): M.Data<ServerLink>
      reads this, servers, servers.servers.Values, links
    {
      M.Data(Links(), servers.View())
    }

    ghost function Links(): map<ServerLink, M.Link>
      reads this, links
    {
      map l | l in links :: l.View()
    }

    constructor ()
      ensures Valid() && fresh(servers) && View() == M.Data(map[], map[])
    {
      servers := new Servers();
      links := {};
    }

    ghost method AddLink(client: ServerLink)
      requires Valid() && client !in links
      modifies this`links
      ensures Valid() && links == old(links) + {client} && Links() == old(Links())[client := client.View()]
      ensures servers.View() == old(servers.View())
    {
      links := links + {client};
    }

    /** The link joins its table, or is refused. */
    method Push(client: ServerLink) returns (id: nat)
      requires Valid() && client in links
      modifies servers, servers.servers.Values
      ensures Valid() && Links() == old(Links())
      ensures var tables := M.Touch(old(servers.View()), client.server);
        && servers.View() == tables[client.server := M.Pushed(tables[client.server], client, client.id)]
        && id == M.GivenId(tables[client.server], client.id)
    {
      M.PushedEntries(servers.View(), client.server, client, client.id, links);
      id := servers.PushServer(client);
      EntriesAreKnown();
    }

    /** The first part of `Register`: the link enters the table of its type and learns its id. */
    method Register(client: ServerLink)
      requires Valid() && client !in links && client.View() == M.Link(client.server, client.id, 0, 0, false, [])
      modifies this`links, servers, servers.servers.Values, client`id
      ensures Valid() && View() == M.Enter(old(View()), client, client.server, old(client.id))
    {
      ghost var links, before := Links(), client.View();
      AddLink(client);
      var id := Push(client);
      assert Links() == links[client := before];
      Name(client, id);
      M.UpdateTwice(links, client, before, before.(id := id));
    }

    method Name(client: ServerLink, id: nat)
      requires Valid() && client in links
      modifies client`id
      ensures Valid() && servers.View() == old(servers.View())
      ensures Links() == old(Links())[client := old(client.View()).(id := id)]
    {
      client.id := id;
    }

    lemma EntriesAreKnown()
      requires forall i, k :: i in servers.View() && k in servers.View()[i].conns ==>
        servers.View()[i].conns[k] in links
      ensures forall i, k :: i in servers.servers && k in servers.servers[i].conns ==>
        servers.servers[i].conns[k] in links
    {
      forall i, k | i in servers.servers && k in servers.servers[i].conns
        ensures servers.servers[i].conns[k] in links
      {
        assert servers.View()[i].conns[k] == servers.servers[i].conns[k];
      }
    }

    /** What a registering gate reads: the records of the ready servers of other types, in any order. */
    method GetOtherServer() returns (regs: set<M.Record>)
      requires Valid()
      ensures regs == M.Others(View())
    {
      regs := {};
      var ids := servers.servers.Keys;
      while ids != {}
        invariant ids <= servers.servers.Keys
        invariant regs == set i, k | i in servers.servers && i !in ids && i > M.GATE && k in servers.servers[i].conns
                                     && servers.servers[i].conns[k].ready :: servers.servers[i].conns[k].GetRegister()
        decreases ids
      {
        var i :| i in ids;
        if i > M.GATE {
          var more := set k | k in servers.servers[i].conns && servers.servers[i].conns[k].ready
            :: servers.servers[i].conns[k].GetRegister();
          regs := regs + more;
        }
        ids := ids - {i};
      }
      assert forall i :: i in servers.servers ==> View().tables[i] == servers.servers[i].View();
      assert forall l :: l in links ==> View().links[l] == l.View();
    }

    /** One of the records a registering gate, or every gate on a broadcast, is sent. */
    method SendRecord(gate: ServerLink, r: M.Record)
      requires Valid() && gate in links
      modifies gate`inbox
      ensures Valid() && View() == M.Send(old(View()), gate, r)
    {
      gate.inbox := gate.inbox + [r];
      assert Links() == M.Send(old(View()), gate, r).links;
    }

    /** The first part of S_Register. */
    method SetAddress(client: ServerLink, ip: nat, port: nat)
      requires Valid() && client in links
      modifies client`ip, client`port, client`ready
      ensures Valid() && View() == M.SetAddress(old(View()), client, ip, port)
    {
      client.SetIpPort(ip, port);
      assert Links() == M.SetAddress(old(View()), client, ip, port).links;
    }

    /** Its second part: the gates to tell, when the server is of a type that is announced. */
    method GatesToTell(client: ServerLink) returns (gates: set<ServerLink>)
      requires Valid() && client in links
      ensures gates == if client.server > M.DATABASE then M.Gates(View()) else {}
    {
      gates := {};
      if client.server > M.DATABASE && M.GATE in servers.servers {
        gates := servers.servers[M.GATE].conns.Values;
      }
    }

    method UnRegister(client: ServerLink) returns (ok: bool)
      requires Valid() && client in links
      modifies servers, servers.servers.Values
      ensures Valid() && View() == M.Leave(old(View()), client)
    {
      ghost var d := M.Leave(View(), client);
      ok := servers.RemoveServer(client);
      assert servers.View() == d.tables;
      forall i, k | i in servers.servers && k in servers.servers[i].conns ensures servers.servers[i].conns[k] in links {
        assert servers.View()[i].conns[k] == servers.servers[i].conns[k];
        assert d.tables[i].conns[k] == old(View()).tables[i].conns[k];
      }
      assert Links() == old(Links());
    }
  }
}
