/** What holds of the center in every run. */
module CenterSafety {
  import opened CenterModel

  // ---- The tables ----

  /** Every entry is a link filed under its own type and id. */
  ghost predicate FiledRight<L>(d: Data<L>) {
    forall server, id :: server in d.tables && id in d.tables[server].conns ==>
      var l := d.tables[server].conns[id];
      l in d.links && d.links[l].server == server && d.links[l].id == id
  }

  ghost predicate Known<L>(s: System<L>) {
    && s.phase.Keys == s.data.links.Keys == s.addresses.Keys
    && s.reading.Keys <= s.data.links.Keys && s.served <= s.data.links.Keys && s.reading.Keys !! s.served
    && (forall l :: l in s.data.links ==> (s.data.links[l].ready <==> !s.phase[l].Silent?))
    && (forall l :: l in s.data.links && s.phase[l].Telling? && s.data.links[l].server <= DATABASE ==>
          s.phase[l].gates == {})
  }

  // ---- Announcements ----

  /** A gate that has begun to read the servers. */
  predicate Past<L(==)>(s: System<L>, g: L) {
    g in s.reading || g in s.served
  }

  /** The gate has been sent the record, or has read it and will be. */
  predicate Reached<L(==)>(s: System<L>, g: L, r: Record) {
    g in s.data.links && (r in s.data.links[g].inbox || (g in s.reading && r in s.reading[g]))
  }

  /** Between a gate past reading and a server there is a record sent, or one on its way. */
  predicate Covered<L(==)>(s: System<L>, g: L, l: L) {
    g in s.data.links && l in s.data.links && l in s.phase
    && Tabled(s.data, g) && s.data.links[g].server == GATE && Past(s, g)
    && Tabled(s.data, l) && s.data.links[l].server > DATABASE ==>
      && (s.phase[l].Announced? ==> Reached(s, g, RecordOf(s.data.links[l])))
      && (s.phase[l].Telling? ==> g in s.phase[l].gates || Reached(s, g, RecordOf(s.data.links[l])))
  }

  /** Nothing is missed. */
  ghost predicate NothingMissed<L>(s: System<L>) {
    forall g, l :: g in s.data.links && l in s.data.links ==> Covered(s, g, l)
  }

  /** The record names a link's type and id, and an address that link has set. */
  ghost predicate Genuine<L>(s: System<L>, r: Record)
    requires Known(s)
  {
    exists l :: l in s.data.links && s.data.links[l].ready
                && r.server == s.data.links[l].server && r.id == s.data.links[l].id
                && (r.ip, r.port) in s.addresses[l]
  }

  ghost predicate NothingInvented<L>(s: System<L>)
    requires Known(s)
  {
    && (forall l :: l in s.data.links && s.data.links[l].ready ==>
          (s.data.links[l].ip, s.data.links[l].port) in s.addresses[l])
    && (forall g, i :: g in s.data.links && 0 <= i < |s.data.links[g].inbox| ==> Genuine(s, s.data.links[g].inbox[i]))
    && (forall g :: g in s.reading ==> forall r :: r in s.reading[g] ==> Genuine(s, r))
  }

  ghost predicate Inv<L>(s: System<L>) {
    FiledRight(s.data) && Known(s) && NothingMissed(s) && NothingInvented(s)
  }

  /** Links keep their identity, and their addresses only grow. */
  ghost predicate Grows<L>(s: System<L>, t: System<L>)
    requires Known(s) && Known(t)
  {
    forall l :: l in s.data.links ==>
      && l in t.data.links
      && t.data.links[l].server == s.data.links[l].server && t.data.links[l].id == s.data.links[l].id
      && (s.data.links[l].ready ==> t.data.links[l].ready) && s.addresses[l] <= t.addresses[l]
  }

  lemma StaysGenuine<L>(s: System<L>, t: System<L>, r: Record)
    requires Known(s) && Known(t) && Grows(s, t) && Genuine(s, r)
    ensures Genuine(t, r)
  {
    var l :| l in s.data.links && s.data.links[l].ready
             && r.server == s.data.links[l].server && r.id == s.data.links[l].id
             && (r.ip, r.port) in s.addresses[l];
    assert l in t.data.links && t.data.links[l].ready && (r.ip, r.port) in t.addresses[l];
  }

  /** A step that sends and reads only genuine records. */
  lemma InventsNothing<L>(s: System<L>, t: System<L>)
    requires Known(s) && Known(t) && Grows(s, t) && NothingInvented(s)
    requires forall l :: l in t.data.links && t.data.links[l].ready ==>
      (t.data.links[l].ip, t.data.links[l].port) in t.addresses[l]
    requires forall g :: g in t.data.links ==>
      forall r :: r in t.data.links[g].inbox ==> Genuine(s, r) || Genuine(t, r)
    requires forall g :: g in t.reading ==> forall r :: r in t.reading[g] ==> Genuine(s, r) || Genuine(t, r)
    ensures NothingInvented(t)
  {
    forall r | Genuine(s, r) ensures Genuine(t, r) {
      StaysGenuine(s, t, r);
    }
  }

  lemma InboxIsGenuine<L>(s: System<L>, g: L)
    requires Known(s) && NothingInvented(s) && g in s.data.links
    ensures forall r :: r in s.data.links[g].inbox ==> Genuine(s, r)
  {
    forall r | r in s.data.links[g].inbox ensures Genuine(s, r) {
      var i :| 0 <= i < |s.data.links[g].inbox| && s.data.links[g].inbox[i] == r;
    }
  }

  lemma InboxesAreGenuine<L>(s: System<L>)
    requires Known(s) && NothingInvented(s)
    ensures forall g :: g in s.data.links ==> forall r :: r in s.data.links[g].inbox ==> Genuine(s, r)
  {
    forall g | g in s.data.links ensures forall r :: r in s.data.links[g].inbox ==> Genuine(s, r) {
      InboxIsGenuine(s, g);
    }
  }

  // ---- Each step ----

  lemma EnteredKeepsInv<L>(s: System<L>, l: L, server: nat, claim: nat)
    requires Inv(s)
    ensures Inv(Step(s, Entered(l, server, claim)))
  {
    var t := Step(s, Entered(l, server, claim));
    if l !in s.data.links {
      EnterFilesRight(s.data, l, server, claim);
      EnteredInvents(s, l, server, claim);
      EnteredCovers(s, l, server, claim);
    }
  }

  lemma EnteredInvents<L>(s: System<L>, l: L, server: nat, claim: nat)
    requires Known(s) && NothingInvented(s) && l !in s.data.links
    ensures var t := Step(s, Entered(l, server, claim)); Known(t) && NothingInvented(t)
  {
    NewcomerInvents(s, Step(s, Entered(l, server, claim)), l);
  }

  /** A new link that is not ready and has been sent nothing. */
  lemma NewcomerInvents<L>(s: System<L>, t: System<L>, l: L)
    requires Known(s) && Known(t) && NothingInvented(s) && l !in s.data.links && l in t.data.links
    requires t.data.links == s.data.links[l := t.data.links[l]] && t.addresses == s.addresses[l := {}]
    requires !t.data.links[l].ready && t.data.links[l].inbox == [] && t.reading == s.reading
    ensures NothingInvented(t)
  {
    InboxesAreGenuine(s);
    InventsNothing(s, t);
  }

  lemma EnteredCovers<L>(s: System<L>, l: L, server: nat, claim: nat)
    requires Inv(s) && l !in s.data.links
    ensures NothingMissed(Step(s, Entered(l, server, claim)))
  {
    var t := Step(s, Entered(l, server, claim));
    EnterTablesNoOther(s.data, l, server, claim);
    forall g, k | g in t.data.links && k in t.data.links ensures Covered(t, g, k) {
      if g != l && k != l {
        assert Covered(s, g, k);
        assert t.data.links[g] == s.data.links[g] && t.data.links[k] == s.data.links[k];
      }
    }
  }

  lemma EnterFilesRight<L>(d: Data<L>, l: L, server: nat, claim: nat)
    requires FiledRight(d) && l !in d.links
    ensures FiledRight(Enter(d, l, server, claim))
  {
    var e := Enter(d, l, server, claim);
    var tables := Touch(d.tables, server);
    assert forall s :: s in e.tables && s != server ==> s in d.tables && e.tables[s] == d.tables[s];
    assert forall id :: id in e.tables[server].conns && e.tables[server].conns[id] != l ==>
      id in tables[server].conns && tables[server].conns[id] == e.tables[server].conns[id];
  }

  lemma EnterTablesNoOther<L>(d: Data<L>, l: L, server: nat, claim: nat)
    requires l !in d.links
    ensures forall k :: k in d.links && Tabled(Enter(d, l, server, claim), k) ==> Tabled(d, k)
  {
  }

  lemma OthersAreGenuine<L>(s: System<L>)
    requires Inv(s)
    ensures forall r :: r in Others(s.data) ==> Genuine(s, r)
    ensures forall l :: Tabled(s.data, l) && s.data.links[l].server > GATE && s.data.links[l].ready ==>
      RecordOf(s.data.links[l]) in Others(s.data)
  {
    forall l | Tabled(s.data, l) && s.data.links[l].server > GATE && s.data.links[l].ready
      ensures RecordOf(s.data.links[l]) in Others(s.data)
    {
      assert s.data.tables[s.data.links[l].server].conns[s.data.links[l].id] == l;
    }
    forall r | r in Others(s.data) ensures Genuine(s, r) {
      var server, id :| server in s.data.tables && server > GATE && id in s.data.tables[server].conns
                        && s.data.tables[server].conns[id] in s.data.links
                        && s.data.links[s.data.tables[server].conns[id]].ready
                        && r == RecordOf(s.data.links[s.data.tables[server].conns[id]]);
      var l := s.data.tables[server].conns[id];
      assert (r.ip, r.port) in s.addresses[l];
    }
  }

  lemma ServersReadKeepsInv<L>(s: System<L>, g: L)
    requires Inv(s)
    ensures Inv(Step(s, ServersRead(g)))
  {
    var t := Step(s, ServersRead(g));
    if t != s {
      OthersAreGenuine(s);
      InboxesAreGenuine(s);
      InventsNothing(s, t);
      ServersReadCovers(s, g);
    }
  }

  lemma ServersReadCovers<L>(s: System<L>, g: L)
    requires Inv(s) && Step(s, ServersRead(g)) != s
    ensures NothingMissed(Step(s, ServersRead(g)))
  {
    var t := Step(s, ServersRead(g));
    OthersAreGenuine(s);
    forall h, l | h in t.data.links && l in t.data.links ensures Covered(t, h, l) {
      assert Covered(s, h, l);
    }
  }

  lemma RecordSentKeepsInv<L>(s: System<L>, g: L, r: Record)
    requires Inv(s)
    ensures Inv(Step(s, RecordSent(g, r)))
  {
    var t := Step(s, RecordSent(g, r));
    if t != s {
      InboxesAreGenuine(s);
      SendReaches(s.data, g, r);
      InventsNothing(s, t);
      RecordSentCovers(s, g, r);
    }
  }

  lemma RecordSentCovers<L>(s: System<L>, g: L, r: Record)
    requires Inv(s) && Step(s, RecordSent(g, r)) != s
    ensures NothingMissed(Step(s, RecordSent(g, r)))
  {
    var t := Step(s, RecordSent(g, r));
    SendReaches(s.data, g, r);
    forall h, l | h in t.data.links && l in t.data.links ensures Covered(t, h, l) {
      assert Covered(s, h, l);
      SentStaysCovered(s, g, r, h, l);
    }
  }

  lemma SentStaysCovered<L>(s: System<L>, g: L, r: Record, h: L, l: L)
    requires Known(s) && Step(s, RecordSent(g, r)) != s && h in s.data.links && l in s.data.links && Covered(s, h, l)
    ensures Covered(Step(s, RecordSent(g, r)), h, l)
  {
    var t := Step(s, RecordSent(g, r));
    SendReaches(s.data, g, r);
    assert RecordOf(t.data.links[l]) == RecordOf(s.data.links[l]);
  }

  lemma RegisterDoneKeepsInv<L>(s: System<L>, g: L)
    requires Inv(s)
    ensures Inv(Step(s, RegisterDone(g)))
  {
    var t := Step(s, RegisterDone(g));
    if t != s {
      InboxesAreGenuine(s);
      InventsNothing(s, t);
      forall h, l | h in t.data.links && l in t.data.links ensures Covered(t, h, l) {
        assert Covered(s, h, l);
      }
    }
  }

  lemma AddressSetKeepsInv<L>(s: System<L>, k: L, ip: nat, port: nat)
    requires Inv(s)
    ensures Inv(Step(s, AddressSet(k, ip, port)))
  {
    var t := Step(s, AddressSet(k, ip, port));
    if t != s {
      AddressSetInvents(s, k, ip, port);
      AddressSetCovers(s, k, ip, port);
    }
  }

  lemma AddressSetInvents<L>(s: System<L>, k: L, ip: nat, port: nat)
    requires Known(s) && NothingInvented(s)
    ensures var t := Step(s, AddressSet(k, ip, port)); Known(t) && NothingInvented(t)
  {
    var t := Step(s, AddressSet(k, ip, port));
    if t != s {
      InboxesAreGenuine(s);
      InventsNothing(s, t);
    }
  }

  lemma AddressSetCovers<L>(s: System<L>, k: L, ip: nat, port: nat)
    requires Inv(s) && Step(s, AddressSet(k, ip, port)) != s
    ensures NothingMissed(Step(s, AddressSet(k, ip, port)))
  {
    var t := Step(s, AddressSet(k, ip, port));
    assert forall l :: l in s.data.links && l != k ==> t.data.links[l] == s.data.links[l];
    forall h, l | h in t.data.links && l in t.data.links ensures Covered(t, h, l) {
      assert Covered(s, h, l);
    }
  }

  lemma BroadcastBegunKeepsInv<L>(s: System<L>, k: L)
    requires Inv(s)
    ensures Inv(Step(s, BroadcastBegun(k)))
  {
    var t := Step(s, BroadcastBegun(k));
    if t != s {
      InboxesAreGenuine(s);
      InventsNothing(s, t);
      forall h, l | h in t.data.links && l in t.data.links ensures Covered(t, h, l) {
        assert Covered(s, h, l);
        assert Tabled(s.data, h) && s.data.links[h].server == GATE ==> h in Gates(s.data);
      }
    }
  }

  lemma GateToldKeepsInv<L>(s: System<L>, k: L, g: L)
    requires Inv(s)
    ensures Inv(Step(s, GateTold(k, g)))
  {
    var t := Step(s, GateTold(k, g));
    if t != s {
      var r := RecordOf(s.data.links[k]);
      InboxesAreGenuine(s);
      assert Genuine(s, r) by {
        assert (r.ip, r.port) in s.addresses[k];
      }
      SendInvents(s, t, g, r);
      GateToldCovers(s, k, g);
    }
  }

  lemma SendInvents<L>(s: System<L>, t: System<L>, g: L, r: Record)
    requires Known(s) && Known(t) && NothingInvented(s) && Genuine(s, r)
    requires t.data == Send(s.data, g, r) && t.addresses == s.addresses
    requires forall h :: h in t.reading ==> h in s.reading && t.reading[h] <= s.reading[h]
    ensures NothingInvented(t)
  {
    InboxesAreGenuine(s);
    SendReaches(s.data, g, r);
    InventsNothing(s, t);
  }

  /** A send changes nothing but one inbox, by one record. */
  lemma SendReaches<L>(d: Data<L>, g: L, r: Record)
    ensures var e := Send(d, g, r);
      && e.tables == d.tables && e.links.Keys == d.links.Keys
      && (forall h :: h in d.links ==> e.links[h].(inbox := []) == d.links[h].(inbox := []))
      && (forall h :: h in d.links ==> forall q :: q in d.links[h].inbox ==> q in e.links[h].inbox)
      && (forall h :: h in d.links ==>
            forall q :: q in e.links[h].inbox ==> q in d.links[h].inbox || (h == g && q == r))
      && (g in d.links ==> r in e.links[g].inbox)
  {
    if g in d.links {
      assert r in d.links[g].inbox + [r];
    }
  }

  lemma GateToldCovers<L>(s: System<L>, k: L, g: L)
    requires Inv(s) && Step(s, GateTold(k, g)) != s
    ensures NothingMissed(Step(s, GateTold(k, g)))
  {
    var t, r := Step(s, GateTold(k, g)), RecordOf(s.data.links[k]);
    SendReaches(s.data, g, r);
    forall h, l | h in t.data.links && l in t.data.links ensures Covered(t, h, l) {
      assert Covered(s, h, l);
      StillCovered(s, k, g, h, l);
    }
  }

  lemma StillCovered<L>(s: System<L>, k: L, g: L, h: L, l: L)
    requires Known(s) && Step(s, GateTold(k, g)) != s && h in s.data.links && l in s.data.links && Covered(s, h, l)
    ensures Covered(Step(s, GateTold(k, g)), h, l)
  {
    var t, r := Step(s, GateTold(k, g)), RecordOf(s.data.links[k]);
    SendReaches(s.data, g, r);
    assert RecordOf(t.data.links[l]) == RecordOf(s.data.links[l]);
  }

  lemma BroadcastDoneKeepsInv<L>(s: System<L>, k: L)
    requires Inv(s)
    ensures Inv(Step(s, BroadcastDone(k)))
  {
    var t := Step(s, BroadcastDone(k));
    if t != s {
      InboxesAreGenuine(s);
      InventsNothing(s, t);
      forall h, l | h in t.data.links && l in t.data.links ensures Covered(t, h, l) {
        assert Covered(s, h, l);
      }
    }
  }

  lemma LeftKeepsInv<L>(s: System<L>, k: L)
    requires Inv(s)
    ensures Inv(Step(s, Left(k)))
  {
    var t := Step(s, Left(k));
    if t != s {
      InboxesAreGenuine(s);
      InventsNothing(s, t);
      forall h, l | h in t.data.links && l in t.data.links ensures Covered(t, h, l) {
        assert Covered(s, h, l);
        assert Tabled(t.data, h) ==> Tabled(s.data, h);
        assert Tabled(t.data, l) ==> Tabled(s.data, l);
      }
    }
  }

  lemma StepKeepsInv<L>(s: System<L>, e: Event<L>)
    requires Inv(s)
    ensures Inv(Step(s, e))
  {
    match e
    case Entered(l, server, claim) => EnteredKeepsInv(s, l, server, claim);
    case ServersRead(g) => ServersReadKeepsInv(s, g);
    case RecordSent(g, r) => RecordSentKeepsInv(s, g, r);
    case RegisterDone(g) => RegisterDoneKeepsInv(s, g);
    case AddressSet(l, ip, port) => AddressSetKeepsInv(s, l, ip, port);
    case BroadcastBegun(l) => BroadcastBegunKeepsInv(s, l);
    case GateTold(l, g) => GateToldKeepsInv(s, l, g);
    case BroadcastDone(l) => BroadcastDoneKeepsInv(s, l);
    case Left(l) => LeftKeepsInv(s, l);
  }

  lemma {:induction false} RunKeepsInv<L>(s: System<L>, es: seq<Event<L>>)
    requires Inv(s)
    ensures Inv(Run(s, es))
    decreases |es|
  {
    if es != [] {
      StepKeepsInv(s, es[0]);
      RunKeepsInv(Step(s, es[0]), es[1..]);
    }
  }

  // ---- What this means ----

  /**
   No announcement is missed: however the steps interleave, a gate in the table whose registration is complete has
   been sent the present record of every server in the tables, of a type above 2, whose S_Register is complete.
   */
  lemma NoAnnouncementIsMissed<L>(es: seq<Event<L>>, g: L, l: L)
    requires var s := Run(Init<L>(), es);
      && g in s.served && Tabled(s.data, g) && s.data.links[g].server == 1
      && l in s.phase && s.phase[l].Announced? && Tabled(s.data, l) && s.data.links[l].server > 2
    ensures var s := Run(Init<L>(), es); RecordOf(s.data.links[l]) in s.data.links[g].inbox
  {
    RunKeepsInv(Init<L>(), es);
    assert Covered(Run(Init<L>(), es), g, l);
  }

  /** Nothing is sent for a server before its address is set: every record carries one that its server did set. */
  lemma RecordsAreGenuine<L>(es: seq<Event<L>>, g: L, i: nat)
    requires var s := Run(Init<L>(), es); g in s.data.links && i < |s.data.links[g].inbox|
    ensures var s := Run(Init<L>(), es); Known(s) && Genuine(s, s.data.links[g].inbox[i])
  {
    RunKeepsInv(Init<L>(), es);
  }

  /** In every run each entry of a table sits under its own type and id. */
  lemma EntriesAreFiledRight<L>(es: seq<Event<L>>)
    ensures FiledRight(Run(Init<L>(), es).data)
  {
    RunKeepsInv(Init<L>(), es);
  }

  /** Types up to 2 have no such guarantee: a complete S_Register of one leaves a registered gate without its record. */
  lemma LowTypesAreNotAnnounced(k: nat)
    requires k <= 2
    ensures var s := Run(Init<nat>(), [Entered(0, 1, 0), ServersRead(0), RegisterDone(0), Entered(1, k, 0),
                                       AddressSet(1, 7, 8), BroadcastBegun(1), BroadcastDone(1)]);
      && 0 in s.served && Tabled(s.data, 0) && s.data.links[0].server == 1
      && 1 in s.phase && s.phase[1].Announced? && Tabled(s.data, 1) && s.data.links[1].server == k
      && s.data.links[0].inbox == []
  {
    var gate: seq<Event<nat>> := [Entered(0, GATE, 0), ServersRead(0), RegisterDone(0)];
    var late: seq<Event<nat>> := [AddressSet(1, 7, 8), BroadcastBegun(1), BroadcastDone(1)];
    var es := gate + [Entered(1, k, 0)] + late;
    assert es == [Entered(0, GATE, 0), ServersRead(0), RegisterDone(0), Entered(1, k, 0),
                  AddressSet(1, 7, 8), BroadcastBegun(1), BroadcastDone(1)];
    GateAlone();
    LateServer(k);
    RunFour(Init<nat>(), Entered(0, GATE, 0), ServersRead(0), RegisterDone(0), Entered(1, k, 0), late);
  }

  /** A gate that has registered before any other server. */
  function GateOnly(): System<nat> {
    System(Data(map[0 := Link(GATE, 1, 0, 0, false, [])], map[GATE := Table(1, map[1 := 0])]),
           map[0 := Silent], map[], {0}, map[0 := {}], {})
  }

  lemma GateAlone()
    ensures Step(Step(Step(Init<nat>(), Entered(0, GATE, 0)), ServersRead(0)), RegisterDone(0)) == GateOnly()
  {
    var s1 := Step(Init<nat>(), Entered(0, GATE, 0));
    assert s1.data == GateOnly().data;
    assert Others(s1.data) == {};
    var s2 := Step(s1, ServersRead(0));
    assert s2.reading == map[0 := {}];
    assert s2.reading - {0} == map[];
  }

  /** The gate 0 is registered and has been sent nothing, and the server 1 of type `k` is in its table. */
  predicate GateAndServer(s: System<nat>, k: nat, phase: Phase<nat>) {
    && 0 in s.served && Tabled(s.data, 0) && s.data.links[0].server == GATE && s.data.links[0].inbox == []
    && Open(s, 1) && s.phase[1] == phase && Tabled(s.data, 1) && s.data.links[1].server == k
  }

  lemma ServerEnters(k: nat)
    ensures GateAndServer(Step(GateOnly(), Entered(1, k, 0)), k, Silent)
  {
  }

  lemma TellsNoOne(s: System<nat>, k: nat)
    requires k <= DATABASE
    ensures GateAndServer(s, k, Silent) ==> GateAndServer(Step(s, AddressSet(1, 7, 8)), k, Addressed)
    ensures GateAndServer(s, k, Addressed) ==> GateAndServer(Step(s, BroadcastBegun(1)), k, Telling({}))
    ensures GateAndServer(s, k, Telling({})) ==> GateAndServer(Step(s, BroadcastDone(1)), k, Announced)
  {
  }

  lemma LateServer(k: nat)
    requires k <= DATABASE
    ensures var s := Run(Step(GateOnly(), Entered(1, k, 0)),
                         [AddressSet(1, 7, 8), BroadcastBegun(1), BroadcastDone(1)]);
      GateAndServer(s, k, Announced)
  {
    var s4 := Step(GateOnly(), Entered(1, k, 0));
    RunThree(s4, AddressSet(1, 7, 8), BroadcastBegun(1), BroadcastDone(1));
    ServerEnters(k);
    TellsNoOne(s4, k);
    var s5 := Step(s4, AddressSet(1, 7, 8));
    TellsNoOne(s5, k);
    TellsNoOne(Step(s5, BroadcastBegun(1)), k);
  }

  lemma RunFour<L>(s: System<L>, a: Event<L>, b: Event<L>, c: Event<L>, d: Event<L>, es: seq<Event<L>>)
    ensures Run(s, [a, b, c] + [d] + es) == Run(Step(Step(Step(Step(s, a), b), c), d), es)
  {
    var all := [a, b, c] + [d] + es;
    var s1 := Step(s, a);
    var s2 := Step(s1, b);
    assert all[1..] == [b, c] + [d] + es;
    assert ([b, c] + [d] + es)[1..] == [c] + [d] + es;
    assert ([c] + [d] + es)[1..] == [d] + es && ([d] + es)[1..] == es;
    assert Run(s, all) == Run(s1, [b, c] + [d] + es);
    assert Run(s1, [b, c] + [d] + es) == Run(s2, [c] + [d] + es);
    assert Run(s2, [c] + [d] + es) == Run(Step(s2, c), [d] + es);
  }

  lemma RunThree<L>(s: System<L>, a: Event<L>, b: Event<L>, c: Event<L>)
    ensures Run(s, [a, b, c]) == Step(Step(Step(s, a), b), c)
  {
    assert [a, b, c][1..] == [b, c] && [b, c][1..] == [c] && [c][1..] == [];
    assert Run(Step(s, a), [b, c]) == Run(Step(Step(s, a), b), [c]);
    var r := Step(Step(Step(s, a), b), c);
    assert Run(Step(Step(s, a), b), [c]) == Run(r, []) == r;
  }

  // ---- Ids ----

  /** A registration pushes another link out of the table exactly when its fresh id is that link's. */
  lemma EnterDisplaces<L>(d: Data<L>, l: L, server: nat, claim: nat, m: L)
    requires FiledRight(d) && l !in d.links && Tabled(d, m)
    ensures Tabled(Enter(d, l, server, claim), m)
       <==> !(claim == 0 && d.links[m].server == server && d.links[m].id == (d.tables[server].next + 1) % 256)
  {
  }

  /** A link is in the table after registering exactly when it did not claim a taken id; if it did, it has the id 0. */
  lemma EnterAdmits<L>(d: Data<L>, l: L, server: nat, claim: nat)
    requires FiledRight(d) && l !in d.links
    ensures Tabled(Enter(d, l, server, claim), l)
       <==> claim == 0 || server !in d.tables || claim !in d.tables[server].conns
    ensures Enter(d, l, server, claim).links[l].id ==
      if claim == 0 then (Counter(d, server) + 1) % 256
      else if server in d.tables && claim in d.tables[server].conns then 0 else claim
  {
  }

  /** So it takes no other out when it unregisters, if no entry is under 0. */
  lemma RefusedSparesAll<L>(d: Data<L>, l: L, server: nat, claim: nat)
    requires FiledRight(d) && l !in d.links && claim != 0
    requires server in d.tables && claim in d.tables[server].conns && 0 !in d.tables[server].conns
    ensures forall m :: m in d.links && Tabled(d, m) ==> Tabled(Leave(Enter(d, l, server, claim), l), m)
  {
  }

  /** Unregistering leaves all others in the table exactly when the entry under the link's id is its own or none. */
  lemma LeaveIsExact<L>(d: Data<L>, l: L)
    requires FiledRight(d) && l in d.links
    ensures (forall m :: m in d.links && m != l && Tabled(d, m) ==> Tabled(Leave(d, l), m))
       <==> Tabled(d, l) || d.links[l].server !in d.tables || d.links[l].id !in d.tables[d.links[l].server].conns
    ensures !Tabled(Leave(d, l), l)
  {
    var server, id := d.links[l].server, d.links[l].id;
    if server in d.tables && id in d.tables[server].conns {
      var m := d.tables[server].conns[id];
      assert Tabled(d, m) && !Tabled(Leave(d, l), m);
    }
  }

  /** Only fresh ids are asked for. */
  predicate NoClaims<L>(es: seq<Event<L>>) {
    es != [] ==> (es[0].Entered? ==> es[0].claim == 0) && NoClaims(es[1..])
  }

  /** How many registrations there are of a type. */
  function Registrations<L>(es: seq<Event<L>>, server: nat): nat {
    if es == [] then 0
    else (if es[0].Entered? && es[0].server == server then 1 else 0) + Registrations(es[1..], server)
  }

  function Counter<L>(d: Data<L>, server: nat): nat {
    if server in d.tables then d.tables[server].next else 0
  }

  /** The links of a type have distinct ids up to its counter, and those not gone are in the table. */
  ghost predicate Exclusive<L>(s: System<L>, server: nat) {
    && (forall l :: l in s.data.links && s.data.links[l].server == server ==>
          1 <= s.data.links[l].id <= Counter(s.data, server) && (l !in s.gone ==> Tabled(s.data, l)))
    && (forall l, m :: l in s.data.links && m in s.data.links && l != m ==>
          s.data.links[l].server == server == s.data.links[m].server ==> s.data.links[l].id != s.data.links[m].id)
    && (forall l :: l in s.gone ==> l in s.data.links)
  }

  /** Tables, links' types and ids, and who is gone are as before. */
  ghost predicate SameEntries<L>(s: System<L>, t: System<L>) {
    && t.data.tables == s.data.tables && t.gone == s.gone && t.data.links.Keys == s.data.links.Keys
    && forall l :: l in s.data.links ==>
         t.data.links[l].server == s.data.links[l].server && t.data.links[l].id == s.data.links[l].id
  }

  lemma OthersChangeNoEntries<L>(s: System<L>, e: Event<L>)
    requires Inv(s) && !e.Entered? && !e.Left?
    ensures SameEntries(s, Step(s, e))
  {
    match e
    case RecordSent(g, r) => SendReaches(s.data, g, r);
    case GateTold(l, g) =>
      if Step(s, e) != s {
        SendReaches(s.data, g, RecordOf(s.data.links[l]));
      }
    case ServersRead(_) =>
    case RegisterDone(_) =>
    case AddressSet(_, _, _) =>
    case BroadcastBegun(_) =>
    case BroadcastDone(_) =>
  }

  lemma SameStaysExclusive<L>(s: System<L>, t: System<L>, server: nat)
    requires SameEntries(s, t) && Exclusive(s, server)
    ensures Exclusive(t, server) && Counter(t.data, server) == Counter(s.data, server)
  {
  }

  lemma StepStaysExclusive<L>(s: System<L>, e: Event<L>, server: nat)
    requires Inv(s) && Exclusive(s, server)
    requires e.Entered? ==> e.claim == 0
    requires Counter(s.data, server) + Registrations([e], server) <= 255
    ensures Exclusive(Step(s, e), server)
    ensures Counter(Step(s, e).data, server) <= Counter(s.data, server) + Registrations([e], server)
  {
    assert Registrations([e][1..], server) == 0;
    if e.Entered? {
      EnteredStaysExclusive(s, e.l, e.server, server);
    } else if e.Left? {
      LeftStaysExclusive(s, e.l, server);
    } else {
      OthersChangeNoEntries(s, e);
      SameStaysExclusive(s, Step(s, e), server);
    }
  }

  lemma EnteredStaysExclusive<L>(s: System<L>, l: L, other: nat, server: nat)
    requires Inv(s) && Exclusive(s, server)
    requires Counter(s.data, server) + (if other == server then 1 else 0) <= 255
    ensures var t := Step(s, Entered(l, other, 0));
      && Exclusive(t, server)
      && Counter(t.data, server) <= Counter(s.data, server) + if other == server then 1 else 0
  {
    var t := Step(s, Entered(l, other, 0));
    if l !in s.data.links {
      if other == server {
        FreshId(s, l, server);
      } else {
        OtherTypeEntered(s, l, other, server);
      }
    }
  }

  lemma OtherTypeEntered<L>(s: System<L>, l: L, other: nat, server: nat)
    requires Exclusive(s, server) && l !in s.data.links && other != server
    ensures var t := Step(s, Entered(l, other, 0));
      Exclusive(t, server) && Counter(t.data, server) == Counter(s.data, server)
  {
    var t := Step(s, Entered(l, other, 0));
    assert t.data.links == s.data.links[l := t.data.links[l]] && t.data.links[l].server == other;
    forall m | m in s.data.links && s.data.links[m].server == server && Tabled(s.data, m) ensures Tabled(t.data, m) {
    }
  }

  lemma FreshId<L>(s: System<L>, l: L, server: nat)
    requires Inv(s) && Exclusive(s, server) && l !in s.data.links && Counter(s.data, server) < 255
    ensures var t := Step(s, Entered(l, server, 0));
      Exclusive(t, server) && Counter(t.data, server) == Counter(s.data, server) + 1
  {
    var t, n := Step(s, Entered(l, server, 0)), Counter(s.data, server) + 1;
    assert t.data.links == s.data.links[l := Link(server, n, 0, 0, false, [])];
    EnterAdmits(s.data, l, server, 0);
    EnterSpares(s, l, server);
    FreshIsExclusive(s, t, l, server, n);
  }

  lemma FreshIsExclusive<L>(s: System<L>, t: System<L>, l: L, server: nat, n: nat)
    requires Exclusive(s, server) && l !in s.data.links && n == Counter(s.data, server) + 1 == Counter(t.data, server)
    requires t.data.links == s.data.links[l := Link(server, n, 0, 0, false, [])] && t.gone == s.gone
    requires Tabled(t.data, l)
    requires forall m :: m in s.data.links && s.data.links[m].server == server && m !in s.gone ==> Tabled(t.data, m)
    ensures Exclusive(t, server)
  {
  }

  /** A fresh id below 256 displaces no one. */
  lemma EnterSpares<L>(s: System<L>, l: L, server: nat)
    requires FiledRight(s.data) && Exclusive(s, server) && l !in s.data.links && Counter(s.data, server) < 255
    ensures forall m :: m in s.data.links && s.data.links[m].server == server && m !in s.gone ==>
      Tabled(Enter(s.data, l, server, 0), m)
  {
    forall m | m in s.data.links && s.data.links[m].server == server && m !in s.gone
      ensures Tabled(Enter(s.data, l, server, 0), m)
    {
      EnterDisplaces(s.data, l, server, 0, m);
    }
  }

  lemma LeftStaysExclusive<L>(s: System<L>, l: L, server: nat)
    requires Inv(s) && Exclusive(s, server)
    ensures var t := Step(s, Left(l)); Exclusive(t, server) && Counter(t.data, server) == Counter(s.data, server)
  {
    var t := Step(s, Left(l));
    if t != s {
      LeftSpares(s, l, server);
    }
  }

  /** Of that type, only the link itself leaves the table. */
  lemma LeftSpares<L>(s: System<L>, l: L, server: nat)
    requires FiledRight(s.data) && Exclusive(s, server) && l in s.data.links && l !in s.gone
    ensures forall m :: m in s.data.links && m != l && s.data.links[m].server == server && m !in s.gone ==>
      Tabled(Leave(s.data, l), m)
  {
    if s.data.links[l].server == server {
      assert Tabled(s.data, l);
      LeaveIsExact(s.data, l);
    }
  }

  lemma {:induction false} RunStaysExclusive<L>(s: System<L>, es: seq<Event<L>>, server: nat)
    requires Inv(s) && Exclusive(s, server) && NoClaims(es)
    requires Counter(s.data, server) + Registrations(es, server) <= 255
    ensures Exclusive(Run(s, es), server) && Counter(Run(s, es).data, server) <= 255
    decreases |es|
  {
    if es != [] {
      assert Registrations([es[0]], server) + Registrations(es[1..], server) == Registrations(es, server) by {
        assert [es[0]][1..] == [];
      }
      StepKeepsInv(s, es[0]);
      StepStaysExclusive(s, es[0], server);
      RunStaysExclusive(Step(s, es[0]), es[1..], server);
    }
  }

  /**
   With no claimed ids and at most 255 registrations of a type, the connected servers of that type are all in the
   table, under distinct ids from 1 to 255, and unregistering one leaves all the others there.
   */
  lemma IdsAreExclusive<L>(es: seq<Event<L>>, server: nat, l: L)
    requires NoClaims(es) && Registrations(es, server) <= 255
    requires var s := Run(Init<L>(), es); Open(s, l) && s.data.links[l].server == server
    ensures var s := Run(Init<L>(), es);
      && Tabled(s.data, l) && 1 <= s.data.links[l].id <= 255
      && (forall m :: m in s.data.links && m != l && s.data.links[m].server == server ==>
            s.data.links[m].id != s.data.links[l].id)
      && (forall m :: m in s.data.links && m != l && Tabled(s.data, m) ==> Tabled(Leave(s.data, l), m))
  {
    RunKeepsInv(Init<L>(), es);
    RunStaysExclusive(Init<L>(), es, server);
    LeaveIsExact(Run(Init<L>(), es).data, l);
  }
}
