/**
 The center: its tables of servers, and how it tells gates about servers.

 Registering and unregistering run under one lock, messages under another, so the parts of a gate's
 registration (enter the table, read the ready servers, send each of them) interleave freely with those of a
 server's S_Register (set the address, look up the gates, send to each of them). The links have identities `L`.
 */
module CenterModel {

  const GATE := 1
  const DATABASE := 2

  /** `message.TranServer`: what a gate is told about a server. */
  datatype Record = Record(ip: nat, port: nat, server: nat, id: nat)

  /** A connected server, and the records it has been sent. */
  datatype Link = Link(server: nat, id: nat, ip: nat, port: nat, ready: bool, inbox: seq<Record>)

  /** The servers of one type, and the counter their ids come from. */
  datatype Table<L> = Table(next: nat, conns: map<nat, L>)

  datatype Data<L> = Data(links: map<L, Link>, tables: map<nat, Table<L>>)

  // ---- The tables ----

  /** `Servers.GetServer`, which creates the table of a type it has not seen. */
  function Touch<L>(tables: map<nat, Table<L>>, server: nat): (r: map<nat, Table<L>>)
    ensures server in r
  {
    if server in tables then tables else tables[server := Table(0, map[])]
  }

  /** The id a registration is given; a claimed id that is taken is answered with 0. */
  function GivenId<L>(t: Table<L>, claim: nat): nat {
    if claim == 0 then (t.next + 1) % 256 else if claim in t.conns then 0 else claim
  }

  /** `Servers.PushServer`: into the table, unless the claimed id is taken. */
  function Pushed<L>(t: Table<L>, l: L, claim: nat): Table<L> {
    if claim == 0 then Table((t.next + 1) % 256, t.conns[(t.next + 1) % 256 := l])
    else if claim in t.conns then t
    else t.(conns := t.conns[claim := l])
  }

  /** `Servers.RemoveServer`: whatever entry is under the link's id. */
  function Removed<L>(t: Table<L>, id: nat): Table<L> {
    t.(conns := t.conns - {id})
  }

  lemma PushedEntries<L>(tables: map<nat, Table<L>>, server: nat, l: L, claim: nat, all: set<L>)
    requires l in all && forall i, k :: i in tables && k in tables[i].conns ==> tables[i].conns[k] in all
    ensures var t := Touch(tables, server);
      var r := t[server := Pushed(t[server], l, claim)];
      forall i, k :: i in r && k in r[i].conns ==> r[i].conns[k] in all
  {
  }

  lemma UpdateTwice<K, V>(m: map<K, V>, k: K, v: V, w: V)
    ensures m[k := v][k := w] == m[k := w]
  {
  }

  /** The link is in the table of its type, under its own id. */
  predicate Tabled<L(==)>(d: Data<L>, l: L) {
    && l in d.links && d.links[l].server in d.tables
    && d.links[l].id in d.tables[d.links[l].server].conns && d.tables[d.links[l].server].conns[d.links[l].id] == l
  }

  function RecordOf(l: Link): Record {
    Record(l.ip, l.port, l.server, l.id)
  }

  // ---- The steps on the data ----

  function Enter<L>(d: Data<L>, l: L, server: nat, claim: nat): Data<L> {
    var tables := Touch(d.tables, server);
    Data(d.links[l := Link(server, GivenId(tables[server], claim), 0, 0, false, [])],
         tables[server := Pushed(tables[server], l, claim)])
  }

  /** `Servers.GetOtherServer`: the ready servers of all types above the gates'. */
  function Others<L>(d: Data<L>): set<Record> {
    set server, id | server in d.tables && server > GATE && id in d.tables[server].conns
                     && d.tables[server].conns[id] in d.links && d.links[d.tables[server].conns[id]].ready
      :: RecordOf(d.links[d.tables[server].conns[id]])
  }

  function SetAddress<L>(d: Data<L>, l: L, ip: nat, port: nat): Data<L>
    requires l in d.links
  {
    d.(links := d.links[l := d.links[l].(ip := ip, port := port, ready := true)])
  }

  function Send<L>(d: Data<L>, g: L, r: Record): Data<L> {
    if g in d.links then d.(links := d.links[g := d.links[g].(inbox := d.links[g].inbox + [r])]) else d
  }

  /** The gates a broadcast goes to. */
  function Gates<L>(d: Data<L>): set<L> {
    if GATE in d.tables then d.tables[GATE].conns.Values else {}
  }

  function Leave<L>(d: Data<L>, l: L): Data<L>
    requires l in d.links
  {
    var server := d.links[l].server;
    var tables := Touch(d.tables, server);
    d.(tables := tables[server := Removed(tables[server], d.links[l].id)])
  }

  // ---- The interleaved protocol ----

  /** How far the last S_Register of a link has come; `Telling` holds the gates still to be told. */
  datatype Phase<L> = Silent | Addressed | Telling(gates: set<L>) | Announced

  /**
   `phase` of every link; `reading`: what a registering gate has read and not yet been sent; `served`: gates whose
   registration is complete; `addresses`: those a link has had; `gone`: links that have unregistered.
   */
  datatype System<L> = System(
    data: Data<L>,
    phase: map<L, Phase<L>>,
    reading: map<L, set<Record>>,
    served: set<L>,
    addresses: map<L, set<(nat, nat)>>,
    gone: set<L>)

  datatype Event<L> =
    | Entered(l: L, server: nat, claim: nat)
    | ServersRead(g: L)
    | RecordSent(g: L, r: Record)
    | RegisterDone(g: L)
    | AddressSet(l: L, ip: nat, port: nat)
    | BroadcastBegun(l: L)
    | GateTold(l: L, g: L)
    | BroadcastDone(l: L)
    | Left(l: L)

  function Init<L>(): System<L> {
    System(Data(map[], map[]), map[], map[], {}, map[], {})
  }

  /** A link whose connection is open. */
  predicate Open<L(==)>(s: System<L>, l: L) {
    l in s.data.links && l in s.phase && l in s.addresses && l !in s.gone
  }

  /** One step; an event that cannot happen in `s` changes nothing. */
  function Step<L(==)>(s: System<L>, e: Event<L>): System<L> {
    match e
    case Entered(l, server, claim) =>
      if l in s.data.links then s
      else s.(data := Enter(s.data, l, server, claim), phase := s.phase[l := Silent], addresses := s.addresses[l := {}])
    case ServersRead(g) =>
      if !Open(s, g) || s.data.links[g].server != GATE || g in s.reading || g in s.served then s
      else s.(reading := s.reading[g := Others(s.data)])
    case RecordSent(g, r) =>
      if !Open(s, g) || g !in s.reading || r !in s.reading[g] then s
      else s.(data := Send(s.data, g, r), reading := s.reading[g := s.reading[g] - {r}])
    case RegisterDone(g) =>
      if g !in s.reading || s.reading[g] != {} then s
      else s.(reading := s.reading - {g}, served := s.served + {g})
    case AddressSet(l, ip, port) =>
      if !Open(s, l) || s.phase[l].Addressed? || s.phase[l].Telling? then s
      else s.(data := SetAddress(s.data, l, ip, port), phase := s.phase[l := Addressed],
              addresses := s.addresses[l := s.addresses[l] + {(ip, port)}])
    case BroadcastBegun(l) =>
      if !Open(s, l) || !s.phase[l].Addressed? then s
      else s.(phase := s.phase[l := Telling(if s.data.links[l].server > DATABASE then Gates(s.data) else {})])
    case GateTold(l, g) =>
      if !Open(s, l) || !s.phase[l].Telling? || g !in s.phase[l].gates then s
      else s.(data := Send(s.data, g, RecordOf(s.data.links[l])),
              phase := s.phase[l := Telling(s.phase[l].gates - {g})])
    case BroadcastDone(l) =>
      if !Open(s, l) || s.phase[l] != Telling({}) then s else s.(phase := s.phase[l := Announced])
    case Left(l) =>
      if !Open(s, l) || s.phase[l].Addressed? || s.phase[l].Telling? || l in s.reading then s
      else s.(data := Leave(s.data, l), gone := s.gone + {l})
  }

  function Run<L(==)>(s: System<L>, es: seq<Event<L>>): System<L>
    decreases |es|
  {
    if es == [] then s else Run(Step(s, es[0]), es[1..])
  }
}
