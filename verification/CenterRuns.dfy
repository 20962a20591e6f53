/** What happens at the center in every run, to the record: what gates are sent, and what a refused link leaves. */
module CenterRuns {
  import opened Seqs
  import opened CenterModel
  import opened CenterSafety

  // ---- What is read and sent ----

  /** A registering gate reads exactly the records of the ready tabled servers of types above 1. */
  lemma OthersAreExact<L(!new)>(d: Data<L>, r: Record)
    requires FiledRight(d)
    ensures r in Others(d)
       <==> exists l :: Tabled(d, l) && d.links[l].server > 1 && d.links[l].ready
                        && r == Record(d.links[l].ip, d.links[l].port, d.links[l].server, d.links[l].id)
  {
    if r in Others(d) {
      var server, id :| server in d.tables && server > GATE && id in d.tables[server].conns
                        && d.tables[server].conns[id] in d.links && d.links[d.tables[server].conns[id]].ready
                        && r == RecordOf(d.links[d.tables[server].conns[id]]);
      assert Tabled(d, d.tables[server].conns[id]);
    }
    if l :| Tabled(d, l) && d.links[l].server > 1 && d.links[l].ready
            && r == Record(d.links[l].ip, d.links[l].port, d.links[l].server, d.links[l].id) {
      assert d.tables[d.links[l].server].conns[d.links[l].id] == l;
    }
  }

  /** What the step sends to `g`, if it takes place. */
  function SentNow<L(==)>(s: System<L>, e: Event<L>, g: L): seq<Record> {
    match e
    case RecordSent(h, r) =>
      if h == g && Open(s, g) && g in s.reading && r in s.reading[g] then [r] else []
    case GateTold(l, h) =>
      if h == g && g in s.data.links && Open(s, l) && s.phase[l].Telling? && g in s.phase[l].gates then
        var k := s.data.links[l];
        [Record(k.ip, k.port, k.server, k.id)]
      else []
    case _ => []
  }

  function SentIn<L(==)>(s: System<L>, es: seq<Event<L>>, g: L): seq<Record>
    decreases |es|
  {
    if es == [] then [] else SentNow(s, es[0], g) + SentIn(Step(s, es[0]), es[1..], g)
  }

  function Inbox<L>(s: System<L>, g: L): seq<Record> {
    if g in s.data.links then s.data.links[g].inbox else []
  }

  lemma StepSends<L>(s: System<L>, e: Event<L>, g: L)
    ensures Inbox(Step(s, e), g) == Inbox(s, g) + SentNow(s, e, g)
  {
    match e
    case Entered(_, _, _) =>
    case ServersRead(_) =>
    case RecordSent(_, _) =>
    case RegisterDone(_) =>
    case AddressSet(_, _, _) =>
    case BroadcastBegun(_) =>
    case GateTold(_, _) =>
    case BroadcastDone(_) =>
    case Left(_) =>
  }

  lemma {:induction false} RunSends<L>(s: System<L>, es: seq<Event<L>>, g: L)
    ensures Inbox(Run(s, es), g) == Inbox(s, g) + SentIn(s, es, g)
    decreases |es|
  {
    if es != [] {
      StepSends(s, es[0], g);
      RunSends(Step(s, es[0]), es[1..], g);
      Assoc(Inbox(s, g), SentNow(s, es[0], g), SentIn(Step(s, es[0]), es[1..], g));
    }
  }

  /** In every run a link has been sent exactly the records of the sends to it that took place, once each, in order. */
  lemma InboxIsExact<L>(es: seq<Event<L>>, g: L)
    ensures Inbox(Run(Init<L>(), es), g) == SentIn(Init<L>(), es, g)
  {
    RunSends(Init<L>(), es, g);
  }

  // ---- Only gates are told ----

  ghost predicate GatesOnly<L(!new)>(s: System<L>) {
    && (forall l, g :: l in s.phase && s.phase[l].Telling? && g in s.phase[l].gates ==>
          g in s.data.links && s.data.links[g].server == 1)
    && (forall g :: g in s.reading ==> g in s.data.links && s.data.links[g].server == 1)
    && (forall l :: l in s.data.links && s.data.links[l].inbox != [] ==> s.data.links[l].server == 1)
  }

  lemma BegunKeepsGatesOnly<L(!new)>(s: System<L>, k: L)
    requires FiledRight(s.data) && Known(s) && GatesOnly(s)
    ensures GatesOnly(Step(s, BroadcastBegun(k)))
  {
    forall g | g in Gates(s.data) ensures g in s.data.links && s.data.links[g].server == 1 {
      var id :| id in s.data.tables[GATE].conns && s.data.tables[GATE].conns[id] == g;
    }
  }

  lemma StepKeepsGatesOnly<L(!new)>(s: System<L>, e: Event<L>)
    requires Inv(s) && GatesOnly(s)
    ensures GatesOnly(Step(s, e))
  {
    match e
    case Entered(_, _, _) => EnteredKeepsGatesOnly(s, e);
    case RecordSent(_, _) => SendKeepsGatesOnly(s, e);
    case GateTold(_, _) => SendKeepsGatesOnly(s, e);
    case BroadcastBegun(k) => BegunKeepsGatesOnly(s, k);
    case ServersRead(_) => ReadKeepsGatesOnly(s, e);
    case RegisterDone(_) => OthersKeepGatesOnly(s, e);
    case AddressSet(_, _, _) => AddressKeepsGatesOnly(s, e);
    case BroadcastDone(_) => OthersKeepGatesOnly(s, e);
    case Left(_) => OthersKeepGatesOnly(s, e);
  }

  lemma EnteredKeepsGatesOnly<L(!new)>(s: System<L>, e: Event<L>)
    requires Inv(s) && GatesOnly(s) && e.Entered?
    ensures GatesOnly(Step(s, e))
  {
  }

  lemma SendKeepsGatesOnly<L(!new)>(s: System<L>, e: Event<L>)
    requires Inv(s) && GatesOnly(s) && (e.RecordSent? || e.GateTold?)
    ensures GatesOnly(Step(s, e))
  {
  }

  lemma AddressKeepsGatesOnly<L(!new)>(s: System<L>, e: Event<L>)
    requires Known(s) && GatesOnly(s) && e.AddressSet?
    ensures GatesOnly(Step(s, e))
  {
  }

  lemma ReadKeepsGatesOnly<L(!new)>(s: System<L>, e: Event<L>)
    requires Known(s) && GatesOnly(s) && e.ServersRead?
    ensures GatesOnly(Step(s, e))
  {
  }

  lemma OthersKeepGatesOnly<L(!new)>(s: System<L>, e: Event<L>)
    requires Known(s) && GatesOnly(s)
    requires e.RegisterDone? || e.BroadcastDone? || e.Left?
    ensures GatesOnly(Step(s, e))
  {
  }

  lemma {:induction false} RunKeepsGatesOnly<L(!new)>(s: System<L>, es: seq<Event<L>>)
    requires Inv(s) && GatesOnly(s)
    ensures GatesOnly(Run(s, es))
    decreases |es|
  {
    if es != [] {
      StepKeepsInv(s, es[0]);
      StepKeepsGatesOnly(s, es[0]);
      RunKeepsGatesOnly(Step(s, es[0]), es[1..]);
    }
  }

  /** In every run a link that is no gate is sent no record. */
  lemma OnlyGatesAreTold<L(!new)>(es: seq<Event<L>>, l: L)
    requires var s := Run(Init<L>(), es); l in s.data.links && s.data.links[l].server != 1
    ensures Run(Init<L>(), es).data.links[l].inbox == []
  {
    RunKeepsGatesOnly(Init<L>(), es);
  }

  // ---- The address of a link ----

  function AddressNow<L(==)>(s: System<L>, e: Event<L>, l: L, address: (nat, nat)): (nat, nat) {
    if e.AddressSet? && e.l == l && Open(s, l) && !s.phase[l].Addressed? && !s.phase[l].Telling? then (e.ip, e.port)
    else address
  }

  function LastAddress<L(==)>(s: System<L>, es: seq<Event<L>>, l: L, address: (nat, nat)): (nat, nat)
    decreases |es|
  {
    if es == [] then address else LastAddress(Step(s, es[0]), es[1..], l, AddressNow(s, es[0], l, address))
  }

  function AddressOf<L>(s: System<L>, l: L): (nat, nat) {
    if l in s.data.links then (s.data.links[l].ip, s.data.links[l].port) else (0, 0)
  }

  lemma StepSetsAddress<L>(s: System<L>, e: Event<L>, l: L)
    ensures AddressOf(Step(s, e), l) == AddressNow(s, e, l, AddressOf(s, l))
  {
    match e
    case Entered(_, _, _) =>
    case ServersRead(_) =>
    case RecordSent(_, _) =>
    case RegisterDone(_) =>
    case AddressSet(_, _, _) =>
    case BroadcastBegun(_) =>
    case GateTold(_, _) =>
    case BroadcastDone(_) =>
    case Left(_) =>
  }

  lemma {:induction false} RunSetsAddress<L>(s: System<L>, es: seq<Event<L>>, l: L)
    ensures AddressOf(Run(s, es), l) == LastAddress(s, es, l, AddressOf(s, l))
    decreases |es|
  {
    if es != [] {
      StepSetsAddress(s, es[0], l);
      RunSetsAddress(Step(s, es[0]), es[1..], l);
    }
  }

  /** In every run the address of a link is the one its last S_Register has set. */
  lemma AddressIsLatest<L>(es: seq<Event<L>>, l: L)
    ensures AddressOf(Run(Init<L>(), es), l) == LastAddress(Init<L>(), es, l, (0, 0))
  {
    RunSetsAddress(Init<L>(), es, l);
  }

  // ---- Refused links ----

  /** How many registrations of a type ask for a fresh id. */
  function Fresh<L>(es: seq<Event<L>>, server: nat): nat {
    if es == [] then 0
    else (if es[0].Entered? && es[0].server == server && es[0].claim == 0 then 1 else 0) + Fresh(es[1..], server)
  }

  predicate NoZero<L>(s: System<L>, server: nat) {
    server in s.data.tables ==> 0 !in s.data.tables[server].conns
  }

  lemma StepKeepsNoZero<L>(s: System<L>, e: Event<L>, server: nat)
    requires Inv(s) && NoZero(s, server) && Counter(s.data, server) + Fresh([e], server) <= 255
    ensures NoZero(Step(s, e), server)
    ensures Counter(Step(s, e).data, server) <= Counter(s.data, server) + Fresh([e], server)
  {
    assert Fresh([e][1..], server) == 0;
    match e
    case Entered(_, _, _) =>
    case Left(_) =>
    case _ => OthersChangeNoEntries(s, e);
  }

  lemma {:induction false} RunKeepsNoZero<L>(s: System<L>, es: seq<Event<L>>, server: nat)
    requires Inv(s) && NoZero(s, server) && Counter(s.data, server) + Fresh(es, server) <= 255
    ensures NoZero(Run(s, es), server)
    decreases |es|
  {
    if es != [] {
      assert Fresh([es[0]], server) + Fresh(es[1..], server) == Fresh(es, server) by {
        assert [es[0]][1..] == [];
      }
      StepKeepsInv(s, es[0]);
      StepKeepsNoZero(s, es[0], server);
      RunKeepsNoZero(Step(s, es[0]), es[1..], server);
    }
  }

  /**
   In every run with at most 255 registrations of a type for a fresh id, whatever other ids are claimed: a link of that
   type that was refused, and so has the id 0, is not in the table, and takes no other out when it unregisters.
   */
  lemma RefusedLeavesNoTrace<L>(es: seq<Event<L>>, server: nat, l: L)
    requires Fresh(es, server) <= 255
    requires var s := Run(Init<L>(), es);
      l in s.data.links && s.data.links[l].server == server && s.data.links[l].id == 0
    ensures var d := Run(Init<L>(), es).data;
      !Tabled(d, l) && forall m :: m in d.links && Tabled(d, m) ==> Tabled(Leave(d, l), m)
  {
    RunKeepsInv(Init<L>(), es);
    RunKeepsNoZero(Init<L>(), es, server);
    LeaveIsExact(Run(Init<L>(), es).data, l);
  }
}
