/**
 Several gates in front of the same clusters.

 Each gate has its own clients and connections; the clusters, and with them the tables of sessions, are shared. A
 session id modulo 256 is the id of its gate, so in a table each gate has a share of its own.
 */
module ManyGates {
  import opened Bytes
  import opened Protocol
  import opened GateModel
  import opened SessionSystem
  import opened SessionSafety

  /** What is a gate's own in a system. */
  datatype Side<C, T, H> = Side(gate: Gate<C, T>, pending: set<(C, T)>, home: map<T, H>, seen: map<T, nat>)

  datatype World<G, C, T, H> = World(sides: map<G, Side<C, T, H>>, clusters: map<H, Cluster<T>>)

  function With<C, T, H>(side: Side<C, T, H>, clusters: map<H, Cluster<T>>): System<C, T, H> {
    System(side.gate, side.pending, side.home, side.seen, clusters)
  }

  function SideOf<C, T, H>(s: System<C, T, H>): Side<C, T, H> {
    Side(s.gate, s.pending, s.home, s.seen)
  }

  /** A step of the gate `g`, on its own side and the shared clusters. */
  function StepOf<G, C(==), T(==), H>(w: World<G, C, T, H>, g: G, e: Event<C, T, H>): World<G, C, T, H> {
    if g !in w.sides then w
    else
      var r := Step(With(w.sides[g], w.clusters), e);
      World(w.sides[g := SideOf(r)], r.clusters)
  }

  function RunAll<G, C(==), T(==), H>(w: World<G, C, T, H>, es: seq<(G, Event<C, T, H>)>): World<G, C, T, H>
    decreases |es|
  {
    if es == [] then w else RunAll(StepOf(w, es[0].0, es[0].1), es[1..])
  }

  /** The steps of one gate among those of all. */
  function Own<G(==), C, T, H>(es: seq<(G, Event<C, T, H>)>, g: G): seq<Event<C, T, H>> {
    if es == [] then [] else (if es[0].0 == g then [es[0].1] else []) + Own(es[1..], g)
  }

  function Start<G, C, T, H>(ids: map<G, nat>, servers: map<H, nat>): World<G, C, T, H> {
    World(map g | g in ids :: Side(Gate(0, ids[g], map[], map[], map[], map[]), {}, map[], map[]),
          map h | h in servers :: Cluster(servers[h], map[]))
  }

  // ---- The share of a gate ----

  function ShareOf<T>(sessions: map<nat, Session<T>>, gateId: nat): map<nat, Session<T>> {
    map x | x in sessions && x % 256 == gateId :: sessions[x]
  }

  function Shares<T, H>(clusters: map<H, Cluster<T>>, gateId: nat): map<H, Cluster<T>> {
    map h | h in clusters :: Cluster(clusters[h].server, ShareOf(clusters[h].sessions, gateId))
  }

  /** The world as one gate would see it if there were no other. */
  function View<G, C, T, H>(w: World<G, C, T, H>, g: G): System<C, T, H>
    requires g in w.sides
  {
    With(w.sides[g], Shares(w.clusters, w.sides[g].gate.gateId))
  }

  lemma AppliedToShare<T>(sessions: map<nat, Session<T>>, m: Msg, t: T, gateId: nat)
    ensures m.session % 256 == gateId ==>
      ShareOf(Apply(sessions, m, t), gateId) == Apply(ShareOf(sessions, gateId), m, t)
    ensures m.session % 256 != gateId ==> ShareOf(Apply(sessions, m, t), gateId) == ShareOf(sessions, gateId)
  {
  }

  /** The messages on a gate's connections are of its own sessions. */
  lemma MessagesAreOwn<C(!new), T(!new), H(!new)>(s: System<C, T, H>, t: T)
    requires Inv(s) && HasMessage(s, t)
    ensures s.gate.trans[t].sent[s.seen[t]].session % 256 == s.gate.gateId
  {
    var sent, k := s.gate.trans[t].sent, s.seen[t];
    Present(sent, k);
    assert IsSession(s.gate, sent[k].session);
  }

  /** A step does the same on a gate's share of the tables as on all of them, and nothing to other shares. */
  lemma StepOnShare<C(!new), T(!new), H(!new)>(side: Side<C, T, H>, clusters: map<H, Cluster<T>>, e: Event<C, T, H>)
    requires Inv(With(side, Shares(clusters, side.gate.gateId)))
    ensures var id, r := side.gate.gateId, Step(With(side, clusters), e);
      && Step(With(side, Shares(clusters, id)), e) == With(SideOf(r), Shares(r.clusters, id))
      && forall other: nat :: other != id ==> Shares(r.clusters, other) == Shares(clusters, other)
  {
    var id := side.gate.gateId;
    var s, r := With(side, clusters), Step(With(side, clusters), e);
    if e.Delivered? && HasMessage(s, e.t) {
      MessagesAreOwn(With(side, Shares(clusters, id)), e.t);
      DeliveryOnShare(clusters, side.home[e.t], side.gate.trans[e.t].sent[side.seen[e.t]], e.t, id);
    }
  }

  function Deliver<T, H>(clusters: map<H, Cluster<T>>, h: H, m: Msg, t: T): map<H, Cluster<T>>
    requires h in clusters
  {
    clusters[h := clusters[h].(sessions := Apply(clusters[h].sessions, m, t))]
  }

  lemma DeliveryOnShare<T, H>(clusters: map<H, Cluster<T>>, h: H, m: Msg, t: T, id: nat)
    requires h in clusters && m.session % 256 == id
    ensures Deliver(Shares(clusters, id), h, m, t) == Shares(Deliver(clusters, h, m, t), id)
    ensures forall other: nat :: other != id ==> Shares(Deliver(clusters, h, m, t), other) == Shares(clusters, other)
  {
    AppliedToShare(clusters[h].sessions, m, t, id);
    forall other: nat | other != id ensures Shares(Deliver(clusters, h, m, t), other) == Shares(clusters, other) {
      AppliedToShare(clusters[h].sessions, m, t, other);
    }
  }

  // ---- Gates do not interfere ----

  ghost predicate Distinct<G(!new), C, T, H>(w: World<G, C, T, H>) {
    forall g, h :: g in w.sides && h in w.sides && g != h ==> w.sides[g].gate.gateId != w.sides[h].gate.gateId
  }

  lemma StepKeepsGateId<C(!new), T(!new), H(!new)>(s: System<C, T, H>, e: Event<C, T, H>)
    ensures Step(s, e).gate.gateId == s.gate.gateId
  {
    match e
    case Sent(c, server, msgid, payload, pick) =>
    case _ =>
  }

  /** A step of one gate is that step on its view, and none on the views of the others. */
  lemma StepOnViews<G(!new), C(!new), T(!new), H(!new)>(w: World<G, C, T, H>, g: G, e: Event<C, T, H>)
    requires Distinct(w) && g in w.sides && Inv(View(w, g))
    ensures var v := StepOf(w, g, e);
      && Distinct(v) && v.sides.Keys == w.sides.Keys
      && View(v, g) == Step(View(w, g), e)
      && forall h :: h in w.sides && h != g ==> View(v, h) == View(w, h)
  {
    StepOnShare(w.sides[g], w.clusters, e);
    StepKeepsGateId(With(w.sides[g], w.clusters), e);
  }

  /** What the gate sees is safe, and its own steps stay below the limit. */
  ghost predicate Ready<G, C(!new), T(!new), H(!new)>(w: World<G, C, T, H>, es: seq<(G, Event<C, T, H>)>, g: G)
    requires g in w.sides
  {
    Inv(View(w, g)) && Run(View(w, g), Own(es, g)).gate.count < MAX_REGISTRATIONS
  }

  ghost predicate AllReady<G(!new), C(!new), T(!new), H(!new)>(w: World<G, C, T, H>, es: seq<(G, Event<C, T, H>)>) {
    Distinct(w) && forall g :: g in w.sides ==> Ready(w, es, g)
  }

  lemma OwnSteps<G(!new), C(!new), T(!new), H(!new)>(w: World<G, C, T, H>, es: seq<(G, Event<C, T, H>)>, h: G)
    requires es != [] && Distinct(w) && (es[0].0 in w.sides ==> Ready(w, es, es[0].0))
    requires h in w.sides && Ready(w, es, h)
    ensures var v := StepOf(w, es[0].0, es[0].1);
      && Distinct(v) && v.sides.Keys == w.sides.Keys && Ready(v, es[1..], h)
      && Run(View(v, h), Own(es[1..], h)) == Run(View(w, h), Own(es, h))
  {
    if es[0].0 in w.sides {
      StepOnViews(w, es[0].0, es[0].1);
    }
    if h == es[0].0 {
      var own := [es[0].1] + Own(es[1..], h);
      assert Own(es, h) == own && own[1..] == Own(es[1..], h);
      CountGrows(Step(View(w, h), es[0].1), own[1..]);
      StepKeepsInv(View(w, h), es[0].1);
    } else {
      assert Own(es, h) == Own(es[1..], h);
    }
  }

  /** However the steps of the gates interleave, what each sees is a run of its own steps alone. */
  lemma {:induction false} RunOnViews<G(!new), C(!new), T(!new), H(!new)>(
    w: World<G, C, T, H>, es: seq<(G, Event<C, T, H>)>, g: G)
    requires AllReady(w, es) && g in w.sides
    ensures var v := RunAll(w, es); g in v.sides && View(v, g) == Run(View(w, g), Own(es, g))
    decreases |es|
  {
    if es != [] {
      var v := StepOf(w, es[0].0, es[0].1);
      forall h | h in w.sides ensures h in v.sides && Ready(v, es[1..], h) {
        OwnSteps(w, es, h);
      }
      OwnSteps(w, es, g);
      RunOnViews(v, es[1..], g);
    }
  }

  /** Distinct ids below 256, and fewer than 2^24 registrations on every gate. */
  ghost predicate Allowed<G(!new), C(!new), T(!new), H(!new)>(
    ids: map<G, nat>, servers: map<H, nat>, es: seq<(G, Event<C, T, H>)>)
  {
    && (forall g, h :: g in ids && h in ids && g != h ==> ids[g] != ids[h])
    && (forall g :: g in ids ==>
          ids[g] < 256 && Run(Init<C, T, H>(ids[g], servers), Own(es, g)).gate.count < MAX_REGISTRATIONS)
  }

  /** Gates that share clusters do not interfere: each sees just the run it would make alone, and is safe in it. */
  lemma GatesDoNotInterfere<G(!new), C(!new), T(!new), H(!new)>(
    ids: map<G, nat>, servers: map<H, nat>, es: seq<(G, Event<C, T, H>)>, g: G)
    requires Allowed(ids, servers, es) && g in ids
    ensures var w := RunAll(Start<G, C, T, H>(ids, servers), es);
      && g in w.sides
      && View(w, g) == Run(Init<C, T, H>(ids[g], servers), Own(es, g)) && Inv(View(w, g))
  {
    var w := Start<G, C, T, H>(ids, servers);
    forall h | h in ids ensures View(w, h) == Init<C, T, H>(ids[h], servers) && Ready(w, es, h) {
      StartIsReady(ids, servers, es, h);
    }
    RunOnViews(w, es, g);
    EveryRunIsSafe<C, T, H>(ids[g], servers, Own(es, g));
  }

  lemma StartIsReady<G(!new), C(!new), T(!new), H(!new)>(
    ids: map<G, nat>, servers: map<H, nat>, es: seq<(G, Event<C, T, H>)>, g: G)
    requires Allowed(ids, servers, es) && g in ids
    ensures var w := Start<G, C, T, H>(ids, servers);
      View(w, g) == Init<C, T, H>(ids[g], servers) && Ready(w, es, g)
  {
    var w := Start<G, C, T, H>(ids, servers);
    assert Shares(w.clusters, ids[g]) == w.clusters;
    EveryRunIsSafe<C, T, H>(ids[g], servers, []);
  }

  /**
   In the shared tables, too, data always finds its session bound to the connection it comes by, with the address of
   its client at the gate it comes from.
   */
  lemma DataMeetsItsSessionAmongMany<G(!new), C(!new), T(!new), H(!new)>(
    ids: map<G, nat>, servers: map<H, nat>, es: seq<(G, Event<C, T, H>)>, g: G, t: T)
    requires Allowed(ids, servers, es) && g in ids
    requires var w := RunAll(Start<G, C, T, H>(ids, servers), es);
      && g in w.sides && HasMessage(With(w.sides[g], w.clusters), t)
      && w.sides[g].gate.trans[t].sent[w.sides[g].seen[t]].Data?
    ensures var w := RunAll(Start<G, C, T, H>(ids, servers), es);
      var side := w.sides[g];
      var x, table := side.gate.trans[t].sent[side.seen[t]].session, w.clusters[side.home[t]].sessions;
      && x in table && table[x].conn == t
      && exists c :: c in side.gate.clients && side.gate.clients[c].id == x
                     && table[x].addr == side.gate.clients[c].addr
  {
    var w := RunAll(Start<G, C, T, H>(ids, servers), es);
    GatesDoNotInterfere(ids, servers, es, g);
    assert HasMessage(View(w, g), t);
    DataMeetsItsSession(View(w, g), t);
  }
}
