/**
 The bytes of several gates in one cluster's table.

 A cluster decodes each gate's bytes on a connection of its own, and changes one table with what it decodes. Each
 packet is a delivery of module SessionSystem, whatever the cluster does for other connections in between.
 */
module SharedClusters {
  import opened Bytes
  import opened Seqs
  import opened Wire
  import opened Buffers
  import opened Streams
  import opened Protocol
  import opened ManyGates
  import S = SessionSystem
  import W = SessionWire

  /** The connection is up, and leads to a cluster that has processed some of what was written to it. */
  predicate Connected<C, T, H>(side: Side<C, T, H>, t: T, clusters: map<H, S.Cluster<T>>) {
    && t in side.gate.trans && side.gate.trans[t].up && t in side.seen && side.seen[t] <= |side.gate.trans[t].sent|
    && t in side.home && side.home[t] in clusters
  }

  /** What the cluster has got of the bytes written for `msgs`, all of which can be sent, and what is still to come. */
  predicate Got(msgs: seq<Msg>, evs: seq<Arrival>, future: seq<byte>) {
    W.AllSendable(msgs) && (W.Written(msgs).Ok? ==> Arrived(evs) + future == W.Written(msgs).value)
  }

  /** Each packet decoded so far is understood as the message in its place. */
  lemma DecodedInOrder(msgs: seq<Msg>, evs: seq<Arrival>, future: seq<byte>, pks: seq<ServerPacket>)
    requires Got(msgs, evs, future) && pks == ServerViews(Process(evs, []).frames)
    ensures |pks| <= |msgs| && W.ReceivesExactly(pks, msgs[..|pks|])
  {
    W.StreamOfFrames(msgs);
    W.SendableSurvive(msgs, evs, future);
  }

  function Deliveries<G, C, T, H>(g: G, t: T, k: nat): seq<(G, S.Event<C, T, H>)> {
    if k == 0 then [] else [(g, S.Delivered(t))] + Deliveries(g, t, k - 1)
  }

  lemma OneDelivery<G, C(!new), T(!new), H(!new)>(w: World<G, C, T, H>, g: G, t: T)
    requires g in w.sides && Connected(w.sides[g], t, w.clusters)
    requires w.sides[g].seen[t] < |w.sides[g].gate.trans[t].sent|
    ensures var side, v := w.sides[g], StepOf(w, g, S.Delivered(t));
      && v.clusters.Keys == w.clusters.Keys
      && v.clusters[side.home[t]].sessions
           == Apply(w.clusters[side.home[t]].sessions, side.gate.trans[t].sent[side.seen[t]], t)
      && v.sides == w.sides[g := side.(seen := side.seen[t := side.seen[t] + 1])]
  {
  }

  /** As many deliveries replay the messages on the table. */
  lemma {:induction false} DeliveriesReplay<G, C(!new), T(!new), H(!new)>(w: World<G, C, T, H>, g: G, t: T, k: nat)
    requires g in w.sides && Connected(w.sides[g], t, w.clusters)
    requires w.sides[g].seen[t] + k <= |w.sides[g].gate.trans[t].sent|
    ensures var side := w.sides[g];
      var h, n := side.home[t], side.seen[t];
      var v := RunAll(w, Deliveries<G, C, T, H>(g, t, k));
      && h in v.clusters
      && v.clusters[h].sessions == Replay(w.clusters[h].sessions, side.gate.trans[t].sent[n..n + k], t)
      && g in v.sides && t in v.sides[g].seen && v.sides[g].seen[t] == n + k
    decreases k
  {
    if k > 0 {
      var side, es := w.sides[g], Deliveries<G, C, T, H>(g, t, k);
      var sent, n := side.gate.trans[t].sent, side.seen[t];
      var v := StepOf(w, g, S.Delivered(t));
      HeadTail((g, S.Delivered(t)), Deliveries<G, C, T, H>(g, t, k - 1));
      OneDelivery(w, g, t);
      DeliveriesReplay(v, g, t, k - 1);
      ReplayFirst(w.clusters[side.home[t]].sessions, sent, n, k, t);
    }
  }

  lemma ReplayFirst<T>(table: map<nat, Session<T>>, sent: seq<Msg>, n: nat, k: nat, t: T)
    requires 0 < k && n + k <= |sent|
    ensures Replay(table, sent[n..n + k], t) == Replay(Apply(table, sent[n], t), sent[n + 1..n + k], t)
  {
    assert sent[n..n + k][0] == sent[n] && sent[n..n + k][1..] == sent[n + 1..n + k];
  }

  lemma SomeReceived(pks: seq<ServerPacket>, msgs: seq<Msg>, n: nat, k: nat)
    requires |pks| <= |msgs| && W.ReceivesExactly(pks, msgs[..|pks|]) && n + k <= |pks|
    ensures W.ReceivesExactly(pks[n..n + k], msgs[n..n + k])
  {
    var some, all := msgs[n..n + k], msgs[..|pks|];
    var got := pks[n..n + k];
    forall i | 0 <= i < |got| ensures W.Understand(got[i]) == W.Message(some[i]) {
      assert got[i] == pks[n + i] && some[i] == all[n + i];
    }
  }

  lemma UnderstoodData(pk: ServerPacket, m: Msg)
    requires W.Understand(pk) == W.Message(m)
    ensures m.Data? ==> pk.session == m.session
  {
  }

  /**
   Packets decoded in order beyond those processed, handed to the cluster as a group, are the next messages of the
   connection, and do to the shared table what as many deliveries do.
   */
  lemma GroupIsDeliveries<G, C(!new), T(!new), H(!new)>(
    w: World<G, C, T, H>, g: G, t: T, pks: seq<ServerPacket>, k: nat)
    requires g in w.sides && Connected(w.sides[g], t, w.clusters)
    requires var sent := w.sides[g].gate.trans[t].sent;
      |pks| <= |sent| && W.ReceivesExactly(pks, sent[..|pks|]) && w.sides[g].seen[t] + k <= |pks|
    ensures var side := w.sides[g];
      var h, n, sent := side.home[t], side.seen[t], side.gate.trans[t].sent;
      && W.ReceivesExactly(pks[n..n + k], sent[n..n + k])
      && var v := RunAll(w, Deliveries<G, C, T, H>(g, t, k));
         h in v.clusters && v.clusters[h].sessions == Replay(w.clusters[h].sessions, sent[n..n + k], t)
  {
    SomeReceived(pks, w.sides[g].gate.trans[t].sent, w.sides[g].seen[t], k);
    DeliveriesReplay(w, g, t, k);
  }

  /**
   In every run of several gates with distinct ids before the same clusters: when the next packet decoded from the
   bytes of one of them is data, its session is in the shared table, bound to the connection whose bytes they are,
   with the address of the client of that gate that has this session.
   */
  lemma PacketsMeetTheirSessions<G(!new), C(!new), T(!new), H(!new)>(
    ids: map<G, nat>, servers: map<H, nat>, es: seq<(G, S.Event<C, T, H>)>, g: G, t: T,
    evs: seq<Arrival>, future: seq<byte>, pks: seq<ServerPacket>)
    requires Allowed(ids, servers, es) && g in ids && pks == ServerViews(Process(evs, []).frames)
    requires var w := RunAll(Start<G, C, T, H>(ids, servers), es);
      && g in w.sides && Connected(w.sides[g], t, w.clusters)
      && Got(w.sides[g].gate.trans[t].sent, evs, future) && w.sides[g].seen[t] < |pks|
    ensures var w := RunAll(Start<G, C, T, H>(ids, servers), es);
      var side := w.sides[g];
      var pk, table := pks[side.seen[t]], w.clusters[side.home[t]].sessions;
      W.Understand(pk).Message? && W.Understand(pk).m.Data? ==>
        && pk.session in table && table[pk.session].conn == t
        && exists c :: c in side.gate.clients && side.gate.clients[c].id == pk.session
                       && table[pk.session].addr == side.gate.clients[c].addr
  {
    var w := RunAll(Start<G, C, T, H>(ids, servers), es);
    var side := w.sides[g];
    var sent, n := side.gate.trans[t].sent, side.seen[t];
    DecodedInOrder(sent, evs, future, pks);
    assert sent[..|pks|][n] == sent[n];
    UnderstoodData(pks[n], sent[n]);
    if sent[n].Data? {
      DataMeetsItsSessionAmongMany(ids, servers, es, g, t);
    }
  }
}
