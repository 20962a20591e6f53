/**
 Replies in every run: which of the packets a gate gets from clusters are written to which client.

 Packets come in between the steps of module SessionSystem, from any connection. The gate looks their session up in
 its table; what is said here of the outcome speaks of the ids its clients have been given, and not of the table.
 */
module Downstream {
  import opened Bytes
  import opened Seqs
  import opened Wire
  import opened Buffers
  import opened Streams
  import opened Packages
  import opened SessionSafety
  import opened GateTables
  import opened ReplyStreams
  import G = GateModel
  import L = Links
  import R = Relays
  import S = SessionSystem

  /** A step of the system, or a packet that `OnTranMessage` is called with. */
  datatype Beat<C, T, H> = Acts(e: S.Event<C, T, H>) | Handles(t: T, pk: ServerPacket)

  /** What is written to a client, and the connection it came by. */
  datatype Reply<T> = Reply(t: T, session: nat, data: seq<byte>)

  function After<C(==), T(==), H>(s: S.System<C, T, H>, beats: seq<Beat<C, T, H>>): S.System<C, T, H>
    decreases |beats|
  {
    if beats == [] then s else After(if beats[0].Acts? then S.Step(s, beats[0].e) else s, beats[1..])
  }

  function IsLive<C, T>(g: G.Gate<C, T>, c: C): bool {
    c in g.clients && g.clients[c].live
  }

  /** What the gate writes to `c`: the packets for clients whose session leads to it. */
  function Outbox<C(==), T(==), H>(s: S.System<C, T, H>, beats: seq<Beat<C, T, H>>, c: C): seq<Reply<T>>
    decreases |beats|
  {
    if beats == [] then []
    else
      match beats[0]
      case Acts(e) => Outbox(S.Step(s, e), beats[1..], c)
      case Handles(t, pk) =>
        (if pk.option != R.SERVER && pk.session in s.gate.table && s.gate.table[pk.session] == c && IsLive(s.gate, c)
         then [Reply(t, pk.session, pk.buff)] else [])
        + Outbox(s, beats[1..], c)
  }

  // ---- The ids a client has been given ----

  function Given<C, T>(g: G.Gate<C, T>, c: C, ids: set<nat>): set<nat> {
    if c in g.clients then ids + {g.clients[c].id} else ids
  }

  /** All of them after some beats, when `ids` are those before. */
  function GivenBy<C(==), T(==), H>(s: S.System<C, T, H>, beats: seq<Beat<C, T, H>>, c: C, ids: set<nat>): set<nat>
    decreases |beats|
  {
    if beats == [] then ids
    else if beats[0].Handles? then GivenBy(s, beats[1..], c, ids)
    else
      var r := S.Step(s, beats[0].e);
      GivenBy(r, beats[1..], c, Given(r.gate, c, ids))
  }

  /** What `c` should get: while it is live, the packets for any id it has been given. */
  function Owed<C(==), T(==), H>(s: S.System<C, T, H>, beats: seq<Beat<C, T, H>>, c: C, ids: set<nat>): seq<Reply<T>>
    decreases |beats|
  {
    if beats == [] then []
    else
      match beats[0]
      case Acts(e) =>
        var r := S.Step(s, e);
        Owed(r, beats[1..], c, Given(r.gate, c, ids))
      case Handles(t, pk) =>
        (if pk.option != R.SERVER && pk.session in ids && IsLive(s.gate, c)
         then [Reply(t, pk.session, pk.buff)] else [])
        + Owed(s, beats[1..], c, ids)
  }

  /** The ids `c` has been given are those that lead to it, as long as it is live. */
  ghost predicate Knows<C(!new), T>(g: G.Gate<C, T>, c: C, ids: set<nat>) {
    && (forall x :: x in ids ==> x / 256 <= g.count)
    && (if c in g.clients then g.clients[c].id in ids else ids == {})
    && (IsLive(g, c) ==> forall x :: x in ids <==> x in g.table && g.table[x] == c)
  }

  ghost predicate Reachable<C(!new), T(!new), H(!new)>(s: S.System<C, T, H>) {
    S.Inv(s) && Tidy(s.gate)
  }

  lemma StepIsReachable<C(!new), T(!new), H(!new)>(s: S.System<C, T, H>, e: S.Event<C, T, H>)
    requires Reachable(s) && S.Step(s, e).gate.count < G.MAX_REGISTRATIONS
    ensures Reachable(S.Step(s, e))
  {
    StepKeepsInv(s, e);
    StepKeepsTidy(s, e);
  }

  lemma RegisteredKnows<C(!new), T>(g: G.Gate<C, T>, d: C, info: G.Client<T>, c: C, ids: set<nat>)
    requires G.Registered(g) && Tidy(g) && g.count + 1 < G.MAX_REGISTRATIONS && Knows(g, c, ids)
    requires d in g.clients ==> g.clients[d].live
    ensures var r := G.Register(g, d, info); Knows(r, c, Given(r, c, ids))
  {
    G.NextIdIsFresh(g);
    var id := G.SessionId(g.count + 1, g.gateId);
    assert id !in g.table && id !in ids;
    assert forall k :: k in g.table ==> g.table[k] in g.clients;
  }

  lemma ClosedKnows<C(!new), T>(g: G.Gate<C, T>, d: C, c: C, ids: set<nat>)
    requires G.Registered(g) && Knows(g, c, ids)
    ensures var r := G.Close(g, d); Knows(r, c, Given(r, c, ids))
  {
    if c in g.clients {
      assert ids + {g.clients[c].id} == ids;
    }
  }

  lemma SameKnows<C(!new), T>(g: G.Gate<C, T>, r: G.Gate<C, T>, c: C, ids: set<nat>)
    requires SameClients(g, r) && Knows(g, c, ids)
    ensures Knows(r, c, Given(r, c, ids)) && Given(r, c, ids) == ids
  {
  }

  lemma StepKnows<C(!new), T(!new), H(!new)>(s: S.System<C, T, H>, e: S.Event<C, T, H>, c: C, ids: set<nat>)
    requires Reachable(s) && Knows(s.gate, c, ids) && S.Step(s, e).gate.count < G.MAX_REGISTRATIONS
    ensures var r := S.Step(s, e).gate; Knows(r, c, Given(r, c, ids))
  {
    match e
    case Accepted(d, addr) =>
      if d !in s.gate.clients {
        RegisteredKnows(s.gate, d, G.Client(0, addr, map[], false, true), c, ids);
      } else {
        SameKnows(s.gate, s.gate, c, ids);
      }
    case Verified(d) =>
      if d in s.gate.clients && s.gate.clients[d].live && !s.gate.clients[d].verified {
        RegisteredKnows(s.gate, d, s.gate.clients[d].(verified := true), c, ids);
      } else {
        SameKnows(s.gate, s.gate, c, ids);
      }
    case Closed(d) => ClosedKnows(s.gate, d, c, ids);
    case _ =>
      OthersKeepClients(s, e);
      SameKnows(s.gate, S.Step(s, e).gate, c, ids);
  }

  lemma {:induction false} CountsGrow<C(!new), T(!new), H(!new)>(s: S.System<C, T, H>, beats: seq<Beat<C, T, H>>)
    ensures s.gate.count <= After(s, beats).gate.count
    decreases |beats|
  {
    if beats != [] {
      var r := if beats[0].Acts? then S.Step(s, beats[0].e) else s;
      if beats[0].Acts? {
        StepCounts(s, beats[0].e);
      }
      CountsGrow(r, beats[1..]);
    }
  }

  lemma {:induction false} AllIsOwed<C(!new), T(!new), H(!new)>(
    s: S.System<C, T, H>, beats: seq<Beat<C, T, H>>, c: C, ids: set<nat>)
    requires Reachable(s) && Knows(s.gate, c, ids) && After(s, beats).gate.count < G.MAX_REGISTRATIONS
    ensures Outbox(s, beats, c) == Owed(s, beats, c, ids)
    ensures Reachable(After(s, beats)) && Knows(After(s, beats).gate, c, GivenBy(s, beats, c, ids))
    decreases |beats|
  {
    if beats != [] {
      match beats[0]
      case Acts(e) =>
        var r := S.Step(s, e);
        CountsGrow(r, beats[1..]);
        StepIsReachable(s, e);
        StepKnows(s, e, c, ids);
        AllIsOwed(r, beats[1..], c, Given(r.gate, c, ids));
      case Handles(t, pk) =>
        AllIsOwed(s, beats[1..], c, ids);
    }
  }

  /**
   In every run a client is written exactly the packets for clients that carry an id it has been given, before or with
   its first package, in order, from when it has that id until it closes.
   */
  lemma {:induction false} RepliesReachTheirClient<C(!new), T(!new), H(!new)>(
    gateId: nat, servers: map<H, nat>, beats: seq<Beat<C, T, H>>, c: C)
    requires gateId < 256
    requires After(S.Init<C, T, H>(gateId, servers), beats).gate.count < G.MAX_REGISTRATIONS
    ensures var s := S.Init<C, T, H>(gateId, servers); Outbox(s, beats, c) == Owed(s, beats, c, {})
  {
    InitIsReachable<C, T, H>(gateId, servers);
    AllIsOwed(S.Init<C, T, H>(gateId, servers), beats, c, {});
  }

  lemma InitIsReachable<C(!new), T(!new), H(!new)>(gateId: nat, servers: map<H, nat>)
    requires gateId < 256
    ensures Reachable(S.Init<C, T, H>(gateId, servers))
  {
    EveryRunIsSafe<C, T, H>(gateId, servers, []);
  }

  // ---- No other client's ----

  lemma RegisteredGives<C(!new), T>(
    g: G.Gate<C, T>, who: C, info: G.Client<T>, c: C, ids: set<nat>, d: C, others: set<nat>)
    requires G.Registered(g) && g.count + 1 < G.MAX_REGISTRATIONS
    requires Knows(g, c, ids) && Knows(g, d, others) && c != d && ids !! others
    ensures var r := G.Register(g, who, info); Given(r, c, ids) !! Given(r, d, others)
  {
    G.NextIdIsFresh(g);
    var id := G.SessionId(g.count + 1, g.gateId);
    assert id !in ids && id !in others;
  }

  lemma ClosedGives<C(!new), T>(g: G.Gate<C, T>, who: C, c: C, ids: set<nat>)
    requires Knows(g, c, ids)
    ensures Given(G.Close(g, who), c, ids) == ids
  {
  }

  lemma OneIsGiven<C(!new), T(!new), H(!new)>(
    s: S.System<C, T, H>, e: S.Event<C, T, H>, c: C, ids: set<nat>, d: C, others: set<nat>)
    requires Reachable(s) && Knows(s.gate, c, ids) && Knows(s.gate, d, others) && c != d && ids !! others
    requires S.Step(s, e).gate.count < G.MAX_REGISTRATIONS
    ensures var r := S.Step(s, e).gate; Given(r, c, ids) !! Given(r, d, others)
  {
    match e
    case Accepted(who, addr) =>
      if who !in s.gate.clients {
        RegisteredGives(s.gate, who, G.Client(0, addr, map[], false, true), c, ids, d, others);
      }
    case Verified(who) =>
      if who in s.gate.clients && s.gate.clients[who].live && !s.gate.clients[who].verified {
        RegisteredGives(s.gate, who, s.gate.clients[who].(verified := true), c, ids, d, others);
      }
    case Closed(who) =>
      ClosedGives(s.gate, who, c, ids);
      ClosedGives(s.gate, who, d, others);
    case _ =>
      OthersKeepClients(s, e);
      SameKnows(s.gate, S.Step(s, e).gate, c, ids);
      SameKnows(s.gate, S.Step(s, e).gate, d, others);
  }

  /** No id is ever given to two clients. */
  lemma {:induction false} IdsAreNotShared<C(!new), T(!new), H(!new)>(
    s: S.System<C, T, H>, beats: seq<Beat<C, T, H>>, c: C, ids: set<nat>, d: C, others: set<nat>)
    requires Reachable(s) && After(s, beats).gate.count < G.MAX_REGISTRATIONS
    requires Knows(s.gate, c, ids) && Knows(s.gate, d, others) && c != d && ids !! others
    ensures GivenBy(s, beats, c, ids) !! GivenBy(s, beats, d, others)
    decreases |beats|
  {
    if beats != [] {
      match beats[0]
      case Acts(e) =>
        var r := S.Step(s, e);
        CountsGrow(r, beats[1..]);
        StepIsReachable(s, e);
        StepKnows(s, e, c, ids);
        StepKnows(s, e, d, others);
        OneIsGiven(s, e, c, ids, d, others);
        IdsAreNotShared(r, beats[1..], c, Given(r.gate, c, ids), d, Given(r.gate, d, others));
      case Handles(_, _) => IdsAreNotShared(s, beats[1..], c, ids, d, others);
    }
  }

  // ---- From a client's first package on ----

  predicate Settled<C, T>(g: G.Gate<C, T>, c: C, ids: set<nat>) {
    c in g.clients && g.clients[c].live && g.clients[c].verified && g.clients[c].id in ids
  }

  predicate Stays<C(==), T(==), H(==)>(beats: seq<Beat<C, T, H>>, c: C) {
    beats != [] ==> beats[0] != Acts(S.Closed(c)) && Stays(beats[1..], c)
  }

  /** The packets handled that are for clients with one of these ids, and come by `t`. */
  function Selected<C, T(==), H>(beats: seq<Beat<C, T, H>>, t: T, ids: set<nat>): seq<Reply<T>> {
    if beats == [] then []
    else (if beats[0].Handles? && beats[0].t == t && beats[0].pk.option != R.SERVER && beats[0].pk.session in ids
          then [Reply(t, beats[0].pk.session, beats[0].pk.buff)] else []) + Selected(beats[1..], t, ids)
  }

  function From<T(==)>(replies: seq<Reply<T>>, t: T): seq<Reply<T>> {
    if replies == [] then [] else (if replies[0].t == t then [replies[0]] else []) + From(replies[1..], t)
  }

  lemma SentSettled<C, T>(
    g: G.Gate<C, T>, d: C, to: nat, msgid: nat, payload: seq<byte>, pick: nat, c: C, ids: set<nat>)
    requires Settled(g, c, ids)
    ensures Settled(G.Message(g, d, to, msgid, payload, pick), c, ids)
  {
  }

  lemma StepSettled<C(!new), T(!new), H(!new)>(s: S.System<C, T, H>, e: S.Event<C, T, H>, c: C, ids: set<nat>)
    requires Settled(s.gate, c, ids) && e != S.Closed(c)
    ensures Settled(S.Step(s, e).gate, c, ids) && Given(S.Step(s, e).gate, c, ids) == ids
  {
    match e
    case Sent(d, to, msgid, payload, pick) => SentSettled(s.gate, d, to, msgid, payload, pick, c, ids);
    case Accepted(_, _) =>
    case Verified(_) =>
    case Closed(_) =>
    case BreakSent(_, _) =>
    case Connected(_, _, _) =>
    case Disconnected(_) =>
    case Delivered(_) =>
  }

  lemma FromConcat<T>(r: Reply<T>, sent: bool, later: seq<Reply<T>>, t: T)
    ensures From((if sent then [r] else []) + later, t) == (if sent && r.t == t then [r] else []) + From(later, t)
  {
    EmptyLeft(later);
    HeadTail(r, later);
  }

  /** Until it closes, a client is owed all the packets for its ids. */
  lemma {:induction false} OwedFrom<C(!new), T(!new), H(!new)>(
    s: S.System<C, T, H>, beats: seq<Beat<C, T, H>>, c: C, ids: set<nat>, t: T)
    requires Settled(s.gate, c, ids) && Stays(beats, c)
    ensures From(Owed(s, beats, c, ids), t) == Selected(beats, t, ids)
    decreases |beats|
  {
    if beats != [] {
      match beats[0]
      case Acts(e) =>
        StepSettled(s, e, c, ids);
        OwedFrom(S.Step(s, e), beats[1..], c, ids, t);
      case Handles(u, pk) =>
        OwedFrom(s, beats[1..], c, ids, t);
        FromConcat(Reply(u, pk.session, pk.buff), pk.option != R.SERVER && pk.session in ids,
                   Owed(s, beats[1..], c, ids), t);
    }
  }

  // ---- From a cluster's bytes to the client's ----

  /** The packets handled that come by `t`. */
  function Handled<C, T(==), H>(beats: seq<Beat<C, T, H>>, t: T): seq<ServerPacket> {
    if beats == [] then []
    else (if beats[0].Handles? && beats[0].t == t then [beats[0].pk] else []) + Handled(beats[1..], t)
  }

  /** The replies among packets that come by `t`. */
  function RepliesIn<T>(pks: seq<ServerPacket>, t: T, ids: set<nat>): seq<Reply<T>> {
    if pks == [] then []
    else (if pks[0].option != R.SERVER && pks[0].session in ids
          then [Reply(t, pks[0].session, pks[0].buff)] else []) + RepliesIn(pks[1..], t, ids)
  }

  lemma {:induction false} SelectedAreHandled<C, T, H>(beats: seq<Beat<C, T, H>>, t: T, ids: set<nat>)
    ensures Selected(beats, t, ids) == RepliesIn(Handled(beats, t), t, ids)
  {
    if beats != [] {
      SelectedAreHandled(beats[1..], t, ids);
      var later := Handled(beats[1..], t);
      if beats[0].Handles? && beats[0].t == t {
        HeadTail(beats[0].pk, later);
      } else {
        EmptyLeft(later);
        EmptyLeft(Selected(beats[1..], t, ids));
      }
    }
  }

  /** The replies a cluster has written on `t` for one of these ids. */
  function Written<T>(ds: seq<R.Downward>, t: T, ids: set<nat>): seq<Reply<T>> {
    if ds == [] then []
    else (if ds[0].option != R.SERVER && ds[0].session in ids
          then [Reply(t, ds[0].session, PackPackage(ds[0].msgId, ds[0].body))] else []) + Written(ds[1..], t, ids)
  }

  lemma {:induction false} ViewsAreWritten<T>(ds: seq<R.Downward>, t: T, ids: set<nat>)
    requires R.AllDown(ds)
    ensures RepliesIn(TranViews(R.DownFrames(ds)), t, ids) == Written(ds, t, ids)
  {
    if ds != [] {
      var fs := R.DownFrames(ds[1..]);
      ViewsAreWritten(ds[1..], t, ids);
      R.DownView(ds[0], fs);
      HeadTail(TranView(ds[0].Frame()), TranViews(fs));
    }
  }

  /** What the gate handles of one connection, when it handles the packets decoded in order. */
  lemma HandledIsWritten<T>(
    ds: seq<R.Downward>, evs: seq<Arrival>, future: seq<byte>, pks: seq<ServerPacket>, t: T, ids: set<nat>)
    requires R.AllDown(ds) && (R.Answered(ds).Ok? ==> Arrived(evs) + future == R.Answered(ds).value)
    requires pks <= TranViews(Process(evs, []).frames)
    ensures |pks| <= |ds| && RepliesIn(pks, t, ids) == Written(ds[..|pks|], t, ids)
  {
    var fs, n := R.DownFrames(ds), |pks|;
    R.ClusterWrites(ds);
    ChunkingIsTransparent(fs, evs, future);
    R.DownFramesPrefix(ds, |ds|);
    R.DownFramesPrefix(ds, n);
    ViewsOfFirst(fs, Process(evs, []).frames, pks);
    ViewsAreWritten(ds[..n], t, ids);
  }

  lemma ViewsOfFirst(fs: seq<Frame>, some: seq<Frame>, pks: seq<ServerPacket>)
    requires some <= fs && pks <= TranViews(some)
    ensures |pks| <= |fs| && pks == TranViews(fs[..|pks|])
  {
    var n := |pks|;
    assert some[..n] + some[n..] == some && some[..n] == fs[..n];
    L.ViewsConcat(some[..n], some[n..]);
  }

  /**
   From a cluster to a client: whatever comes by other connections and whatever else goes on, what a client is written
   from the packets of one connection is exactly what the cluster has written there for the ids of that client, in
   order and byte for byte, from the client's first package until it closes, of all that has been handled so far.
   */
  lemma {:induction false} DownstreamIsTransparent<C(!new), T(!new), H(!new)>(
    s: S.System<C, T, H>, beats: seq<Beat<C, T, H>>, c: C, ids: set<nat>, t: T,
    ds: seq<R.Downward>, evs: seq<Arrival>, future: seq<byte>)
    requires Reachable(s) && Knows(s.gate, c, ids) && Settled(s.gate, c, ids) && Stays(beats, c)
    requires After(s, beats).gate.count < G.MAX_REGISTRATIONS
    requires R.AllDown(ds) && (R.Answered(ds).Ok? ==> Arrived(evs) + future == R.Answered(ds).value)
    requires Handled(beats, t) <= TranViews(Process(evs, []).frames)
    ensures |Handled(beats, t)| <= |ds|
    ensures From(Outbox(s, beats, c), t) == Written(ds[..|Handled(beats, t)|], t, ids)
  {
    AllIsOwed(s, beats, c, ids);
    OwedFrom(s, beats, c, ids, t);
    SelectedAreHandled(beats, t, ids);
    HandledIsWritten(ds, evs, future, Handled(beats, t), t, ids);
  }

  // ---- The client's end ----

  /** The bytes the gate writes to the client. */
  function Framed<T>(replies: seq<Reply<T>>): Result<seq<byte>> {
    if replies == [] then Ok([])
    else
      var packed, later := PackClientData(replies[0].session, replies[0].data), Framed(replies[1..]);
      if packed.Ok? && later.Ok? then Ok(packed.value + later.value) else Panic
  }

  function FramesOf<T>(replies: seq<Reply<T>>): seq<Frame> {
    if replies == [] then [] else [ReplyFrame(replies[0].session, replies[0].data)] + FramesOf(replies[1..])
  }

  predicate Readable<T>(replies: seq<Reply<T>>) {
    forall i :: 0 <= i < |replies| ==> IsU32(replies[i].session) && 2 <= |replies[i].data| <= 32761
  }

  /** What the client makes of them; the id is computed on 8 bits. */
  function Packets<T>(replies: seq<Reply<T>>): seq<ClientPacket>
    requires Readable(replies)
  {
    if replies == [] then []
    else
      var data := replies[0].data;
      [ClientPacket(replies[0].session, (data[0] as nat * 16 + data[1] as nat) % 256, data)] + Packets(replies[1..])
  }

  lemma {:induction false} FramedIsStream<T>(replies: seq<Reply<T>>)
    requires Readable(replies)
    ensures Framed(replies) == Ok(EncodeAll(FramesOf(replies))) && AllFit(FramesOf(replies), REPLY_GROUP)
    ensures ReplyViews(FramesOf(replies)) == Packets(replies) && |FramesOf(replies)| == |replies|
  {
    if replies != [] {
      var r, fs := replies[0], FramesOf(replies[1..]);
      var f := ReplyFrame(r.session, r.data);
      FramedIsStream(replies[1..]);
      PackClientDataFrame(r.session, r.data);
      ReplyFrameFields(r.session, r.data);
      HeadTail(f, fs);
      L.ViewsConcat([f], fs);
      L.OneView(f);
    }
  }

  lemma PacketsPrefix<T>(replies: seq<Reply<T>>, fs: seq<Frame>)
    requires Readable(replies) && fs <= FramesOf(replies)
    ensures ReplyViews(fs) <= Packets(replies)
  {
    FramedIsStream(replies);
    var all, n := FramesOf(replies), |fs|;
    assert fs + all[n..] == all;
    L.ViewsConcat(fs, all[n..]);
  }

  /**
   In whatever chunks the bytes come and whenever it pops, a client decodes exactly the replies written to it, in
   order: it survives if and only if no pop finds a single byte, and has them all after a last pop when all have come.
   */
  lemma RepliesAreRead<T>(replies: seq<Reply<T>>, evs: seq<Arrival>, future: seq<byte>)
    requires Readable(replies) && (Framed(replies).Ok? ==> Arrived(evs) + future == Framed(replies).value)
    ensures var r := ProcessReplies(evs, []);
      && Framed(replies).Ok?
      && (r.alive <==> NeverOneByte(FramesOf(replies), evs, 0))
      && ReplyViews(r.frames) <= Packets(replies)
      && (r.alive && evs != [] && evs[|evs| - 1].pop && future == [] ==> ReplyViews(r.frames) == Packets(replies))
  {
    var fs, r := FramesOf(replies), ProcessReplies(evs, []);
    FramedIsStream(replies);
    ChunkedReplies(fs, evs, future);
    PacketsPrefix(replies, r.frames);
    if future == [] {
      EmptyLeft(Arrived(evs));
      AllCompleted(fs);
      assert fs[..|fs|] == fs;
    }
  }
}
