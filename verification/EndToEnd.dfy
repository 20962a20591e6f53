/**
 From a client's websocket to a cluster's loop: the bytes the client writes, the steps of the gate they lead to
 among those of everyone else, the bytes the gate writes for all of them, and the packets the cluster decodes.
 */
module EndToEnd {
  import opened Bytes
  import opened Seqs
  import opened Wire
  import opened Buffers
  import opened Streams
  import opened Links
  import opened Packages
  import opened Protocol
  import opened SessionSafety
  import R = Relays
  import W = SessionWire
  import G = GateModel
  import S = SessionSystem

  /** What the loop of the client's connection calls the gate with. */
  function FromClient<C(==), T, H>(es: seq<S.Event<C, T, H>>, c: C): seq<ClientMessage> {
    if es == [] then []
    else
      (if es[0].Sent? && es[0].c == c then [ClientMessage(es[0].server, es[0].msgid, es[0].payload)] else [])
      + FromClient(es[1..], c)
  }

  /** The payloads among them for a server type, heartbeats left out. */
  function ToServer(calls: seq<ClientMessage>, server: nat): seq<seq<byte>> {
    if calls == [] then []
    else
      (if calls[0].server == server && calls[0].msgId != 0 then [calls[0].buff] else []) + ToServer(calls[1..], server)
  }

  /** The packet a session's payload is decoded as. */
  function PacketOf(x: nat, payload: seq<byte>): ServerPacket {
    ServerPacket(x, R.CLIENT, MsgId(payload, 0), if |payload| < 2 then [] else payload[2..])
  }

  function PacketsOf(x: nat, ps: seq<seq<byte>>): seq<ServerPacket> {
    if ps == [] then [] else [PacketOf(x, ps[0])] + PacketsOf(x, ps[1..])
  }

  lemma {:induction false} PacketsAppend(x: nat, ps: seq<seq<byte>>, p: seq<byte>)
    ensures PacketsOf(x, ps + [p]) == PacketsOf(x, ps) + [PacketOf(x, p)]
  {
    if ps == [] {
      assert [p][1..] == [];
    } else {
      PacketsAppend(x, ps[1..], p);
      assert (ps + [p])[1..] == ps[1..] + [p];
    }
  }

  /** The data of one session among all that a cluster decodes. */
  function DataPackets(pks: seq<ServerPacket>, x: nat): seq<ServerPacket> {
    if pks == [] then []
    else
      var ps, pk := DataPackets(pks[..|pks| - 1], x), pks[|pks| - 1];
      if pk.option == R.CLIENT && pk.session == x then ps + [pk] else ps
  }

  // ---- The gate's side ----

  lemma {:induction false} AddressedToServer<C, T, H>(es: seq<S.Event<C, T, H>>, c: C, server: nat)
    ensures Addressed(es, c, server) == ToServer(FromClient(es, c), server)
  {
    if es != [] {
      AddressedToServer(es[1..], c, server);
      var later := FromClient(es[1..], c);
      if es[0].Sent? && es[0].c == c {
        assert FromClient(es, c)[1..] == later;
      } else {
        assert FromClient(es, c) == later;
      }
    }
  }

  lemma MessagePacket(m: R.Upward, x: nat)
    requires m.Valid()
    ensures PacketOf(x, PackPackage(m.msgId, m.body)) == ServerPacket(x, R.CLIENT, m.msgId, m.body)
  {
    PackageFields(m.msgId, m.body);
  }

  lemma {:induction false} MessagesToServer(ms: seq<R.Upward>, server: nat, x: nat)
    requires forall i :: 0 <= i < |ms| ==> ms[i].Valid()
    ensures PacketsOf(x, ToServer(R.Messages(ms), server)) == R.Expected(x, server, ms)
  {
    if ms != [] {
      var m, later := ms[0], ToServer(R.Messages(ms[1..]), server);
      MessagesToServer(ms[1..], server, x);
      MessagePacket(m, x);
      assert R.Messages(ms)[1..] == R.Messages(ms[1..]);
      if m.server == server && m.msgId != 0 {
        var p := PackPackage(m.msgId, m.body);
        assert ([p] + later)[1..] == later;
      } else {
        assert [] + later == later && [] + R.Expected(x, server, ms[1..]) == R.Expected(x, server, ms[1..]);
      }
    }
  }

  /** The client has sent its first package, and no message to that type yet. */
  predicate Waits<C, T>(g: G.Gate<C, T>, c: C, server: nat, x: nat) {
    && c in g.clients && g.clients[c].live && g.clients[c].verified
    && g.clients[c].id == x && server !in g.clients[c].conns
  }

  /** The client neither closes nor sends a message to that type. */
  predicate NotYet<C(==), T(==), H(==)>(es: seq<S.Event<C, T, H>>, c: C, server: nat) {
    es != [] ==>
      && es[0] != S.Closed(c)
      && (es[0].Sent? && es[0].c == c ==> es[0].server != server || es[0].msgid == 0)
      && NotYet(es[1..], c, server)
  }

  lemma SentWaits<C, T>(
    g: G.Gate<C, T>, d: C, to: nat, msgid: nat, payload: seq<byte>, pick: nat, c: C, server: nat, x: nat)
    requires Waits(g, c, server, x) && (d == c ==> to != server || msgid == 0)
    ensures Waits(G.Message(g, d, to, msgid, payload, pick), c, server, x)
  {
  }

  lemma StepWaits<C(!new), T(!new), H(!new)>(s: S.System<C, T, H>, e: S.Event<C, T, H>, c: C, server: nat, x: nat)
    requires Waits(s.gate, c, server, x) && NotYet([e], c, server)
    ensures Waits(S.Step(s, e).gate, c, server, x)
  {
    match e
    case Sent(d, to, msgid, payload, pick) => SentWaits(s.gate, d, to, msgid, payload, pick, c, server, x);
    case Accepted(_, _) =>
    case Verified(_) =>
    case Closed(_) =>
    case BreakSent(_, _) =>
    case Connected(_, _, _) =>
    case Disconnected(_) =>
    case Delivered(_) =>
  }

  lemma {:induction false} RunWaits<C(!new), T(!new), H(!new)>(
    s: S.System<C, T, H>, es: seq<S.Event<C, T, H>>, c: C, server: nat, x: nat)
    requires Waits(s.gate, c, server, x) && NotYet(es, c, server)
    ensures Waits(S.Run(s, es).gate, c, server, x) && ToServer(FromClient(es, c), server) == []
    decreases |es|
  {
    if es != [] {
      assert [es[0]][1..] == [];
      StepWaits(s, es[0], c, server, x);
      RunWaits(S.Step(s, es[0]), es[1..], c, server, x);
      AddressedToServer(es, c, server);
      AddressedToServer(es[1..], c, server);
    }
  }

  lemma {:induction false} AbsentIsSilent(msgs: seq<Msg>, x: nat)
    requires PhaseOf(msgs, x) == Absent
    ensures Payloads(msgs, x) == []
  {
    if msgs != [] {
      AbsentIsSilent(msgs[..|msgs| - 1], x);
    }
  }

  /** The first message to a server type binds the client, and is the first data of its session on the connection. */
  lemma FirstBinds<C(!new), T(!new), H(!new)>(
    s: S.System<C, T, H>, c: C, server: nat, msgid: nat, payload: seq<byte>, pick: nat, x: nat)
    requires S.Inv(s) && Waits(s.gate, c, server, x) && msgid != 0
    requires server in s.gate.group && pick in s.gate.group[server]
    ensures var r, t := S.Step(s, S.Sent(c, server, msgid, payload, pick)).gate, s.gate.group[server][pick];
      && S.Bound(r, c, t) && r.clients[c].live && r.clients[c].id == x && r.trans[t].server == server
      && Payloads(r.trans[t].sent, x) == [payload]
  {
    var t, addr := s.gate.group[server][pick], s.gate.clients[c].addr;
    var sent := s.gate.trans[t].sent;
    assert PhaseOf(sent, x) == S.Expected(s, c, t) == Absent;
    AbsentIsSilent(sent, x);
    PayloadsAppend(sent, Link(x, addr), x);
    PayloadsAppend(sent + [Link(x, addr)], Data(x, payload), x);
    assert sent + [Link(x, addr), Data(x, payload)] == sent + [Link(x, addr)] + [Data(x, payload)];
  }

  lemma {:induction false} RunAppend<C, T, H>(s: S.System<C, T, H>, a: seq<S.Event<C, T, H>>, b: seq<S.Event<C, T, H>>)
    ensures S.Run(s, a + b) == S.Run(S.Run(s, a), b)
    decreases |a|
  {
    if a == [] {
      assert a + b == b;
    } else {
      RunAppend(S.Step(s, a[0]), a[1..], b);
      assert (a + b)[1..] == a[1..] + b;
    }
  }

  lemma {:induction false} FromClientAppend<C, T, H>(a: seq<S.Event<C, T, H>>, b: seq<S.Event<C, T, H>>, c: C)
    ensures FromClient(a + b, c) == FromClient(a, c) + FromClient(b, c)
  {
    if a == [] {
      assert a + b == b;
    } else {
      FromClientAppend(a[1..], b, c);
      assert (a + b)[1..] == a[1..] + b && (a + b)[0] == a[0];
      Assoc(if a[0].Sent? && a[0].c == c then [ClientMessage(a[0].server, a[0].msgid, a[0].payload)] else [],
            FromClient(a[1..], c), FromClient(b, c));
    }
  }

  lemma {:induction false} ToServerAppend(a: seq<ClientMessage>, b: seq<ClientMessage>, server: nat)
    ensures ToServer(a + b, server) == ToServer(a, server) + ToServer(b, server)
  {
    if a == [] {
      assert a + b == b;
    } else {
      ToServerAppend(a[1..], b, server);
      assert (a + b)[1..] == a[1..] + b && (a + b)[0] == a[0];
      Assoc(if a[0].server == server && a[0].msgId != 0 then [a[0].buff] else [],
            ToServer(a[1..], server), ToServer(b, server));
    }
  }

  /**
   From before its first message to a server type until it closes or the connection goes down, what a client sends
   to that type is exactly the data of its session on the one connection it was bound to.
   */
  lemma DataIsWhatWasSent<C(!new), T(!new), H(!new)>(
    s: S.System<C, T, H>, pre: seq<S.Event<C, T, H>>, first: S.Event<C, T, H>, post: seq<S.Event<C, T, H>>,
    x: nat, t: T)
    requires S.Inv(s) && first.Sent? && first.msgid != 0 && Waits(s.gate, first.c, first.server, x)
    requires S.Run(s, pre + [first] + post).gate.count < G.MAX_REGISTRATIONS
    requires NotYet(pre, first.c, first.server) && Undisturbed(post, first.c, t)
    requires var group := S.Run(s, pre).gate.group;
      first.server in group && first.pick in group[first.server] && group[first.server][first.pick] == t
    ensures var r := S.Run(s, pre + [first] + post);
      && S.Inv(r) && t in r.gate.trans
      && Payloads(r.gate.trans[t].sent, x) == ToServer(FromClient(pre + [first] + post, first.c), first.server)
  {
    var c, server := first.c, first.server;
    var a := S.Run(s, pre);
    var b := S.Step(a, first);
    RunInParts(s, pre, first, post);
    RunKeepsInv(s, pre);
    RunWaits(s, pre, c, server, x);
    FirstBinds(a, c, server, first.msgid, first.payload, first.pick, x);
    StepKeepsInv(a, first);
    RoutingIsSticky(b, post, c, t);
    RunKeepsInv(b, post);
    AddressedToServer(post, c, server);
    AllInOrder(pre, first, post);
  }

  lemma RunInParts<C(!new), T(!new), H(!new)>(
    s: S.System<C, T, H>, pre: seq<S.Event<C, T, H>>, first: S.Event<C, T, H>, post: seq<S.Event<C, T, H>>)
    ensures var a := S.Run(s, pre);
      && S.Run(s, pre + [first] + post) == S.Run(S.Step(a, first), post)
      && a.gate.count <= S.Step(a, first).gate.count <= S.Run(s, pre + [first] + post).gate.count
  {
    var a := S.Run(s, pre);
    RunAppend(s, pre + [first], post);
    RunAppend(s, pre, [first]);
    assert [first][1..] == [];
    assert S.Run(a, [first]) == S.Run(S.Step(a, first), []);
    StepCounts(a, first);
    CountGrows(S.Step(a, first), post);
  }

  lemma AllInOrder<C, T, H>(pre: seq<S.Event<C, T, H>>, first: S.Event<C, T, H>, post: seq<S.Event<C, T, H>>)
    requires first.Sent? && first.msgid != 0 && ToServer(FromClient(pre, first.c), first.server) == []
    ensures ToServer(FromClient(pre + [first] + post, first.c), first.server)
         == [first.payload] + ToServer(FromClient(post, first.c), first.server)
  {
    var c, server := first.c, first.server;
    var one := [ClientMessage(server, first.msgid, first.payload)];
    FromClientAppend(pre + [first], post, c);
    FromClientAppend(pre, [first], c);
    assert [first][1..] == [] && FromClient([first], c) == one;
    ToServerAppend(FromClient(pre, c) + one, FromClient(post, c), server);
    ToServerAppend(FromClient(pre, c), one, server);
    assert one[1..] == [] && ToServer(one, server) == [first.payload];
  }

  // ---- The cluster's side ----

  lemma {:induction false} FramesAppend(msgs: seq<Msg>, m: Msg)
    ensures W.FramesOf(msgs + [m]) == W.FramesOf(msgs) + [W.FrameOf(m)]
  {
    if msgs == [] {
      assert [m][1..] == [];
    } else {
      FramesAppend(msgs[1..], m);
      assert (msgs + [m])[1..] == msgs[1..] + [m];
    }
  }

  lemma DataView(m: Msg, x: nat)
    requires IsU32(m.session)
    ensures var pk := ServerView(W.FrameOf(m));
      if m.Data? && m.session == x then pk.option == R.CLIENT && pk == PacketOf(x, m.payload)
      else pk.option != R.CLIENT || pk.session != x
  {
    ServerFrameFields(m.session, W.OptionFor(m), W.Payload(m));
  }

  /** The data of the session decoded from what was written for messages is that of the session's data messages. */
  predicate DataIsKept(msgs: seq<Msg>, x: nat) {
    DataPackets(ServerViews(W.FramesOf(msgs)), x) == PacketsOf(x, Payloads(msgs, x))
  }

  lemma {:induction false} DataOfStream(msgs: seq<Msg>, k: nat, x: nat)
    requires k <= |msgs| && forall i :: 0 <= i < |msgs| ==> IsU32(msgs[i].session)
    ensures DataIsKept(msgs[..k], x)
  {
    if k > 0 {
      DataOfStream(msgs, k - 1, x);
      LastData(msgs[..k - 1], msgs[k - 1], x);
      TakeMore(msgs, k - 1);
    }
  }

  lemma LastData(msgs: seq<Msg>, m: Msg, x: nat)
    requires IsU32(m.session) && DataIsKept(msgs, x)
    ensures DataIsKept(msgs + [m], x)
  {
    FramesAppend(msgs, m);
    ViewsAppend(W.FramesOf(msgs), W.FrameOf(m));
    DataView(m, x);
    DataAppend(ServerViews(W.FramesOf(msgs)), ServerView(W.FrameOf(m)), x);
    PayloadsAppend(msgs, m, x);
    if m.Data? && m.session == x {
      PacketsAppend(x, Payloads(msgs, x), m.payload);
    } else {
      assert Payloads(msgs, x) + [] == Payloads(msgs, x);
    }
  }

  lemma DataAppend(pks: seq<ServerPacket>, pk: ServerPacket, x: nat)
    ensures DataPackets(pks + [pk], x)
         == DataPackets(pks, x) + if pk.option == R.CLIENT && pk.session == x then [pk] else []
  {
    assert (pks + [pk])[..|pks|] == pks;
  }

  // ---- First parts ----

  lemma {:induction false} PayloadsPrefix(msgs: seq<Msg>, k: nat, x: nat)
    requires k <= |msgs|
    ensures Payloads(msgs[..k], x) <= Payloads(msgs, x)
    decreases |msgs|
  {
    if k == |msgs| {
      assert msgs[..k] == msgs;
    } else {
      var n := |msgs| - 1;
      PayloadsPrefix(msgs[..n], k, x);
      PrefixTwice(msgs, n, k);
    }
  }

  lemma {:induction false} PacketsPrefix(x: nat, ps: seq<seq<byte>>, qs: seq<seq<byte>>)
    requires ps <= qs
    ensures PacketsOf(x, ps) <= PacketsOf(x, qs)
  {
    if ps != [] {
      assert ps[1..] <= qs[1..];
      PacketsPrefix(x, ps[1..], qs[1..]);
    }
  }

  lemma {:induction false} FramesPrefix(msgs: seq<Msg>, n: nat)
    requires n <= |msgs|
    ensures |W.FramesOf(msgs)| == |msgs| && W.FramesOf(msgs)[..n] == W.FramesOf(msgs[..n])
  {
    if msgs != [] {
      FramesPrefix(msgs[1..], if n == 0 then 0 else n - 1);
      if n > 0 {
        assert msgs[..n][1..] == msgs[1..][..n - 1];
      }
    }
  }

  lemma ToServerPrefix(calls: seq<ClientMessage>, all: seq<ClientMessage>, server: nat)
    requires calls <= all
    ensures ToServer(calls, server) <= ToServer(all, server)
  {
    var n := |calls|;
    assert calls + all[n..] == all;
    ToServerAppend(calls, all[n..], server);
  }

  /**
   What a cluster has decoded of the bytes written for messages is the frames of the first of them; when it has got
   and popped all, it is those of all.
   */
  lemma FirstDecoded(msgs: seq<Msg>, evs: seq<Arrival>, future: seq<byte>)
    requires W.AllSendable(msgs) && (W.Written(msgs).Ok? ==> Arrived(evs) + future == W.Written(msgs).value)
    ensures var fs := Process(evs, []).frames;
      && |fs| <= |msgs| && fs == W.FramesOf(msgs[..|fs|])
      && (Fed(W.FramesOf(msgs), evs, 0) && evs != [] && evs[|evs| - 1].pop && future == [] ==> |fs| == |msgs|)
  {
    var fs, r := W.FramesOf(msgs), Process(evs, []);
    W.StreamOfFrames(msgs);
    ChunkingIsTransparent(fs, evs, future);
    FramesPrefix(msgs, |r.frames|);
    assert fs[..|r.frames|] == r.frames;
    if future == [] {
      EmptyLeft(Arrived(evs));
      AllCompleted(fs);
    }
  }

  /** The data of a session among what has been decoded is the first part of what was written for it, or all of it. */
  lemma FirstData(msgs: seq<Msg>, evs: seq<Arrival>, future: seq<byte>, x: nat)
    requires W.AllSendable(msgs) && (W.Written(msgs).Ok? ==> Arrived(evs) + future == W.Written(msgs).value)
    ensures var data, all := DataPackets(ServerViews(Process(evs, []).frames), x), PacketsOf(x, Payloads(msgs, x));
      && data <= all
      && (Fed(W.FramesOf(msgs), evs, 0) && evs != [] && evs[|evs| - 1].pop && future == [] ==> data == all)
  {
    var n := |Process(evs, []).frames|;
    FirstDecoded(msgs, evs, future);
    DataOfStream(msgs, n, x);
    PayloadsPrefix(msgs, n, x);
    PacketsPrefix(x, Payloads(msgs[..n], x), Payloads(msgs, x));
    if n == |msgs| {
      assert msgs[..n] == msgs;
    }
  }

  // ---- From end to end ----

  /**
   Whatever else goes on at the gate and on the connection, and whatever of the client's and of the gate's bytes has
   come by now, in whatever chunks and pops: the data the cluster has decoded for a client's session is a first part
   of what the client sent to that type, in order and byte for byte. It is all of it when the client's websocket
   messages have all come and been handled and end between two of the messages it sends, and the gate's bytes, for
   all its clients, have all come in a schedule that ends with a pop and finds 8 bytes at each.
   */
  lemma {:induction false} UpstreamIsTransparent<C(!new), T(!new), H(!new)>(
    s: S.System<C, T, H>, pre: seq<S.Event<C, T, H>>, first: S.Event<C, T, H>, post: seq<S.Event<C, T, H>>,
    x: nat, t: T,
    up: seq<R.Upward>, incoming: seq<Incoming>, unread: seq<byte>, evs: seq<Arrival>, future: seq<byte>)
    requires S.Inv(s) && first.Sent? && first.msgid != 0 && Waits(s.gate, first.c, first.server, x)
    requires S.Run(s, pre + [first] + post).gate.count < G.MAX_REGISTRATIONS
    requires NotYet(pre, first.c, first.server) && Undisturbed(post, first.c, t)
    requires var group := S.Run(s, pre).gate.group;
      first.server in group && first.pick in group[first.server] && group[first.server][first.pick] == t
    requires forall i :: 0 <= i < |up| ==> up[i].Valid()
    requires Concat(R.Binaries(incoming)) + unread == R.Sent(up)
    requires FromClient(pre + [first] + post, first.c) <= ClientRun(incoming, false).calls
    requires var trans := S.Run(s, pre + [first] + post).gate.trans;
      t in trans ==>
        && W.AllSendable(trans[t].sent)
        && (W.Written(trans[t].sent).Ok? ==> Arrived(evs) + future == W.Written(trans[t].sent).value)
    ensures var all, r := R.Expected(x, first.server, up), S.Run(s, pre + [first] + post);
      var data := DataPackets(ServerViews(Process(evs, []).frames), x);
      && t in r.gate.trans
      && data <= all
      && (AllAligned(R.ClientFrames(up), R.Binaries(incoming), 0) && unread == []
          && FromClient(pre + [first] + post, first.c) == ClientRun(incoming, false).calls
          && Fed(W.FramesOf(r.gate.trans[t].sent), evs, 0) && evs != [] && evs[|evs| - 1].pop && future == []
          ==> data == all)
  {
    DataIsWhatWasSent(s, pre, first, post, x, t);
    var msgs := S.Run(s, pre + [first] + post).gate.trans[t].sent;
    FirstData(msgs, evs, future, x);
    R.GateReceives(up, incoming, unread);
    CallsAreExpected(FromClient(pre + [first] + post, first.c), up, first.server, x);
  }

  lemma CallsAreExpected(calls: seq<ClientMessage>, up: seq<R.Upward>, server: nat, x: nat)
    requires calls <= R.Messages(up) && forall i :: 0 <= i < |up| ==> up[i].Valid()
    ensures PacketsOf(x, ToServer(calls, server)) <= R.Expected(x, server, up)
    ensures calls == R.Messages(up) ==> PacketsOf(x, ToServer(calls, server)) == R.Expected(x, server, up)
  {
    ToServerPrefix(calls, R.Messages(up), server);
    PacketsPrefix(x, ToServer(calls, server), ToServer(R.Messages(up), server));
    MessagesToServer(up, server, x);
  }

  // ---- A run in which it happens ----

  /** A client is accepted and sends its first package, and a connection to a cluster of type `k` comes up. */
  function Opening(addr: seq<byte>, k: nat): S.System<nat, nat, nat> {
    S.Run(S.Init<nat, nat, nat>(1, map[0 := k]), [S.Accepted(0, addr), S.Verified(0), S.Connected(0, 0, 1)])
  }

  lemma RunThree<C, T, H>(s: S.System<C, T, H>, a: S.Event<C, T, H>, b: S.Event<C, T, H>, c: S.Event<C, T, H>)
    ensures S.Run(s, [a, b, c]) == S.Step(S.Step(S.Step(s, a), b), c)
  {
    assert [a, b, c] == [a] + [b, c] && [b, c] == [b] + [c];
    RunAppend(s, [a], [b, c]);
    RunAppend(S.Run(s, [a]), [b], [c]);
    RunOne(s, a);
    RunOne(S.Step(s, a), b);
    RunOne(S.Step(S.Step(s, a), b), c);
  }

  lemma RunOne<C, T, H>(s: S.System<C, T, H>, e: S.Event<C, T, H>)
    ensures S.Run(s, [e]) == S.Step(s, e)
  {
    assert [e][1..] == [];
    assert S.Run(s, [e]) == S.Run(S.Step(s, e), []);
  }

  lemma Opens(addr: seq<byte>, k: nat)
    ensures var s := Opening(addr, k);
      && S.Inv(s) && s.gate.count == 2 && Waits(s.gate, 0, k, 513) && s.gate.clients[0].addr == addr
      && k in s.gate.group && 1 in s.gate.group[k] && s.gate.group[k][1] == 0
      && 0 in s.gate.trans && s.gate.trans[0] == G.Tran(k, 1, true, [])
  {
    var es: seq<S.Event<nat, nat, nat>> := [S.Accepted(0, addr), S.Verified(0), S.Connected(0, 0, 1)];
    var s0 := S.Init<nat, nat, nat>(1, map[0 := k]);
    var s1 := S.Step(s0, es[0]);
    var s2 := S.Step(s1, es[1]);
    RunThree(s0, es[0], es[1], es[2]);
    assert s1.gate.clients[0] == G.Client(257, addr, map[], false, true) && s1.gate.count == 1;
    assert s2.gate.clients[0] == G.Client(513, addr, map[], true, true) && s2.gate.count == 2;
    EveryRunIsSafe<nat, nat, nat>(1, map[0 := k], es);
  }

  /** What the run comes to when the client sends a message to that type, and that step is the only one. */
  predicate Sends(s: S.System<nat, nat, nat>, first: S.Event<nat, nat, nat>, x: nat, addr: seq<byte>) {
    && first.Sent? && first.c == 0 && first.msgid != 0 && first.pick == 1
    && var r := S.Run(s, [] + [first] + []);
       && r.gate.count == 2 && 0 in r.gate.trans
       && r.gate.trans[0].sent == [Link(x, addr), Data(x, first.payload)]
  }

  lemma OpeningSends(addr: seq<byte>, k: nat, msgid: nat, payload: seq<byte>)
    requires msgid != 0
    ensures Sends(Opening(addr, k), S.Sent(0, k, msgid, payload, 1), 513, addr)
  {
    var s, first := Opening(addr, k), S.Sent(0, k, msgid, payload, 1);
    Opens(addr, k);
    assert [] + [first] + [] == [first];
    RunOne(s, first);
  }

  lemma NothingElse(s: S.System<nat, nat, nat>, first: S.Event<nat, nat, nat>)
    requires first.Sent? && first.c == 0
    ensures S.Run(s, []) == s && NotYet<nat, nat, nat>([], 0, first.server) && Undisturbed<nat, nat, nat>([], 0, 0)
    ensures FromClient([] + [first] + [], 0) == [ClientMessage(first.server, first.msgid, first.payload)]
  {
    assert [] + [first] + [] == [first] && [first][1..] == [];
  }

  lemma OneIsSendable(x: nat, addr: seq<byte>, m: R.Upward)
    requires IsU32(x) && m.Valid() && |m.body| <= R.MAX_BODY && |addr| <= W.MAX_ADDRESS
    ensures W.AllSendable([Link(x, addr), Data(x, PackPackage(m.msgId, m.body))])
  {
  }

  lemma OneIsExpected(x: nat, m: R.Upward)
    requires m.msgId != 0
    ensures R.Expected(x, m.server, [m]) == [ServerPacket(x, R.CLIENT, m.msgId, m.body)]
  {
    assert [m][1..] == [];
  }

  /** Its first message of that type is written behind the link, and reaches the cluster in one chunk. */
  lemma OneMessageArrives(addr: seq<byte>, m: R.Upward)
    requires m.Valid() && m.msgId != 0 && |m.body| <= R.MAX_BODY && |addr| <= W.MAX_ADDRESS
    ensures var s := Opening(addr, m.server);
      && S.Inv(s) && Waits(s.gate, 0, m.server, 513)
      && Sends(s, S.Sent(0, m.server, m.msgId, PackPackage(m.msgId, m.body), 1), 513, addr)
    ensures var msgs := [Link(513, addr), Data(513, PackPackage(m.msgId, m.body))];
      && W.Written(msgs).Ok?
      && DataPackets(ServerViews(Process([Arrival(W.Written(msgs).value, true)], []).frames), 513)
           == [ServerPacket(513, R.CLIENT, m.msgId, m.body)]
  {
    Opens(addr, m.server);
    OpeningSends(addr, m.server, m.msgId, PackPackage(m.msgId, m.body));
    OneArrives(Opening(addr, m.server), 513, addr, m);
  }

  lemma OneArrives(s: S.System<nat, nat, nat>, x: nat, addr: seq<byte>, m: R.Upward)
    requires IsU32(x) && m.Valid() && m.msgId != 0 && |m.body| <= R.MAX_BODY && |addr| <= W.MAX_ADDRESS
    requires S.Inv(s) && Waits(s.gate, 0, m.server, x)
    requires m.server in s.gate.group && 1 in s.gate.group[m.server] && s.gate.group[m.server][1] == 0
    requires Sends(s, S.Sent(0, m.server, m.msgId, PackPackage(m.msgId, m.body), 1), x, addr)
    ensures var msgs := [Link(x, addr), Data(x, PackPackage(m.msgId, m.body))];
      && W.Written(msgs).Ok?
      && DataPackets(ServerViews(Process([Arrival(W.Written(msgs).value, true)], []).frames), x)
           == [ServerPacket(x, R.CLIENT, m.msgId, m.body)]
  {
    var first := S.Sent(0, m.server, m.msgId, PackPackage(m.msgId, m.body), 1);
    var msgs := [Link(x, addr), Data(x, first.payload)];
    var wire := PackClient(m.server, m.msgId, m.body);
    OneIsSendable(x, addr, m);
    OneIsFed(msgs);
    OneIsPopped(m, wire);
    OneIsExpected(x, m);
    NothingElse(s, first);
    var evs := [Arrival(W.Written(msgs).value, true)];
    UpstreamIsTransparent(s, [], first, [], x, 0, [m], [Binary(wire)], [], evs, []);
  }

  lemma OneIsFed(msgs: seq<Msg>)
    requires W.AllSendable(msgs) && msgs != []
    ensures W.Written(msgs).Ok?
    ensures var evs := [Arrival(W.Written(msgs).value, true)];
      Arrived(evs) + [] == W.Written(msgs).value && Fed(W.FramesOf(msgs), evs, 0)
  {
    var fs := W.FramesOf(msgs);
    W.StreamOfFrames(msgs);
    var s := W.Written(msgs).value;
    var evs := [Arrival(s, true)];
    assert evs[1..] == [];
    EmptyLeft(s);
    AllCompleted(fs);
    SpanIsLength(fs);
    assert fs[..|fs|] == fs;
    assert |s| >= |Encode(fs[0])|;
  }

  lemma OneIsPopped(m: R.Upward, wire: seq<byte>)
    requires m.Valid() && wire == PackClient(m.server, m.msgId, m.body)
    ensures Concat(R.Binaries([Binary(wire)])) + [] == R.Sent([m])
    ensures AllAligned(R.ClientFrames([m]), R.Binaries([Binary(wire)]), 0)
    ensures ClientRun([Binary(wire)], false).calls
         == [ClientMessage(m.server, m.msgId, PackPackage(m.msgId, m.body))]
  {
    var fs := R.ClientFrames([m]);
    R.ClientsWrite([m]);
    assert [m][1..] == [] && [Binary(wire)][1..] == [] && [wire][1..] == [];
    EmptyLeft(wire);
    assert R.Binaries([Binary(wire)]) == [wire];
    assert Concat([wire]) == wire + Concat([wire][1..]) && R.Sent([m]) == wire + R.Sent([m][1..]);
    AllCompleted(fs);
    SpanIsLength(fs);
    assert fs[..|fs|] == fs;
    R.GateReceives([m], [Binary(wire)], []);
  }
}
