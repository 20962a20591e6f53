/**
 Messages relayed by a gate, end to end over the bytes.

 Up: `PackClient` at the client, `PopClientData` and `PackData` at the gate, `PopServerGroup` at the cluster.
 Down: `PackPackage` and `PackData` at the cluster, `PopTranGroup` and `PackClientData` at the gate,
 `PopClientGroup` at the client.
 */
module Relays {
  import opened Bytes
  import opened Seqs
  import opened Wire
  import opened Buffers
  import opened Streams
  import opened Links
  import opened Packages

  const CLIENT := 0
  const SERVER := 1

  /** What fits in a frame between servers after the message id. */
  const MAX_BODY := 32757

  /** What fits in a frame the gate decodes. */
  const MAX_CLIENT_BODY := 32761

  // ---- Up ----

  datatype Upward = Upward(server: nat, msgId: nat, body: seq<byte>) {
    predicate Valid() {
      IsU16(server) && IsU16(msgId) && |body| <= MAX_CLIENT_BODY
    }
  }

  /** The bytes a client writes. */
  function Sent(ms: seq<Upward>): seq<byte> {
    if ms == [] then [] else PackClient(ms[0].server, ms[0].msgId, ms[0].body) + Sent(ms[1..])
  }

  /** What the cluster behind `server` should receive; a message with id 0 is a heartbeat, which goes no further. */
  function Expected(session: nat, server: nat, ms: seq<Upward>): seq<ServerPacket> {
    if ms == [] then []
    else (if ms[0].msgId == 0 || ms[0].server != server then []
          else [ServerPacket(session, CLIENT, ms[0].msgId, ms[0].body)]) + Expected(session, server, ms[1..])
  }

  function Messages(ms: seq<Upward>): seq<ClientMessage> {
    if ms == [] then []
    else [ClientMessage(ms[0].server, ms[0].msgId, PackPackage(ms[0].msgId, ms[0].body))] + Messages(ms[1..])
  }

  function ClientFrames(ms: seq<Upward>): seq<Frame> {
    if ms == [] then [] else [ClientFrame(ms[0].server, ms[0].msgId, ms[0].body)] + ClientFrames(ms[1..])
  }

  /** What `PopClientData` makes of whole frames. */
  function ClientViews(fs: seq<Frame>): (ms: seq<ClientMessage>)
    ensures |ms| == |fs|
  {
    if fs == [] then [] else [ClientMessage(ServerOf(fs[0]), MsgId(fs[0].body, 0), fs[0].body)] + ClientViews(fs[1..])
  }

  /** Every frame has room for a message id. */
  predicate WithIds(fs: seq<Frame>) {
    forall i :: 0 <= i < |fs| ==> |fs[i].body| >= 2
  }

  lemma IdsConcat(fs: seq<Frame>, gs: seq<Frame>)
    requires WithIds(fs + gs)
    ensures WithIds(fs) && WithIds(gs)
  {
    assert forall i :: 0 <= i < |fs| ==> (fs + gs)[i] == fs[i];
    assert forall i :: 0 <= i < |gs| ==> (fs + gs)[|fs| + i] == gs[i];
  }

  lemma {:induction false} ClientsWrite(ms: seq<Upward>)
    requires forall i :: 0 <= i < |ms| ==> ms[i].Valid()
    ensures Sent(ms) == EncodeAll(ClientFrames(ms)) && AllFit(ClientFrames(ms), CLIENT_ONE)
    ensures ClientViews(ClientFrames(ms)) == Messages(ms)
    ensures WithIds(ClientFrames(ms))
  {
    if ms != [] {
      var m := ms[0];
      ClientsWrite(ms[1..]);
      PackClientFrame(m.server, m.msgId, m.body);
      ClientFrameFields(m.server, m.msgId, m.body);
      assert ClientFrames(ms)[1..] == ClientFrames(ms[1..]);
    }
  }

  /** Frames with an id are read for what they are, whatever stands behind them. */
  lemma {:induction false} CutsAreViews(s: seq<byte>, pos: nat)
    requires WithIds(Frames(s, pos, CLIENT_ONE))
    ensures ClientCuts(s, pos) == ClientViews(Frames(s, pos, CLIENT_ONE))
    decreases |s| - pos
  {
    if Whole(s, pos, CLIENT_ONE) {
      var f, fs := FrameAt(s, pos, CLIENT_ONE), Frames(s, Next(s, pos, CLIENT_ONE), CLIENT_ONE);
      var all := Frames(s, pos, CLIENT_ONE);
      assert all == [f] + fs && all[0] == f && all[1..] == fs;
      IdsConcat([f], fs);
      CutsAreViews(s, Next(s, pos, CLIENT_ONE));
      assert MsgId(s, pos + 4) == MsgId(f.body, 0);
    }
  }

  /** The chunks a client's loop drains after the first package. */
  function Binaries(ms: seq<Incoming>): seq<seq<byte>> {
    if ms == [] then [] else (if ms[0].Binary? then [ms[0].data] else []) + Binaries(ms[1..])
  }

  lemma {:induction false} ClientViewsConcat(fs: seq<Frame>, gs: seq<Frame>)
    ensures ClientViews(fs + gs) == ClientViews(fs) + ClientViews(gs)
  {
    if fs == [] {
      assert fs + gs == gs;
    } else {
      assert (fs + gs)[1..] == fs[1..] + gs;
      ClientViewsConcat(fs[1..], gs);
    }
  }

  /** The loop of a client that has sent its first package is a draining loop. */
  lemma {:induction false} VisitDrains(ms: seq<Incoming>)
    requires WithIds(Receive(Binaries(ms), [], CLIENT_ONE).frames)
    ensures var v, r := ClientRun(ms, false), Receive(Binaries(ms), [], CLIENT_ONE);
      v.alive == r.alive && v.calls == ClientViews(r.frames)
  {
    if ms != [] {
      if ms[0].Text? {
        assert Binaries(ms) == Binaries(ms[1..]);
        VisitDrains(ms[1..]);
      } else {
        var data, more := ms[0].data, Binaries(ms[1..]);
        assert Binaries(ms)[0] == data && Binaries(ms)[1..] == more;
        ReceiveFirst(Binaries(ms), CLIENT_ONE);
        VisitDrainsOne(data, Receive(more, [], CLIENT_ONE).frames, Receive(Binaries(ms), [], CLIENT_ONE).frames);
        if DrainOutcome(data, CLIENT_ONE) == Done {
          VisitDrains(ms[1..]);
        }
      }
    }
  }

  lemma VisitDrainsOne(data: seq<byte>, later: seq<Frame>, all: seq<Frame>)
    requires var fs := Frames(data, 0, CLIENT_ONE);
      all == if DrainOutcome(data, CLIENT_ONE) == Done then fs + later else fs
    requires WithIds(all)
    ensures ClientCuts(data, 0) == ClientViews(Frames(data, 0, CLIENT_ONE))
    ensures DrainOutcome(data, CLIENT_ONE) == Done ==>
      ClientViews(all) == ClientCuts(data, 0) + ClientViews(later) && WithIds(later)
  {
    var fs := Frames(data, 0, CLIENT_ONE);
    if DrainOutcome(data, CLIENT_ONE) == Done {
      IdsConcat(fs, later);
      ClientViewsConcat(fs, later);
    }
    CutsAreViews(data, 0);
  }

  /**
   The gate's loop survives if and only if every websocket message so far ends between two of those its client
   sends, and always passes on a first part of them; once all have come, it has passed on all of them if and only
   if it survives.
   */
  lemma GateReceives(ms: seq<Upward>, incoming: seq<Incoming>, future: seq<byte>)
    requires forall i :: 0 <= i < |ms| ==> ms[i].Valid()
    requires Concat(Binaries(incoming)) + future == Sent(ms)
    ensures var v := ClientRun(incoming, false);
      && (v.alive <==> AllAligned(ClientFrames(ms), Binaries(incoming), 0))
      && v.calls <= Messages(ms)
      && (future == [] ==> (v.calls == Messages(ms) <==> v.alive))
  {
    var fs, chunks := ClientFrames(ms), Binaries(incoming);
    var r := Receive(chunks, [], CLIENT_ONE);
    ClientsWrite(ms);
    DrainingNeedsAlignment(fs, chunks, future, CLIENT_ONE);
    var n := |r.frames|;
    assert fs == r.frames + fs[n..];
    IdsConcat(r.frames, fs[n..]);
    VisitDrains(incoming);
    ClientViewsConcat(r.frames, fs[n..]);
    if future == [] {
      EmptyLeft(Concat(chunks));
      if r.alive {
        EncodeAllAppend(r.frames, fs[n..]);
        assert EncodeAll(fs[n..]) == [];
        assert fs[n..] == [];
      } else {
        MisalignedLoses(fs, chunks, CLIENT_ONE);
      }
    }
  }

  /** That first part is all that is complete up to the websocket message at which the loop ends, if it does. */
  lemma GateReceivesComplete(ms: seq<Upward>, incoming: seq<Incoming>, future: seq<byte>)
    requires forall i :: 0 <= i < |ms| ==> ms[i].Valid()
    requires Concat(Binaries(incoming)) + future == Sent(ms)
    ensures var fs := ClientFrames(ms);
      && |fs| == |Messages(ms)|
      && ClientRun(incoming, false).calls == Messages(ms)[..Completed(fs, Heard(fs, Binaries(incoming), 0))]
  {
    var fs, chunks := ClientFrames(ms), Binaries(incoming);
    var n := Completed(fs, Heard(fs, chunks, 0));
    ClientsWrite(ms);
    DrainingDelivers(fs, chunks, future, CLIENT_ONE);
    assert fs == fs[..n] + fs[n..];
    IdsConcat(fs[..n], fs[n..]);
    VisitDrains(incoming);
    ClientViewsConcat(fs[..n], fs[n..]);
  }

  /**
   A client can get the gate to relay an empty payload: an empty message has no id, so that the gate reads the size
   of the next one for it, which is not 0.
   */
  lemma EmptyMessageIsRelayed(server: nat, m: Upward)
    requires IsU16(server) && m.Valid()
    ensures var s := Put16(0) + Put16(server) + PackClient(m.server, m.msgId, m.body);
      && ClientCuts(s, 0) == [ClientMessage(server, |m.body| + 2, [])] + Messages([m])
      && DrainOutcome(s, CLIENT_ONE) == Done
  {
    var e, wire := Frame(Put16(server), []), PackClient(m.server, m.msgId, m.body);
    var fs := ClientFrames([m]);
    assert [m][1..] == [];
    ClientsWrite([m]);
    EmptyLeft(wire);
    assert Sent([m]) == wire;
    assert Encode(e) == Put16(0) + Put16(server);
    EmptyFrameCut(server, wire, |m.body| + 2);
    CutIsUnique(fs, [], CLIENT_ONE);
    EmptyLeft(EncodeAll(fs));
    CutsAreViews(wire, 0);
    CutStep(e, wire, CLIENT_ONE);
  }

  lemma EmptyFrameCut(server: nat, t: seq<byte>, id: nat)
    requires IsU16(server) && IsU16(id) && |t| >= 2 && U16At(t, 0) == id
    ensures var s := Encode(Frame(Put16(server), [])) + t;
      ClientCuts(s, 0) == [ClientMessage(server, id, [])] + ClientCuts(t, 0)
  {
    var e := Frame(Put16(server), []);
    var s := Encode(e) + t;
    EncodedIsWhole(e, t, CLIENT_ONE);
    Put16Read(server, []);
    EmptyLeft(Put16(server));
    DropPrefix(Encode(e), t);
    SameMsgId(s, 4, t, 0);
    FirstClientCut(s, 4, t);
  }

  /** The gate decodes one message, does not take it for a heartbeat, and the cluster receives it as it was sent. */
  predicate Arrives(session: nat, m: Upward) {
    var s := PackClient(m.server, m.msgId, m.body);
    && PopOutcome(s, CLIENT_ONE) == Done && ClientCut(s, 0).msgId != 0
    && var written := PackData(session, CLIENT, FrameAt(s, 0, CLIENT_ONE).body);
       && written.Ok?
       && ServerViews(Frames(written.value, 0, SERVER_GROUP)) == [ServerPacket(session, CLIENT, m.msgId, m.body)]
  }

  /** Of all messages a client can send, exactly those arrive that are no heartbeats and have up to 32757 bytes. */
  lemma RelayLimitIsExact(session: nat, m: Upward)
    requires IsU32(session) && IsU16(m.server) && IsU16(m.msgId)
    ensures Arrives(session, m) <==> m.msgId != 0 && |m.body| <= MAX_BODY
  {
    var s := PackClient(m.server, m.msgId, m.body);
    PackedId(m.server, m.msgId, m.body);
    if |m.body| <= MAX_BODY {
      var f := ClientFrame(m.server, m.msgId, m.body);
      PackClientFrame(m.server, m.msgId, m.body);
      ClientFrameFields(m.server, m.msgId, m.body);
      EncodedIsWhole(f, [], CLIENT_ONE);
      assert Encode(f) + [] == Encode(f) == s;
      PackageFields(m.msgId, m.body);
      RelayedOne(session, f.body);
      ServerPackageView(session, CLIENT, m.msgId, m.body);
    } else if Arrives(session, m) {
      TooLongIsChanged(session, m);
    }
  }

  lemma PackedId(server: nat, msgid: nat, body: seq<byte>)
    requires IsU16(msgid)
    ensures MsgId(PackClient(server, msgid, body), MSG_CLIENT_LEN) == msgid
  {
    var s := PackClient(server, msgid, body);
    assert s[4] == msgid / 256 && s[5] == msgid % 256;
  }

  lemma RelayedOne(session: nat, buff: seq<byte>)
    requires 2 <= |buff| <= SERVER_ONE.hi && IsU32(session)
    ensures var f := ServerFrame(session, CLIENT, buff);
      PackData(session, CLIENT, buff) == Ok(Encode(f)) && Frames(Encode(f), 0, SERVER_GROUP) == [f]
      && ServerViews([f]) == [ServerView(f)]
  {
    var f := ServerFrame(session, CLIENT, buff);
    PackDataFrame(session, CLIENT, buff);
    CutStep(f, [], SERVER_GROUP);
    assert Encode(f) + [] == Encode(f);
    OneView(f);
  }

  lemma TooLongIsChanged(session: nat, m: Upward)
    requires IsU32(session) && IsU16(m.server) && IsU16(m.msgId) && |m.body| > MAX_BODY
    ensures !Arrives(session, m)
  {
    if Arrives(session, m) {
      var s := PackClient(m.server, m.msgId, m.body);
      var buff := FrameAt(s, 0, CLIENT_ONE).body;
      PoppedLength(m);
      PackDataFrame(session, CLIENT, buff);
      if |buff| >= 2 {
        RelayedOne(session, buff);
      } else {
        ShortFrameIsNotCut(session, buff);
      }
    }
  }

  /** A payload of more than 32767 bytes is announced, and so popped, with a smaller size. */
  lemma PoppedLength(m: Upward)
    requires PopOutcome(PackClient(m.server, m.msgId, m.body), CLIENT_ONE) == Done
    ensures var n := |FrameAt(PackClient(m.server, m.msgId, m.body), 0, CLIENT_ONE).body|;
      n == Int16(|m.body| + 2) && (|m.body| + 2 > MAX_INT16 ==> n < |m.body| + 2)
  {
    var sz, tail := Int16(|m.body| + 2), Put16(m.server) + Put16(m.msgId) + m.body;
    Put16Read(sz, tail);
    assert PackClient(m.server, m.msgId, m.body) == Put16(sz) + tail;
  }

  lemma ShortFrameIsNotCut(session: nat, buff: seq<byte>)
    requires |buff| < 2
    ensures Frames(Encode(ServerFrame(session, CLIENT, buff)), 0, SERVER_GROUP) == []
  {
    var f := ServerFrame(session, CLIENT, buff);
    Put16Read(|buff|, f.head + f.body);
    assert Encode(f) == Put16(|buff|) + (f.head + f.body);
  }

  // ---- Down ----

  datatype Downward = Downward(session: nat, option: nat, msgId: nat, body: seq<byte>) {
    predicate Valid() {
      IsU32(session) && IsU16(option) && IsU16(msgId) && |body| <= MAX_BODY
    }

    function Frame(): Frame {
      ServerFrame(session, option, PackPackage(msgId, body))
    }
  }

  predicate AllDown(ds: seq<Downward>) {
    forall i :: 0 <= i < |ds| ==> ds[i].Valid()
  }

  /** The bytes a cluster writes to a gate. */
  function Answered(ds: seq<Downward>): Result<seq<byte>> {
    if ds == [] then Ok([])
    else
      var packed := PackData(ds[0].session, ds[0].option, PackPackage(ds[0].msgId, ds[0].body));
      var later := Answered(ds[1..]);
      if packed.Ok? && later.Ok? then Ok(packed.value + later.value) else Panic
  }

  /** The bytes the gate writes to the client of `session`; packets for the gate itself are not passed on. */
  function PassedOn(session: nat, pks: seq<ServerPacket>): Result<seq<byte>> {
    if pks == [] then Ok([])
    else
      var later := PassedOn(session, pks[1..]);
      if pks[0].option == SERVER || pks[0].session != session then later
      else
        var packed := PackClientData(session, pks[0].buff);
        if packed.Ok? && later.Ok? then Ok(packed.value + later.value) else Panic
  }

  /** What the client of `session` should receive. */
  function ExpectedReplies(session: nat, ds: seq<Downward>): seq<ClientPacket> {
    if ds == [] then []
    else (if ds[0].option == SERVER || ds[0].session != session then []
          else [ClientPacket(session, (ds[0].msgId / 256 * 16 + ds[0].msgId % 256) % 256,
                             PackPackage(ds[0].msgId, ds[0].body))])
         + ExpectedReplies(session, ds[1..])
  }

  function DownFrames(ds: seq<Downward>): seq<Frame> {
    if ds == [] then [] else [ds[0].Frame()] + DownFrames(ds[1..])
  }

  function ReplyFrames(session: nat, ds: seq<Downward>): seq<Frame> {
    if ds == [] then []
    else (if ds[0].option == SERVER || ds[0].session != session then []
          else [ReplyFrame(session, PackPackage(ds[0].msgId, ds[0].body))]) + ReplyFrames(session, ds[1..])
  }

  lemma {:induction false} ClusterWrites(ds: seq<Downward>)
    requires AllDown(ds)
    ensures Answered(ds) == Ok(EncodeAll(DownFrames(ds))) && AllFit(DownFrames(ds), SERVER_GROUP)
  {
    if ds != [] {
      var d := ds[0];
      ClusterWrites(ds[1..]);
      PackageFields(d.msgId, d.body);
      PackDataFrame(d.session, d.option, PackPackage(d.msgId, d.body));
      assert DownFrames(ds)[1..] == DownFrames(ds[1..]);
    }
  }

  lemma {:induction false} RepliesFit(session: nat, ds: seq<Downward>)
    requires AllDown(ds)
    ensures AllFit(ReplyFrames(session, ds), REPLY_GROUP)
  {
    if ds != [] {
      RepliesFit(session, ds[1..]);
      var rs := ReplyFrames(session, ds);
      if ds[0].option != SERVER && ds[0].session == session {
        assert rs[1..] == ReplyFrames(session, ds[1..]);
      } else {
        assert rs == ReplyFrames(session, ds[1..]);
      }
    }
  }

  lemma DownView(d: Downward, fs: seq<Frame>)
    requires d.Valid()
    ensures TranViews([d.Frame()] + fs) == [TranView(d.Frame())] + TranViews(fs)
    ensures var pk := TranView(d.Frame());
      pk.session == d.session && pk.option == d.option && pk.buff == PackPackage(d.msgId, d.body)
  {
    ServerFrameFields(d.session, d.option, PackPackage(d.msgId, d.body));
    ViewsConcat([d.Frame()], fs);
    OneView(d.Frame());
  }

  lemma PassStep(session: nat, pk: ServerPacket, pks: seq<ServerPacket>)
    requires |pk.buff| <= SERVER_ONE.hi && PassedOn(session, pks).Ok?
    ensures var later := PassedOn(session, pks).value;
      PassedOn(session, [pk] + pks) == Ok(
        if pk.option == SERVER || pk.session != session then later else Encode(ReplyFrame(session, pk.buff)) + later)
  {
    assert ([pk] + pks)[1..] == pks;
    PackClientDataFrame(session, pk.buff);
  }

  lemma {:induction false} GatePassesOn(session: nat, ds: seq<Downward>)
    requires IsU32(session) && AllDown(ds)
    ensures PassedOn(session, TranViews(DownFrames(ds))) == Ok(EncodeAll(ReplyFrames(session, ds)))
  {
    if ds != [] {
      var d, fs := ds[0], DownFrames(ds[1..]);
      GatePassesOn(session, ds[1..]);
      DownView(d, fs);
      PassStep(session, TranView(d.Frame()), TranViews(fs));
      var rs := ReplyFrames(session, ds);
      if d.option != SERVER && d.session == session {
        assert rs[1..] == ReplyFrames(session, ds[1..]);
      } else {
        assert rs == ReplyFrames(session, ds[1..]);
      }
    }
  }

  lemma OneReply(session: nat, d: Downward)
    requires IsU32(session) && d.Valid()
    ensures var p := PackPackage(d.msgId, d.body);
      ReplyViews([ReplyFrame(session, p)]) == [ClientPacket(session, (d.msgId / 256 * 16 + d.msgId % 256) % 256, p)]
  {
    var p := PackPackage(d.msgId, d.body);
    ReplyFrameFields(session, p);
    ShortIdOfPackage(session, 0, d.msgId, d.body);
    OneView(ReplyFrame(session, p));
  }

  lemma NextReply(session: nat, d: Downward, fs: seq<Frame>, more: seq<ClientPacket>)
    requires IsU32(session) && d.Valid() && ReplyViews(fs) == more
    ensures var p := PackPackage(d.msgId, d.body);
      ReplyViews([ReplyFrame(session, p)] + fs)
        == [ClientPacket(session, (d.msgId / 256 * 16 + d.msgId % 256) % 256, p)] + more
  {
    OneReply(session, d);
    ViewsConcat([ReplyFrame(session, PackPackage(d.msgId, d.body))], fs);
  }

  lemma {:induction false} RepliesViewed(session: nat, ds: seq<Downward>)
    requires IsU32(session) && AllDown(ds)
    ensures ReplyViews(ReplyFrames(session, ds)) == ExpectedReplies(session, ds)
  {
    if ds != [] {
      var fs, more := ReplyFrames(session, ds[1..]), ExpectedReplies(session, ds[1..]);
      RepliesViewed(session, ds[1..]);
      if ds[0].option != SERVER && ds[0].session == session {
        NextReply(session, ds[0], fs, more);
      } else {
        EmptyLeft(fs);
        EmptyLeft(more);
      }
    }
  }

  lemma {:induction false} DownFramesPrefix(ds: seq<Downward>, n: nat)
    requires n <= |ds|
    ensures |DownFrames(ds)| == |ds| && DownFrames(ds)[..n] == DownFrames(ds[..n])
  {
    if ds != [] {
      DownFramesPrefix(ds[1..], if n == 0 then 0 else n - 1);
      if n > 0 {
        assert ds[..n][1..] == ds[1..][..n - 1];
      }
    }
  }

  /** What the gate passes on for `ds`, the client decodes as just the payloads for its session. */
  lemma RepliesArrive(session: nat, ds: seq<Downward>)
    requires IsU32(session) && AllDown(ds)
    ensures var written := PassedOn(session, TranViews(DownFrames(ds)));
      && written.Ok?
      && ReplyViews(Frames(written.value, 0, REPLY_GROUP)) == ExpectedReplies(session, ds)
      && ReplyOutcome(written.value) == Done && Rest(written.value, REPLY_GROUP) == []
  {
    GatePassesOn(session, ds);
    RepliesFit(session, ds);
    RepliesViewed(session, ds);
    var rs := ReplyFrames(session, ds);
    CutIsUnique(rs, [], REPLY_GROUP);
    assert EncodeAll(rs) + [] == EncodeAll(rs);
  }

  /**
   However a cluster's bytes for all the clients of a gate are cut and batched, as long as every pop of the gate
   finds 8 bytes, each client receives exactly the payloads for its session, in order and byte for byte, and after
   a last pop all those that are complete. Of the message id only the payload is reliable: the packet's own id is
   right below 256 only.
   */
  lemma DownstreamIsTransparent(session: nat, ds: seq<Downward>, evs: seq<Arrival>, future: seq<byte>)
    requires IsU32(session) && AllDown(ds)
    requires Answered(ds).Ok? ==> Arrived(evs) + future == Answered(ds).value
    ensures Answered(ds).Ok?
    ensures var r := Process(evs, []);
      && (r.alive <==> Fed(DownFrames(ds), evs, 0))
      && (r.alive && evs != [] && evs[|evs| - 1].pop ==> |r.frames| == Completed(DownFrames(ds), |Arrived(evs)|))
      && |r.frames| <= |ds|
      && var written := PassedOn(session, TranViews(r.frames));
         && written.Ok?
         && ReplyViews(Frames(written.value, 0, REPLY_GROUP)) == ExpectedReplies(session, ds[..|r.frames|])
         && ReplyOutcome(written.value) == Done && Rest(written.value, REPLY_GROUP) == []
  {
    ClusterWrites(ds);
    var fs, r := DownFrames(ds), Process(evs, []);
    ChunkingIsTransparent(fs, evs, future);
    DownFramesPrefix(ds, |ds|);
    DownFramesPrefix(ds, |r.frames|);
    assert fs[..|r.frames|] == r.frames;
    RepliesArrive(session, ds[..|r.frames|]);
  }
}
