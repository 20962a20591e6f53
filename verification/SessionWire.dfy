/**
 The session protocol over the wire: what a gate writes for its messages, and what a cluster makes of it.
 The data of a client message starts with its 16-bit id, which the cluster's decoder takes off.
 */
module SessionWire {
  import opened Bytes
  import opened Seqs
  import opened Wire
  import opened Buffers
  import opened Streams
  import opened Links
  import opened Packages
  import opened Relays
  import opened Packers
  import opened Protocol

  const CLIENT_LINK := 4
  const CLIENT_BREAK := 5

  /** `message.GateUserIP`: the session, and the address as a string. */
  const USER_IP: seq<Type> := [TInt(4, false), TString]

  function UserIP(session: nat, addr: seq<byte>): seq<Value> {
    [VInt(session), VString(addr)]
  }

  /** Bytes of an address that leave room for the rest of the link in a frame. */
  const MAX_ADDRESS := 32751

  predicate Sendable(m: Msg) {
    && IsU32(m.session)
    && match m
       case Link(_, addr) => |addr| <= MAX_ADDRESS
       case Data(_, payload) => 2 <= |payload| <= SERVER_ONE.hi
       case Break(_) => true
  }

  lemma UserIPTypes(session: nat, addr: seq<byte>)
    requires IsU32(session)
    ensures HaveTypes(UserIP(session, addr), USER_IP) && Portable(USER_IP)
    ensures FaithfulMessage(UserIP(session, addr), USER_IP) <==> |addr| <= MAX_INT16
    ensures PackMessage(UserIP(session, addr), USER_IP) == Ok(BigEndian(session, 4) + (Put16(|addr|) + addr))
  {
    Widths();
    var vs, ts := UserIP(session, addr), USER_IP;
    assert vs[1..] == [VString(addr)] && ts[1..] == [TString];
    assert vs[1..][1..] == [] && ts[1..][1..] == [];
    assert Put16(|addr|) + addr + [] == Put16(|addr|) + addr;
    assert PackMessage(vs[1..], ts[1..]) == Ok(Put16(|addr|) + addr);
    assert FaithfulMessage(vs[1..], ts[1..]) <==> |addr| <= MAX_INT16;
  }

  /** The payload of the frame a message is sent in, and the frame's option. */
  function Payload(m: Msg): seq<byte> {
    match m
    case Link(x, addr) => PackPackage(CLIENT_LINK, BigEndian(x, 4) + (Put16(|addr|) + addr))
    case Data(_, payload) => payload
    case Break(_) => PackPackage(CLIENT_BREAK, [])
  }

  function OptionFor(m: Msg): nat {
    if m.Data? then CLIENT else SERVER
  }

  /** `TranConn.Send`. */
  function Written(msgs: seq<Msg>): Result<seq<byte>> {
    if msgs == [] then Ok([])
    else Join(PackData(msgs[0].session, OptionFor(msgs[0]), Payload(msgs[0])), Written(msgs[1..]))
  }

  /** `Cluster.OnClientMessage`: what a packet is to the cluster, if anything. */
  datatype Received = Message(m: Msg) | Ignored | Crashed

  function Understand(pk: ServerPacket): Received {
    if pk.option != SERVER then Message(Data(pk.session, PackPackage(pk.msgId, pk.buff)))
    else if pk.msgId == CLIENT_LINK then
      var r := ParseFields(USER_IP, pk.buff);
      if r.Ok? && |r.value.value| == 2 && r.value.value[1].VString? then
        Message(Link(pk.session, r.value.value[1].text))
      else Crashed
    else if pk.msgId == CLIENT_BREAK then Message(Break(pk.session))
    else Ignored
  }

  /** The option and the payload of each kind of message, byte by byte. */
  lemma MessageBytes(m: Msg)
    requires IsU32(m.session)
    ensures m.Data? ==> OptionFor(m) == 0 && Payload(m) == m.payload
    ensures m.Break? ==> OptionFor(m) == 1 && Payload(m) == [0, 5]
    ensures m.Link? && |m.addr| < 65536 ==>
      var p := Payload(m);
      && OptionFor(m) == 1 && |p| == 8 + |m.addr| && p[..2] == [0, 4]
      && p[2] as int * 0x100_0000 + p[3] as int * 0x1_0000 + p[4] as int * 0x100 + p[5] as int == m.session
      && p[6] as int * 0x100 + p[7] as int == |m.addr| && p[8..] == m.addr
  {
    if m.Link? {
      Int4Bytes(m.session);
    }
  }

  lemma Int4Bytes(n: nat)
    requires IsU32(n)
    ensures var s := BigEndian(n, 4);
      s[0] as int * 0x100_0000 + s[1] as int * 0x1_0000 + s[2] as int * 0x100 + s[3] as int == n
  {
    var a, b, c := n / 256, n / 256 / 256, n / 256 / 256 / 256;
    assert BigEndian(c, 1) == [c % 256];
    assert BigEndian(b, 2) == [c % 256, b % 256];
    assert BigEndian(a, 3) == [c % 256, b % 256, a % 256];
    assert BigEndian(n, 4) == [c % 256, b % 256, a % 256, n % 256];
  }

  /** Packets without the option for servers are data, whatever their id; of the others two ids matter. */
  lemma PacketKinds(pk: ServerPacket)
    requires IsU16(pk.msgId)
    ensures pk.option != 1 ==> Understand(pk) == Message(Data(pk.session, [pk.msgId / 256, pk.msgId % 256] + pk.buff))
    ensures pk.option == 1 && pk.msgId == 5 ==> Understand(pk) == Message(Break(pk.session))
    ensures pk.option == 1 && pk.msgId != 4 && pk.msgId != 5 ==> Understand(pk) == Ignored
  {
  }

  /** A link of any bytes panics exactly at a negative size; what is missing of its address is filled up with zeros. */
  lemma AnyLink(pk: ServerPacket)
    requires pk.option == 1 && pk.msgId == 4
    ensures Understand(pk) == Crashed <==> |pk.buff| >= 6 && pk.buff[4] as int >= 128
    ensures |pk.buff| < 6 ==> Understand(pk) == Message(Link(pk.session, []))
    ensures |pk.buff| >= 6 && pk.buff[4] as int < 128 ==>
      var size := pk.buff[4] as int * 256 + pk.buff[5] as int;
      Understand(pk) ==
        Message(Link(pk.session, if 6 + size <= |pk.buff| then pk.buff[6..6 + size] else Zeros(size)))
  {
    var s, rest := pk.buff, Packers.After(pk.buff, 4);
    var n := if 4 <= |s| then Decode(s[..4]) else 0;
    assert USER_IP[1..] == [TString] && [TString][1..] == [];
    assert Parse(USER_IP[0], s) == Ok(Read(VInt(n), rest));
    AnyText(rest);
    var text := Parse(TString, rest);
    assert ParseFields([TString], rest) ==
      if text.Panic? then Panic else Prepend(text.value.value, Ok(Read([], text.value.rest)));
    assert ParseFields(USER_IP, s) == Prepend(VInt(n), ParseFields([TString], rest));
    if |s| >= 6 && s[4] as int < 128 {
      var size := s[4] as int * 256 + s[5] as int;
      SomeText(s, size);
    }
  }

  lemma AnyText(s: seq<byte>)
    ensures var r := Parse(TString, s);
      if |s| < 2 then r == Ok(Read(VString([]), []))
      else if s[0] as int >= 128 then r == Panic
      else
        var size, rest := s[0] as int * 256 + s[1] as int, s[2..];
        r.Ok? && r.value.value == VString(if size <= |rest| then rest[..size] else Zeros(size))
  {
  }

  lemma SomeText(s: seq<byte>, size: nat)
    requires |s| >= 6
    ensures |s[4..][2..]| == |s| - 6
    ensures 6 + size <= |s| ==> s[4..][2..][..size] == s[6..6 + size]
  {
  }

  function FrameOf(m: Msg): Frame {
    ServerFrame(m.session, OptionFor(m), Payload(m))
  }

  lemma UserIPSurvives(x: nat, addr: seq<byte>)
    requires IsU32(x) && |addr| <= MAX_ADDRESS
    ensures ParseFields(USER_IP, BigEndian(x, 4) + (Put16(|addr|) + addr)) == Ok(Read(UserIP(x, addr), []))
  {
    var text := BigEndian(x, 4) + (Put16(|addr|) + addr);
    UserIPTypes(x, addr);
    MessageRoundTrip(UserIP(x, addr), USER_IP, []);
    assert text + [] == text;
  }

  lemma LinkPacket(x: nat, addr: seq<byte>)
    requires Sendable(Link(x, addr))
    ensures |Payload(Link(x, addr))| == |addr| + 8
    ensures ServerView(FrameOf(Link(x, addr))) ==
      ServerPacket(x, SERVER, CLIENT_LINK, BigEndian(x, 4) + (Put16(|addr|) + addr))
  {
    ServerPackageView(x, SERVER, CLIENT_LINK, BigEndian(x, 4) + (Put16(|addr|) + addr));
  }

  lemma LinkSurvives(x: nat, addr: seq<byte>)
    requires Sendable(Link(x, addr))
    ensures Understand(ServerView(FrameOf(Link(x, addr)))) == Message(Link(x, addr))
  {
    LinkPacket(x, addr);
    UserIPSurvives(x, addr);
  }

  lemma DataSurvives(x: nat, payload: seq<byte>)
    requires Sendable(Data(x, payload))
    ensures Understand(ServerView(FrameOf(Data(x, payload)))) == Message(Data(x, payload))
  {
    ServerFrameFields(x, CLIENT, payload);
    assert PackPackage(MsgId(payload, 0), payload[2..]) == payload by {
      Put16Of(payload, 0);
      assert payload[0..2] + payload[2..] == payload;
    }
  }

  lemma BreakSurvives(x: nat)
    requires Sendable(Break(x))
    ensures |Payload(Break(x))| == 2
    ensures Understand(ServerView(FrameOf(Break(x)))) == Message(Break(x))
  {
    ServerPackageView(x, SERVER, CLIENT_BREAK, []);
  }

  /** Each message is received as it was sent. */
  lemma MessageSurvives(m: Msg)
    requires Sendable(m)
    ensures Fits(FrameOf(m), SERVER_GROUP) && |Payload(m)| <= SERVER_ONE.hi
    ensures Understand(ServerView(FrameOf(m))) == Message(m)
  {
    match m
    case Link(x, addr) =>
      LinkPacket(x, addr);
      LinkSurvives(x, addr);
    case Data(x, payload) => DataSurvives(x, payload);
    case Break(x) => BreakSurvives(x);
  }

  // ---- Other messages do not survive ----

  lemma ParsedAddress(s: seq<byte>)
    ensures var r := ParseFields(USER_IP, s);
      r.Ok? && |r.value.value| == 2 && r.value.value[1].VString? ==> |r.value.value[1].text| <= MAX_INT16
  {
    var rest := Packers.After(s, 4);
    assert USER_IP[1..] == [TString];
    assert ParseFields(USER_IP, s) == Prepend(Parse(USER_IP[0], s).value.value, ParseFields([TString], rest));
    assert [TString][1..] == [];
    if Parse(TString, rest).Ok? {
      ParsedText(rest);
      var t := Parse(TString, rest).value;
      assert ParseFields([TString], rest) == Prepend(t.value, Ok(Read([], t.rest)));
    }
  }

  lemma ParsedText(s: seq<byte>)
    ensures var r := Parse(TString, s); r.Ok? ==> r.value.value.VString? && |r.value.value.text| <= MAX_INT16
  {
  }

  lemma DecodedLength(f: Frame, later: seq<byte>)
    requires |f.head| == SERVER_GROUP.head && Whole(Encode(f) + later, 0, SERVER_GROUP)
    ensures |FrameAt(Encode(f) + later, 0, SERVER_GROUP).body| == Int16(|f.body|) >= 2
  {
    Put16Read(|f.body|, f.head + f.body + later);
    assert Encode(f) + later == Put16(|f.body|) + (f.head + f.body + later);
  }

  lemma DataLength(f: Frame, x: nat, payload: seq<byte>)
    requires |f.body| >= 2 && Understand(ServerView(f)) == Message(Data(x, payload))
    ensures |payload| == |f.body|
  {
  }

  lemma AddressLength(pk: ServerPacket, x: nat, addr: seq<byte>)
    requires Understand(pk) == Message(Link(x, addr))
    ensures |addr| <= MAX_INT16
  {
    ParsedAddress(pk.buff);
  }

  /** What is read first from the bytes written for a message that is too long or too short is another message. */
  lemma OthersAreChanged(m: Msg, later: seq<byte>)
    requires IsU32(m.session) && !Sendable(m) && PackData(m.session, OptionFor(m), Payload(m)).Ok?
    ensures var s := Encode(FrameOf(m)) + later;
      Whole(s, 0, SERVER_GROUP) ==> Understand(ServerView(FrameAt(s, 0, SERVER_GROUP))) != Message(m)
  {
    var s := Encode(FrameOf(m)) + later;
    PackDataFrame(m.session, OptionFor(m), Payload(m));
    if Whole(s, 0, SERVER_GROUP) {
      var f := FrameAt(s, 0, SERVER_GROUP);
      DecodedLength(FrameOf(m), later);
      if Understand(ServerView(f)) == Message(m) {
        NotBoth(m, f);
      }
    }
  }

  lemma NotBoth(m: Msg, f: Frame)
    requires |f.body| == Int16(|Payload(m)|) >= 2 && Understand(ServerView(f)) == Message(m)
    requires |Payload(m)| % 65536 <= SERVER_ONE.hi || |Payload(m)| % 65536 >= 65528
    requires IsU32(m.session)
    ensures Sendable(m)
  {
    match m
    case Data(x, payload) => DataLength(f, x, payload);
    case Link(x, addr) =>
      AddressLength(ServerView(f), x, addr);
      assert |Payload(m)| == |addr| + 8;
    case Break(_) =>
  }

  /** The first packet the cluster decodes from the bytes written for a message is understood as that message. */
  predicate ArrivesAsSent(m: Msg) {
    var written := PackData(m.session, OptionFor(m), Payload(m));
    && written.Ok? && Whole(written.value, 0, SERVER_GROUP)
    && Understand(ServerView(FrameAt(written.value, 0, SERVER_GROUP))) == Message(m)
  }

  /** A link arrives up to 32751 bytes of address, data from 2 to 32759 bytes, and a break always; others do not. */
  lemma MessageIsExact(m: Msg)
    requires IsU32(m.session)
    ensures ArrivesAsSent(m) <==> Sendable(m)
  {
    PackDataFrame(m.session, OptionFor(m), Payload(m));
    var s := Encode(FrameOf(m));
    assert s + [] == s;
    if Sendable(m) {
      MessageSurvives(m);
      EncodedIsWhole(FrameOf(m), [], SERVER_GROUP);
    } else if PackData(m.session, OptionFor(m), Payload(m)).Ok? {
      OthersAreChanged(m, []);
    }
  }

  // ---- Streams of messages ----

  function FramesOf(msgs: seq<Msg>): seq<Frame> {
    if msgs == [] then [] else [FrameOf(msgs[0])] + FramesOf(msgs[1..])
  }

  /** The cluster receives just these messages. */
  predicate ReceivesExactly(pks: seq<ServerPacket>, msgs: seq<Msg>) {
    |pks| == |msgs| && forall i :: 0 <= i < |msgs| ==> Understand(pks[i]) == Message(msgs[i])
  }

  predicate AllSendable(msgs: seq<Msg>) {
    forall i :: 0 <= i < |msgs| ==> Sendable(msgs[i])
  }

  /** The bytes written are those of the frames, and messages that can be sent are decoded from them. */
  predicate IsStream(msgs: seq<Msg>) {
    && (Written(msgs).Ok? ==> Written(msgs).value == EncodeAll(FramesOf(msgs)))
    && (AllSendable(msgs) ==>
          && Written(msgs).Ok? && AllFit(FramesOf(msgs), SERVER_GROUP)
          && ReceivesExactly(ServerViews(FramesOf(msgs)), msgs))
  }

  lemma ReceivesMore(pk: ServerPacket, pks: seq<ServerPacket>, m: Msg, msgs: seq<Msg>)
    requires Understand(pk) == Message(m) && ReceivesExactly(pks, msgs)
    ensures ReceivesExactly([pk] + pks, [m] + msgs)
  {
  }

  lemma SendableAfter(m: Msg, msgs: seq<Msg>)
    ensures AllSendable([m] + msgs) <==> Sendable(m) && AllSendable(msgs)
  {
    assert ([m] + msgs)[0] == m && forall i :: 0 <= i < |msgs| ==> ([m] + msgs)[i + 1] == msgs[i];
  }

  lemma FitsAfter(f: Frame, fs: seq<Frame>)
    requires Fits(f, SERVER_GROUP) && AllFit(fs, SERVER_GROUP)
    ensures AllFit([f] + fs, SERVER_GROUP)
  {
  }

  lemma StreamGrows(m: Msg, msgs: seq<Msg>)
    requires IsStream(msgs)
    ensures IsStream([m] + msgs)
  {
    var f, fs := FrameOf(m), FramesOf(msgs);
    HeadTail(m, msgs);
    HeadTail(f, fs);
    PackDataFrame(m.session, OptionFor(m), Payload(m));
    SendableAfter(m, msgs);
    if AllSendable([m] + msgs) {
      MessageSurvives(m);
      FitsAfter(f, fs);
      ViewsConcat([f], fs);
      OneView(f);
      ReceivesMore(ServerView(f), ServerViews(fs), m, msgs);
    }
  }

  lemma {:induction false} StreamOfFrames(msgs: seq<Msg>)
    ensures IsStream(msgs)
  {
    if msgs != [] {
      StreamOfFrames(msgs[1..]);
      StreamGrows(msgs[0], msgs[1..]);
      assert [msgs[0]] + msgs[1..] == msgs;
    }
  }

  /** The first frame of the stream, whatever the message. */
  lemma StreamSplits(msgs: seq<Msg>)
    requires msgs != [] && Written(msgs).Ok?
    ensures var m := msgs[0];
      && PackData(m.session, OptionFor(m), Payload(m)).Ok? && Written(msgs[1..]).Ok?
      && Written(msgs).value == Encode(FrameOf(m)) + Written(msgs[1..]).value
  {
    PackDataFrame(msgs[0].session, OptionFor(msgs[0]), Payload(msgs[0]));
  }

  lemma ReceivesRest(pks: seq<ServerPacket>, msgs: seq<Msg>)
    requires ReceivesExactly(pks, msgs) && msgs != []
    ensures Understand(pks[0]) == Message(msgs[0]) && ReceivesExactly(pks[1..], msgs[1..])
  {
  }

  lemma SendableFrom(msgs: seq<Msg>)
    requires msgs != []
    ensures AllSendable(msgs) <==> Sendable(msgs[0]) && AllSendable(msgs[1..])
  {
    SendableAfter(msgs[0], msgs[1..]);
    assert [msgs[0]] + msgs[1..] == msgs;
  }

  /** Frames at the front of the stream that are understood as the messages. */
  predicate FramesFor(msgs: seq<Msg>, fs: seq<Frame>, left: seq<byte>) {
    && Written(msgs).Ok? && EncodeAll(fs) + left == Written(msgs).value && AllFit(fs, SERVER_GROUP)
    && ReceivesExactly(ServerViews(fs), msgs)
  }

  lemma FirstFits(msgs: seq<Msg>, fs: seq<Frame>, left: seq<byte>)
    requires msgs != [] && IsU32(msgs[0].session) && FramesFor(msgs, fs, left)
    ensures Sendable(msgs[0]) && fs != [] && FramesFor(msgs[1..], fs[1..], left)
  {
    var u, v := EncodeAll(fs[1..]) + left, Written(msgs[1..]).value;
    ServerViewsFirst(fs);
    ReceivesRest(ServerViews(fs), msgs);
    StreamSplits(msgs);
    Assoc(Encode(fs[0]), EncodeAll(fs[1..]), left);
    FirstSendable(msgs[0], fs[0], u, v, Written(msgs).value);
  }

  /** Then the messages can be sent. */
  lemma {:induction false} OnlySendable(msgs: seq<Msg>, fs: seq<Frame>, left: seq<byte>)
    requires FramesFor(msgs, fs, left)
    requires forall i :: 0 <= i < |msgs| ==> IsU32(msgs[i].session)
    ensures AllSendable(msgs)
  {
    if msgs != [] {
      FirstFits(msgs, fs, left);
      OnlySendable(msgs[1..], fs[1..], left);
      SendableFrom(msgs);
    }
  }

  lemma ServerViewsFirst(fs: seq<Frame>)
    requires fs != []
    ensures ServerViews(fs)[0] == ServerView(fs[0]) && ServerViews(fs)[1..] == ServerViews(fs[1..])
  {
    ViewsConcat([fs[0]], fs[1..]);
    assert [fs[0]] + fs[1..] == fs;
    OneView(fs[0]);
  }

  lemma FirstSendable(m: Msg, f: Frame, u: seq<byte>, v: seq<byte>, s: seq<byte>)
    requires IsU32(m.session) && PackData(m.session, OptionFor(m), Payload(m)).Ok?
    requires Fits(f, SERVER_GROUP) && Understand(ServerView(f)) == Message(m)
    requires s == Encode(f) + u == Encode(FrameOf(m)) + v
    ensures Sendable(m) && f == FrameOf(m) && u == v
  {
    EncodedIsWhole(f, u, SERVER_GROUP);
    if !Sendable(m) {
      OthersAreChanged(m, v);
    } else {
      MessageSurvives(m);
      EncodedIsWhole(FrameOf(m), v, SERVER_GROUP);
      CancelLeft(Encode(f), u, v);
    }
  }

  /**
   However the bytes a gate writes are cut into chunks and batched: messages that can be sent are received in
   order, as long as every pop of the cluster finds 8 bytes, and after a last pop all those that are complete.
   When all the bytes are there and popped, exactly the messages are received if and only if they can be sent and
   every pop found 8 bytes.
   */
  lemma SessionsSurviveTheWire(msgs: seq<Msg>, evs: seq<Arrival>, future: seq<byte>)
    requires forall i :: 0 <= i < |msgs| ==> IsU32(msgs[i].session)
    requires Written(msgs).Ok? ==> Arrived(evs) + future == Written(msgs).value
    ensures var r := Process(evs, []);
      AllSendable(msgs) ==>
        && Written(msgs).Ok?
        && (r.alive <==> Fed(FramesOf(msgs), evs, 0))
        && |r.frames| <= |msgs| && ReceivesExactly(ServerViews(r.frames), msgs[..|r.frames|])
        && (r.alive && evs != [] && evs[|evs| - 1].pop ==>
              |r.frames| == Completed(FramesOf(msgs), |Arrived(evs)|))
    ensures var r := Process(evs, []);
      evs != [] && evs[|evs| - 1].pop && future == [] ==>
        (Written(msgs).Ok? && r.alive && ReceivesExactly(ServerViews(r.frames), msgs)
         <==> AllSendable(msgs) && Fed(FramesOf(msgs), evs, 0))
  {
    StreamOfFrames(msgs);
    if AllSendable(msgs) {
      SendableSurvive(msgs, evs, future);
    } else if Written(msgs).Ok? && Process(evs, []).alive && future == [] {
      OthersDoNotSurvive(msgs, evs);
    }
  }

  /**
   Data of fewer than 2 bytes, after messages that can be sent, has ended the cluster's loop once its bytes are there
   and popped, whatever comes behind it; data that is too long for a frame panics before it is written.
   */
  lemma UnfitDataEndsTheLoop(msgs: seq<Msg>, x: nat, payload: seq<byte>, later: seq<byte>, evs: seq<Arrival>)
    requires AllSendable(msgs) && IsU32(x) && |payload| <= CLIENT_ONE.hi && !Sendable(Data(x, payload))
    requires var written := PackData(x, CLIENT, payload);
      Written(msgs).Ok? && written.Ok? ==> Arrived(evs) == Written(msgs).value + (written.value + later)
    requires evs != [] && evs[|evs| - 1].pop
    ensures Written(msgs).Ok?
    ensures |payload| < 2 ==> PackData(x, CLIENT, payload).Ok? && !Process(evs, []).alive
    ensures |payload| >= 2 ==> PackData(x, CLIENT, payload) == Panic
  {
    var m := Data(x, payload);
    StreamOfFrames(msgs);
    PackDataFrame(x, CLIENT, payload);
    if |payload| < 2 {
      ShortFrameIsBad(FrameOf(m), later);
      BadSizeEndsTheLoop(FramesOf(msgs), Encode(FrameOf(m)) + later, evs);
    }
  }

  lemma ShortFrameIsBad(f: Frame, later: seq<byte>)
    requires |f.head| == SERVER_GROUP.head && |f.body| < 2
    ensures var s := Encode(f) + later; !Whole(s, 0, SERVER_GROUP) && !Kept(s)
  {
    Put16Read(|f.body|, f.head + f.body + later);
    assert Encode(f) + later == Put16(|f.body|) + (f.head + f.body + later);
  }

  lemma SendableSurvive(msgs: seq<Msg>, evs: seq<Arrival>, future: seq<byte>)
    requires AllSendable(msgs) && Written(msgs).Ok? && Arrived(evs) + future == Written(msgs).value
    ensures var r := Process(evs, []);
      && (r.alive <==> Fed(FramesOf(msgs), evs, 0))
      && |r.frames| <= |msgs| && ReceivesExactly(ServerViews(r.frames), msgs[..|r.frames|])
      && (r.alive && evs != [] && evs[|evs| - 1].pop ==>
            && |r.frames| == Completed(FramesOf(msgs), |Arrived(evs)|)
            && (future == [] ==> ReceivesExactly(ServerViews(r.frames), msgs)))
  {
    StreamOfFrames(msgs);
    var fs, r := FramesOf(msgs), Process(evs, []);
    ChunkingIsTransparent(fs, evs, future);
    PrefixReceived(msgs, r.frames);
    if r.alive && evs != [] && evs[|evs| - 1].pop && future == [] {
      AllCompleted(fs);
      assert Arrived(evs) + [] == Arrived(evs);
      assert |r.frames| == |fs| == |msgs|;
      assert msgs[..|msgs|] == msgs;
    }
  }

  lemma OthersDoNotSurvive(msgs: seq<Msg>, evs: seq<Arrival>)
    requires forall i :: 0 <= i < |msgs| ==> IsU32(msgs[i].session)
    requires Written(msgs).Ok? && Arrived(evs) == Written(msgs).value && Process(evs, []).alive && !AllSendable(msgs)
    ensures !ReceivesExactly(ServerViews(Process(evs, []).frames), msgs)
  {
    var r := Process(evs, []);
    ProcessConserves(evs, []);
    ProcessFits(evs, []);
    assert [] + Arrived(evs) == Arrived(evs);
    if ReceivesExactly(ServerViews(r.frames), msgs) {
      OnlySendable(msgs, r.frames, r.left);
    }
  }

  lemma PrefixReceived(msgs: seq<Msg>, fs: seq<Frame>)
    requires ReceivesExactly(ServerViews(FramesOf(msgs)), msgs) && fs <= FramesOf(msgs)
    ensures |fs| <= |msgs| && ReceivesExactly(ServerViews(fs), msgs[..|fs|])
  {
    var all, n := FramesOf(msgs), |fs|;
    assert |all| == |msgs|;
    assert fs + all[n..] == all;
    ViewsConcat(fs, all[n..]);
    assert forall i :: 0 <= i < n ==> ServerViews(all)[i] == ServerViews(fs)[i];
  }

  /** A cluster's table of sessions, as the source keeps it. */
  class Cluster<T> {
    var sessions: map<nat, Session<T>>

    constructor ()
      ensures sessions == map[]
    {
      sessions := map[];
    }

    /** With a sink. A packet it does not know changes nothing; one whose link does not parse ends the process. */
    method OnClientMessage(pk: ServerPacket, client: T)
      modifies this
      ensures sessions ==
        match Understand(pk)
        case Message(m) => Apply(old(sessions), m, client)
        case _ => old(sessions)
    {
      if pk.option == SERVER {
        if pk.msgId == CLIENT_LINK {
          var r := ParseFields(USER_IP, pk.buff);
          if r.Ok? && |r.value.value| == 2 && r.value.value[1].VString? {
            sessions := sessions[pk.session := Session(client, r.value.value[1].text)];
          }
        } else if pk.msgId == CLIENT_BREAK {
          sessions := sessions - {pk.session};
        }
      }
    }

    /** The loop over a group of packets leaves the table as the messages replayed on it would. */
    method OnGroup(pks: seq<ServerPacket>, client: T, ghost msgs: seq<Msg>)
      requires ReceivesExactly(pks, msgs)
      modifies this
      ensures sessions == Replay(old(sessions), msgs, client)
    {
      assert msgs[0..] == msgs;
      for i := 0 to |pks|
        invariant Replay(old(sessions), msgs, client) == Replay(sessions, msgs[i..], client)
      {
        assert msgs[i..][1..] == msgs[i + 1..];
        OnClientMessage(pks[i], client);
      }
    }
  }
}
