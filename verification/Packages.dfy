/** The encoders of frames and messages, and what their frames carry. */
module Packages {
  import opened Bytes
  import opened Seqs
  import opened Wire
  import opened Buffers

  predicate IsU16(n: nat) { n < 65536 }
  predicate IsU32(n: nat) { n < 0x1_0000_0000 }

  /** A frame between servers. The capacity `8 + sz`, an int16, must not be negative. */
  function PackData(session: nat, option: int, buff: seq<byte>): Result<seq<byte>> {
    var sz := Int16(|buff|);
    if Int16(8 + sz) < 0 then Panic else Ok(Put16(sz) + Put32(session) + Put16(option) + buff)
  }

  /** A frame from a gate to its client. */
  function PackClientData(session: nat, buff: seq<byte>): Result<seq<byte>> {
    var sz := Int16(|buff|);
    if Int16(6 + sz) < 0 then Panic else Ok(Put16(sz) + Put32(session) + buff)
  }

  /** A message id and its data; `utils.PackMessage` and `message.PackPackage` write the same bytes. */
  function PackPackage(msgid: nat, buff: seq<byte>): seq<byte> {
    Put16(msgid) + buff
  }

  /** A frame from a client to its gate. */
  function PackClient(server: nat, msgid: nat, buff: seq<byte>): seq<byte> {
    Put16(Int16(|buff| + 2)) + Put16(server) + Put16(msgid) + buff
  }

  function ParserPackage(data: seq<byte>): (nat, seq<byte>) {
    if |data| < 4 then (0, []) else (U16At(data, 0), data[4..])
  }

  function ServerFrame(session: nat, option: int, body: seq<byte>): Frame {
    Frame(Put32(session) + Put16(option), body)
  }

  function ClientFrame(server: nat, msgid: nat, body: seq<byte>): Frame {
    Frame(Put16(server), PackPackage(msgid, body))
  }

  function ReplyFrame(session: nat, body: seq<byte>): Frame {
    Frame(Put32(session), body)
  }

  // ---- Encoders write frames, for every length their int16 arithmetic does not panic on ----

  lemma LowByte(n: int)
    ensures n % 65536 % 256 == n % 256
  {
    var k, m := n / 65536, n % 65536;
    var a, b, e := m / 256, m % 256, n / 256;
    assert n == 65536 * k + 256 * a + b && n == 256 * e + n % 256;
    assert 256 * (256 * k + a - e) == n % 256 - b;
  }

  lemma Put16Wraps(n: int)
    ensures Put16(Int16(n)) == Put16(n)
  {
    var i := Int16(n);
    LowByte(n);
    LowByte(i);
    SameLow(n, i, (n - i) / 65536);
  }

  lemma SameLow(n: int, i: int, q: int)
    requires n == i + 65536 * q
    ensures n % 65536 == i % 65536
  {
    var d, e := n / 65536, i / 65536;
    assert 65536 * (d - e - q) == i % 65536 - n % 65536;
  }

  /** Bytes that are written as they are, with a size that is right only up to 32767. */
  lemma PackDataFrame(session: nat, option: int, buff: seq<byte>)
    ensures PackData(session, option, buff).Ok? <==> |buff| % 65536 <= SERVER_ONE.hi || |buff| % 65536 >= 65528
    ensures PackData(session, option, buff).Ok? ==>
      PackData(session, option, buff).value == Encode(ServerFrame(session, option, buff))
  {
    Put16Wraps(|buff|);
    Assoc(Put16(|buff|), Put32(session), Put16(option));
  }

  lemma PackClientDataFrame(session: nat, buff: seq<byte>)
    ensures PackClientData(session, buff).Ok? <==> |buff| % 65536 <= 32761 || |buff| % 65536 >= 65530
    ensures PackClientData(session, buff).Ok? ==>
      PackClientData(session, buff).value == Encode(ReplyFrame(session, buff))
  {
    Put16Wraps(|buff|);
  }

  lemma PackClientFrame(server: nat, msgid: nat, buff: seq<byte>)
    ensures PackClient(server, msgid, buff) == Encode(ClientFrame(server, msgid, buff))
  {
    Put16Wraps(|buff| + 2);
    Assoc(Put16(|buff| + 2) + Put16(server), Put16(msgid), buff);
  }

  // ---- The bytes on the wire, most significant first ----

  /** Size, session, option and payload of a frame between servers. */
  lemma PackedBytes(session: nat, option: nat, buff: seq<byte>)
    requires IsU32(session) && IsU16(option) && |buff| <= SERVER_ONE.hi
    ensures PackData(session, option, buff).Ok?
    ensures var s := PackData(session, option, buff).value;
      && |s| == 8 + |buff|
      && s[0] as int * 0x100 + s[1] as int == |buff|
      && s[2] as int * 0x100_0000 + s[3] as int * 0x1_0000 + s[4] as int * 0x100 + s[5] as int == session
      && s[6] as int * 0x100 + s[7] as int == option
      && s[8..] == buff
  {
    PackDataFrame(session, option, buff);
    Put16Bytes(|buff|);
    Put32Bytes(session);
    Put16Bytes(option);
  }

  /** Size, session and payload of a reply. */
  lemma PackedReplyBytes(session: nat, buff: seq<byte>)
    requires IsU32(session) && |buff| <= 32761
    ensures PackClientData(session, buff).Ok?
    ensures var s := PackClientData(session, buff).value;
      && |s| == 6 + |buff|
      && s[0] as int * 0x100 + s[1] as int == |buff|
      && s[2] as int * 0x100_0000 + s[3] as int * 0x1_0000 + s[4] as int * 0x100 + s[5] as int == session
      && s[6..] == buff
  {
    PackClientDataFrame(session, buff);
    Put16Bytes(|buff|);
    Put32Bytes(session);
  }

  /** Size, server type, message id and data of a client's message. */
  lemma PackedMessageBytes(server: nat, msgid: nat, buff: seq<byte>)
    requires IsU16(server) && IsU16(msgid) && |buff| <= 32765
    ensures var s := PackClient(server, msgid, buff);
      && |s| == 6 + |buff|
      && s[0] as int * 0x100 + s[1] as int == |buff| + 2
      && s[2] as int * 0x100 + s[3] as int == server
      && s[4] as int * 0x100 + s[5] as int == msgid
      && s[6..] == buff
  {
    Put16Bytes(|buff| + 2);
    Put16Bytes(server);
    Put16Bytes(msgid);
  }

  lemma Put16Bytes(n: nat)
    requires IsU16(n)
    ensures var s := Put16(n); s[0] as int * 0x100 + s[1] as int == n
  {
  }

  lemma Put32Bytes(n: nat)
    requires IsU32(n)
    ensures var s := Put32(n);
      s[0] as int * 0x100_0000 + s[1] as int * 0x1_0000 + s[2] as int * 0x100 + s[3] as int == n
  {
    var high, low, s := n / 65536, n % 65536, Put32(n);
    LowByte(n);
    Put16Bytes(high);
    assert s[2] == low / 256 && s[3] == low % 256;
  }

  /** The decoder gives back what was packed if and only if it is 2 to 32759 bytes long. */
  lemma PackDataIsExact(session: nat, option: int, buff: seq<byte>)
    ensures
      && PackData(session, option, buff).Ok?
      && Frames(PackData(session, option, buff).value, 0, SERVER_GROUP) == [ServerFrame(session, option, buff)]
      <==> 2 <= |buff| <= SERVER_ONE.hi
  {
    PackDataFrame(session, option, buff);
    EncodingIsExact(ServerFrame(session, option, buff), SERVER_GROUP);
  }

  /** For a reply the limit is 32761. */
  lemma PackClientDataIsExact(session: nat, buff: seq<byte>)
    ensures
      && PackClientData(session, buff).Ok?
      && Frames(PackClientData(session, buff).value, 0, REPLY_GROUP) == [ReplyFrame(session, buff)]
      <==> 2 <= |buff| <= 32761
  {
    PackClientDataFrame(session, buff);
    EncodingIsExact(ReplyFrame(session, buff), REPLY_GROUP);
  }

  /** For a client's message, whose id is part of the payload, it is 32761 as well. */
  lemma PackClientIsExact(server: nat, msgid: nat, buff: seq<byte>)
    ensures Frames(PackClient(server, msgid, buff), 0, CLIENT_ONE) == [ClientFrame(server, msgid, buff)]
       <==> |buff| <= 32761
  {
    PackClientFrame(server, msgid, buff);
    EncodingIsExact(ClientFrame(server, msgid, buff), CLIENT_ONE);
  }

  // ---- What the decoders read from such frames ----

  lemma ServerFrameFields(session: nat, option: int, body: seq<byte>)
    requires IsU32(session)
    ensures var f := ServerFrame(session, option, body);
      |f.head| == 6 && SessionOf(f) == session && OptionOf(f) == option % 65536
  {
    Put32Read(session, Put16(option));
    Put16Read(option, []);
    assert Put16(option) + [] == Put16(option);
    var head := Put32(session) + Put16(option);
    assert head[4] == Put16(option)[0] && head[5] == Put16(option)[1];
  }

  lemma PackageFields(msgid: nat, data: seq<byte>)
    requires IsU16(msgid)
    ensures var p := PackPackage(msgid, data);
      && |p| == |data| + 2 && MsgId(p, 0) == msgid && p[2..] == data
      && (ShortId(p) == msgid <==> msgid < 256)
  {
    Put16Read(msgid, data);
    var p := PackPackage(msgid, data);
    assert p[0] == msgid / 256 && p[1] == msgid % 256;
  }

  /** The group decoders' id of a package: that of 8-bit arithmetic on the two bytes of the id. */
  lemma ShortIdOfPackage(session: nat, option: nat, msgid: nat, data: seq<byte>)
    requires IsU16(msgid)
    ensures var p, id := PackPackage(msgid, data), (msgid / 256 * 16 + msgid % 256) % 256;
      TranView(ServerFrame(session, option, p)).msgId == id && ReplyView(ReplyFrame(session, p)).msgId == id
  {
    var p := PackPackage(msgid, data);
    assert p[0] == msgid / 256 && p[1] == msgid % 256;
  }

  /** A package sent between servers is received with the same session, option, id and data. */
  lemma ServerPackageView(session: nat, option: nat, msgid: nat, data: seq<byte>)
    requires IsU32(session) && IsU16(option) && IsU16(msgid)
    ensures ServerView(ServerFrame(session, option, PackPackage(msgid, data)))
         == ServerPacket(session, option, msgid, data)
  {
    ServerFrameFields(session, option, PackPackage(msgid, data));
    PackageFields(msgid, data);
  }

  lemma ReplyFrameFields(session: nat, body: seq<byte>)
    requires IsU32(session)
    ensures var f := ReplyFrame(session, body); |f.head| == 4 && SessionOf(f) == session
  {
    Put32Read(session, []);
    assert Put32(session) + [] == Put32(session);
  }

  lemma ClientFrameFields(server: nat, msgid: nat, body: seq<byte>)
    requires IsU16(server) && IsU16(msgid)
    ensures var f := ClientFrame(server, msgid, body);
      |f.head| == 2 && ServerOf(f) == server && MsgId(f.body, 0) == msgid && |f.body| == |body| + 2
  {
    Put16Read(server, []);
    assert Put16(server) + [] == Put16(server);
    PackageFields(msgid, body);
  }

  /**
   What popping one frame comes to, for a whole frame of any size up to 32767 and whatever follows it: the decoders
   accept sizes from 2 or 0 on up to the limits of their int16 arithmetic, and panic at all others.
   */
  lemma OneFrameIsPopped(session: nat, option: nat, server: nat, body: seq<byte>, t: seq<byte>)
    requires IsU32(session) && IsU16(option) && IsU16(server) && |body| <= MAX_INT16
    ensures var s := Encode(ServerFrame(session, option, body)) + t;
      && PopOutcome(s, SERVER_ONE) == (if 2 <= |body| <= 32759 then Done else Panicked)
      && PopOutcome(s, TRAN_ONE) == (if |body| <= 32759 then Done else Panicked)
    ensures var s := Encode(Frame(Put16(server), body)) + t;
      PopOutcome(s, CLIENT_ONE) == if |body| <= 32763 then Done else Panicked
  {
    var f, g := ServerFrame(session, option, body), Frame(Put16(server), body);
    Put16Read(|body|, f.head + f.body + t);
    assert Encode(f) + t == Put16(|body|) + (f.head + f.body + t);
    Put16Read(|body|, g.head + g.body + t);
    assert Encode(g) + t == Put16(|body|) + (g.head + g.body + t);
  }

  /** A negative size makes all three panic. */
  lemma NegativeSizePanics(s: seq<byte>)
    requires |s| >= 8 && s[0] as int >= 128
    ensures PopOutcome(s, SERVER_ONE) == PopOutcome(s, TRAN_ONE) == PopOutcome(s, CLIENT_ONE) == Panicked
  {
  }

  /** `ParserPackage` skips two bytes more than `PackPackage` writes, and gives up on packages of less than 4 bytes. */
  lemma ParserPackageSkips(msgid: nat, data: seq<byte>)
    requires IsU16(msgid)
    ensures ParserPackage(PackPackage(msgid, data)) == if |data| >= 2 then (msgid, data[2..]) else (0, [])
  {
    Put16Read(msgid, data);
    DropPrefix(Put16(msgid), data);
    if |data| >= 2 {
      DropTwice(PackPackage(msgid, data), 2, 2);
    }
  }

  /** So it gives back id and data only of the empty package with id 0. */
  lemma ParserPackageIsNoInverse(msgid: nat, data: seq<byte>)
    requires IsU16(msgid)
    ensures ParserPackage(PackPackage(msgid, data)) == (msgid, data) <==> msgid == 0 && data == []
  {
    var r := ParserPackage(PackPackage(msgid, data));
    assert |r.1| < |data| || data == [];
  }
}
