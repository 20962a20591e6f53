/**
 The growable receive buffer and its decoders.

 A Go runtime panic is modelled as the outcome `Panicked`, at which the loop that runs the decoder ends; the model
 leaves the buffer as it was. `binary.Read` on a short input consumes what is left and leaves its destination
 unchanged.
 */
module Buffers {
  import opened Bytes
  import opened Wire

  const BUFFER_SIZE := 4096
  const MSG_CLIENT_LEN := 4
  const PACKAGE_HEAD_LEN := 8

  // The formats the decoders accept. `size + 8` and `size + 4` are computed in int16 by the decoders that
  // pop one frame, so they accept less than the group decoders.
  const SERVER_GROUP := Format(6, 2, 32767)
  const REPLY_GROUP := Format(4, 2, 32767)
  const SERVER_ONE := Format(6, 2, 32759)
  const TRAN_ONE := Format(6, 0, 32759)
  const CLIENT_ONE := Format(2, 0, 32763)

  datatype Outcome = Done | TooShort | Incomplete | BadSize | Panicked

  datatype ServerPacket = ServerPacket(session: nat, option: nat, msgId: nat, buff: seq<byte>)
  datatype ClientPacket = ClientPacket(session: nat, msgId: nat, buff: seq<byte>)
  datatype ClientMessage = ClientMessage(server: nat, msgId: nat, buff: seq<byte>)

  // ---- What a frame means to each decoder ----

  function SessionOf(f: Frame): nat { if |f.head| < 4 then 0 else U32At(f.head, 0) }
  function OptionOf(f: Frame): nat { if |f.head| < 6 then 0 else U16At(f.head, 4) }
  function ServerOf(f: Frame): nat { if |f.head| < 2 then 0 else U16At(f.head, 0) }

  /** The 16-bit message id at `pos`; 0 when it is not there to be read. */
  function MsgId(s: seq<byte>, pos: nat): nat { if pos + 2 > |s| then 0 else U16At(s, pos) }

  /** The group decoders' `uint16(b[0]*16 + b[1])`, whose arithmetic is on 8 bits. */
  function ShortId(body: seq<byte>): nat { if |body| < 2 then 0 else (body[0] as nat * 16 + body[1] as nat) % 256 }

  function ServerView(f: Frame): ServerPacket {
    ServerPacket(SessionOf(f), OptionOf(f), MsgId(f.body, 0), if |f.body| < 2 then [] else f.body[2..])
  }

  function TranView(f: Frame): ServerPacket {
    ServerPacket(SessionOf(f), OptionOf(f), ShortId(f.body), f.body)
  }

  function ReplyView(f: Frame): ClientPacket {
    ClientPacket(SessionOf(f), ShortId(f.body), f.body)
  }

  function ServerViews(fs: seq<Frame>): (ps: seq<ServerPacket>)
    ensures |ps| == |fs|
  {
    if fs == [] then [] else ServerViews(fs[..|fs| - 1]) + [ServerView(fs[|fs| - 1])]
  }

  function TranViews(fs: seq<Frame>): (ps: seq<ServerPacket>)
    ensures |ps| == |fs|
  {
    if fs == [] then [] else TranViews(fs[..|fs| - 1]) + [TranView(fs[|fs| - 1])]
  }

  function ReplyViews(fs: seq<Frame>): (ps: seq<ClientPacket>)
    ensures |ps| == |fs|
  {
    if fs == [] then [] else ReplyViews(fs[..|fs| - 1]) + [ReplyView(fs[|fs| - 1])]
  }

  // ---- What a decoder does at bytes that do not start with an acceptable frame ----

  /** How a group decoder's loop ends at `pos`, when its `size` variable still holds `stale`. */
  datatype Ending = Clean | Cut | Bad

  function EndingAt(s: seq<byte>, pos: nat, stale: int, fmt: Format): Ending
    requires pos <= |s|
  {
    var size := if pos + 2 <= |s| then S16At(s, pos) else stale;
    var left := if pos + 2 + fmt.head <= |s| then |s| - pos - 2 - fmt.head else 0;
    if pos == |s| then Clean else if left < size then Cut else Bad
  }

  /** The outcome of popping one frame. */
  function PopOutcome(s: seq<byte>, fmt: Format): Outcome {
    if |s| < 2 + fmt.head then TooShort
    else if |s| - 2 - fmt.head < S16At(s, 0) then Incomplete
    else if fmt.lo <= S16At(s, 0) <= fmt.hi then Done
    else Panicked
  }

  /** The outcome of a group decoder that demands a whole header and answers a bad size with `bad`. */
  function GroupOutcome(s: seq<byte>, bad: Outcome): Outcome {
    if |s| < PACKAGE_HEAD_LEN then TooShort
    else if EndingAt(s, End(s, 0, SERVER_GROUP), 2, SERVER_GROUP) == Bad then bad
    else Done
  }

  /** The client's group decoder starts with `size` 0, so a lone first byte is not taken for a cut frame. */
  function ReplyOutcome(s: seq<byte>): Outcome {
    var e := End(s, 0, REPLY_GROUP);
    if EndingAt(s, e, if e == 0 then 0 else 2, REPLY_GROUP) == Bad then Panicked else Done
  }

  /** A reader over a byte slice, as `bytes.Reader` with `binary.Read`. */
  datatype Reader = Reader(data: seq<byte>, pos: nat) {
    predicate Valid() {
      pos <= |data|
    }

    function Len(): nat
      requires Valid()
    {
      |data| - pos
    }

    /** The reader after a read of `n` bytes. */
    function Skip(n: nat): (r: Reader)
      requires Valid()
      ensures r.Valid() && r.data == data
    {
      Reader(data, if n <= Len() then pos + n else |data|)
    }

    function Bytes(n: nat): seq<byte>
      requires Valid()
    {
      if n <= Len() then data[pos..pos + n] else []
    }

    function Uint16(destination: nat): nat
      requires Valid()
    {
      if 2 <= Len() then U16At(data, pos) else destination
    }

    function Uint32(destination: nat): nat
      requires Valid()
    {
      if 4 <= Len() then U32At(data, pos) else destination
    }

    function Int16(destination: int): int
      requires Valid()
    {
      if 2 <= Len() then S16At(data, pos) else destination
    }
  }

  /** `Frames` in the order of a group decoder's loop: frames found are appended to `done`. */
  ghost function Collect(s: seq<byte>, pos: nat, done: seq<Frame>, fmt: Format): seq<Frame>
    decreases |s| - pos
  {
    if Whole(s, pos, fmt) then Collect(s, Next(s, pos, fmt), done + [FrameAt(s, pos, fmt)], fmt) else done
  }

  lemma {:induction false} CollectIsFrames(s: seq<byte>, pos: nat, done: seq<Frame>, fmt: Format)
    ensures Collect(s, pos, done, fmt) == done + Frames(s, pos, fmt)
    decreases |s| - pos
  {
    if Whole(s, pos, fmt) {
      CollectIsFrames(s, Next(s, pos, fmt), done + [FrameAt(s, pos, fmt)], fmt);
    }
  }

  lemma ViewsAppend(fs: seq<Frame>, f: Frame)
    ensures ServerViews(fs + [f]) == ServerViews(fs) + [ServerView(f)]
    ensures TranViews(fs + [f]) == TranViews(fs) + [TranView(f)]
    ensures ReplyViews(fs + [f]) == ReplyViews(fs) + [ReplyView(f)]
  {
    assert (fs + [f])[..|fs|] == fs;
  }

  // ---- The loops of the group decoders, over the bytes received ----
  // A scan returns how many bytes to drop. `size` lives outside the loop, so a one-byte tail is judged by
  // the size of the frame before it.

  /** What one round of a loop comes to. */
  datatype Step<P> = Found(packet: P, reader: Reader) | Stop(outcome: Outcome)

  method NextServerPacket(reader: Reader, stale: int) returns (size: int, step: Step<ServerPacket>)
    requires reader.pos < |reader.data|
    ensures size == reader.Int16(stale)
    ensures Whole(reader.data, reader.pos, SERVER_GROUP) ==>
      step == Found(ServerView(FrameAt(reader.data, reader.pos, SERVER_GROUP)),
                    Reader(reader.data, Next(reader.data, reader.pos, SERVER_GROUP)))
    ensures !Whole(reader.data, reader.pos, SERVER_GROUP) ==>
      step == Stop(if EndingAt(reader.data, reader.pos, size, SERVER_GROUP) == Bad then BadSize else Done)
  {
    var rest := reader.Skip(2);
    size := reader.Int16(stale);
    var session := rest.Uint32(0);
    rest := rest.Skip(4);
    var option := rest.Uint16(0);
    rest := rest.Skip(2);
    if rest.Len() < size {
      return size, Stop(Done);
    }
    var msgid := rest.Uint16(0);
    rest := rest.Skip(2);
    if size < 2 {
      return size, Stop(BadSize);
    }
    var body := rest.Bytes(size - 2);
    assert body == FrameAt(reader.data, reader.pos, SERVER_GROUP).body[2..];
    step := Found(ServerPacket(session, option, msgid, body), rest.Skip(size - 2));
  }

  method NextTranPacket(reader: Reader, stale: int) returns (size: int, step: Step<ServerPacket>)
    requires reader.pos < |reader.data|
    ensures size == reader.Int16(stale)
    ensures Whole(reader.data, reader.pos, SERVER_GROUP) ==>
      step == Found(TranView(FrameAt(reader.data, reader.pos, SERVER_GROUP)),
                    Reader(reader.data, Next(reader.data, reader.pos, SERVER_GROUP)))
    ensures !Whole(reader.data, reader.pos, SERVER_GROUP) ==>
      step == Stop(if EndingAt(reader.data, reader.pos, size, SERVER_GROUP) == Bad then Panicked else Done)
  {
    var rest := reader.Skip(2);
    size := reader.Int16(stale);
    var session := rest.Uint32(0);
    rest := rest.Skip(4);
    var option := rest.Uint16(0);
    rest := rest.Skip(2);
    if rest.Len() < size {
      return size, Stop(Done);
    }
    if size < 2 {
      // A negative length, or an index beyond the payload.
      return size, Stop(Panicked);
    }
    var body := rest.Bytes(size);
    assert body == FrameAt(reader.data, reader.pos, SERVER_GROUP).body;
    var msgid := (body[0] as nat * 16 + body[1] as nat) % 256;
    step := Found(ServerPacket(session, option, msgid, body), rest.Skip(size));
  }

  method NextClientPacket(reader: Reader, stale: int) returns (size: int, step: Step<ClientPacket>)
    requires reader.pos < |reader.data|
    ensures size == reader.Int16(stale)
    ensures Whole(reader.data, reader.pos, REPLY_GROUP) ==>
      step == Found(ReplyView(FrameAt(reader.data, reader.pos, REPLY_GROUP)),
                    Reader(reader.data, Next(reader.data, reader.pos, REPLY_GROUP)))
    ensures !Whole(reader.data, reader.pos, REPLY_GROUP) ==>
      step == Stop(if EndingAt(reader.data, reader.pos, size, REPLY_GROUP) == Bad then Panicked else Done)
  {
    var rest := reader.Skip(2);
    size := reader.Int16(stale);
    var session := rest.Uint32(0);
    rest := rest.Skip(4);
    if rest.Len() < size {
      return size, Stop(Done);
    }
    if size < 2 {
      return size, Stop(Panicked);
    }
    var body := rest.Bytes(size);
    assert body == FrameAt(reader.data, reader.pos, REPLY_GROUP).body;
    var msgid := (body[0] as nat * 16 + body[1] as nat) % 256;
    step := Found(ClientPacket(session, msgid, body), rest.Skip(size));
  }

  method ScanServerGroup(s: seq<byte>) returns (pkg: seq<ServerPacket>, pos: nat, outcome: Outcome)
    requires |s| >= PACKAGE_HEAD_LEN
    ensures outcome == GroupOutcome(s, BadSize)
    ensures pkg == ServerViews(Frames(s, 0, SERVER_GROUP))
    ensures pos == End(s, 0, SERVER_GROUP)
  {
    var reader, size := Reader(s, 0), 0;
    ghost var done: seq<Frame> := [];
    pkg, pos := [], 0;
    CollectIsFrames(s, 0, [], SERVER_GROUP);
    while pos < |s|
      invariant pos <= |s| && reader == Reader(s, pos)
      invariant pos > 0 ==> size >= 2
      invariant Collect(s, pos, done, SERVER_GROUP) == Frames(s, 0, SERVER_GROUP)
      invariant End(s, pos, SERVER_GROUP) == End(s, 0, SERVER_GROUP)
      invariant pkg == ServerViews(done)
    {
      var step;
      size, step := NextServerPacket(reader, size);
      if step.Stop? {
        return pkg, pos, step.outcome;
      }
      ghost var f := FrameAt(s, pos, SERVER_GROUP);
      ViewsAppend(done, f);
      done := done + [f];
      pkg := pkg + [step.packet];
      pos := pos + PACKAGE_HEAD_LEN + size;
      reader := step.reader;
    }
    outcome := Done;
  }

  method ScanTranGroup(s: seq<byte>) returns (pkg: seq<ServerPacket>, pos: nat, outcome: Outcome)
    requires |s| >= PACKAGE_HEAD_LEN
    ensures outcome == GroupOutcome(s, Panicked)
    ensures pkg == TranViews(Frames(s, 0, SERVER_GROUP))
    ensures pos == End(s, 0, SERVER_GROUP)
  {
    var reader, size := Reader(s, 0), 0;
    ghost var done: seq<Frame> := [];
    pkg, pos := [], 0;
    CollectIsFrames(s, 0, [], SERVER_GROUP);
    while pos < |s|
      invariant pos <= |s| && reader == Reader(s, pos)
      invariant pos > 0 ==> size >= 2
      invariant Collect(s, pos, done, SERVER_GROUP) == Frames(s, 0, SERVER_GROUP)
      invariant End(s, pos, SERVER_GROUP) == End(s, 0, SERVER_GROUP)
      invariant pkg == TranViews(done)
    {
      var step;
      size, step := NextTranPacket(reader, size);
      if step.Stop? {
        return pkg, pos, step.outcome;
      }
      ghost var f := FrameAt(s, pos, SERVER_GROUP);
      ViewsAppend(done, f);
      done := done + [f];
      pkg := pkg + [step.packet];
      pos := pos + PACKAGE_HEAD_LEN + size;
      reader := step.reader;
    }
    outcome := Done;
  }

  method ScanClientGroup(s: seq<byte>) returns (pkg: seq<ClientPacket>, pos: nat, outcome: Outcome)
    ensures outcome == ReplyOutcome(s)
    ensures pkg == ReplyViews(Frames(s, 0, REPLY_GROUP))
    ensures pos == End(s, 0, REPLY_GROUP)
  {
    var reader, size := Reader(s, 0), 0;
    ghost var done: seq<Frame> := [];
    pkg, pos := [], 0;
    CollectIsFrames(s, 0, [], REPLY_GROUP);
    while pos < |s|
      invariant pos <= |s| && reader == Reader(s, pos)
      invariant if pos == 0 then size == 0 else size >= 2
      invariant Collect(s, pos, done, REPLY_GROUP) == Frames(s, 0, REPLY_GROUP)
      invariant End(s, pos, REPLY_GROUP) == End(s, 0, REPLY_GROUP)
      invariant pkg == ReplyViews(done)
    {
      var step;
      size, step := NextClientPacket(reader, size);
      if step.Stop? {
        return pkg, pos, step.outcome;
      }
      ghost var f := FrameAt(s, pos, REPLY_GROUP);
      ViewsAppend(done, f);
      done := done + [f];
      pkg := pkg + [step.packet];
      pos := pos + MSG_CLIENT_LEN + size + 2;
      reader := step.reader;
    }
    outcome := Done;
  }

  class Buffer {
    var buff: array<byte>
    var index: nat
    var size: nat

    ghost predicate Valid()
      reads this
    {
      size == buff.Length && index <= size
    }

    /** The bytes received and not yet consumed. */
    ghost function Content(): (s: seq<byte>)
      reads this, buff
      requires Valid()
      ensures |s| == index
    {
      buff[..index]
    }

    constructor ()
      ensures Valid() && fresh(buff) && Content() == []
    {
      buff := new byte[BUFFER_SIZE];
      index, size := 0, BUFFER_SIZE;
    }

    predicate Empty()
      reads this
    {
      index == 0
    }

    method Clear()
      requires Valid()
      modifies this`index
      ensures Valid() && Content() == []
    {
      index := 0;
    }

    /** The received bytes, which are then forgotten. */
    method Take() returns (s: seq<byte>)
      requires Valid()
      modifies this`index
      ensures Valid() && s == old(Content()) && Content() == []
    {
      s := buff[..index];
      Clear();
    }

    method PushData(d: seq<byte>)
      requires Valid()
      modifies this, buff
      ensures Valid() && (buff == old(buff) || fresh(buff))
      ensures Content() == old(Content()) + d
    {
      while index + |d| > size
        invariant Valid() && (buff == old(buff) || fresh(buff))
        invariant Content() == old(Content())
        decreases index + |d| - size
      {
        var grown := new byte[size + BUFFER_SIZE];
        forall i | 0 <= i < size {
          grown[i] := buff[i];
        }
        buff := grown;
        size := size + BUFFER_SIZE;
      }
      forall i | 0 <= i < |d| {
        buff[index + i] := d[i];
      }
      index := index + |d|;
    }

    /** Drops the first `n` bytes by moving the others to the front. */
    method Compact(n: nat)
      requires Valid() && n <= index
      modifies this`index, buff
      ensures Valid() && Content() == old(Content())[n..]
    {
      forall i | 0 <= i < index - n {
        buff[i] := buff[n + i];
      }
      index := index - n;
    }

    // ---- Decoders of one frame ----

    method PopClientData() returns (m: ClientMessage, outcome: Outcome)
      requires Valid()
      modifies this, buff
      ensures Valid() && buff == old(buff)
      ensures var s := old(Content());
        && outcome == PopOutcome(s, CLIENT_ONE)
        && (outcome == Done ==>
              && m == ClientMessage(ServerOf(FrameAt(s, 0, CLIENT_ONE)), MsgId(s, 4), FrameAt(s, 0, CLIENT_ONE).body)
              && Content() == s[Next(s, 0, CLIENT_ONE)..])
        && (outcome != Done ==> Content() == s)
    {
      m := ClientMessage(0, 0, []);
      if index < MSG_CLIENT_LEN {
        return m, TooShort;
      }
      var reader := Reader(buff[..index], 0);
      var size := reader.Int16(0);
      reader := reader.Skip(2);
      var server := reader.Uint16(0);
      reader := reader.Skip(2);
      if reader.Len() < size {
        return m, Incomplete;
      }
      var msgid := reader.Uint16(0);
      if size < 0 {
        return m, Panicked;
      }
      var body := buff[MSG_CLIENT_LEN..MSG_CLIENT_LEN + size];
      var taken := Int16(size + MSG_CLIENT_LEN);
      if taken < 0 {
        return m, Panicked;
      }
      m, outcome := ClientMessage(server, msgid, body), Done;
      assert body == FrameAt(Content(), 0, CLIENT_ONE).body;
      Compact(taken);
    }

    method PopServerData() returns (pk: ServerPacket, outcome: Outcome)
      requires Valid()
      modifies this, buff
      ensures Valid() && buff == old(buff)
      ensures var s := old(Content());
        && outcome == PopOutcome(s, SERVER_ONE)
        && (outcome == Done ==>
              pk == ServerView(FrameAt(s, 0, SERVER_ONE)) && Content() == s[Next(s, 0, SERVER_ONE)..])
        && (outcome != Done ==> Content() == s)
    {
      pk := ServerPacket(0, 0, 0, []);
      if index < PACKAGE_HEAD_LEN {
        return pk, TooShort;
      }
      var reader := Reader(buff[..index], 0);
      var size := reader.Int16(0);
      reader := reader.Skip(2);
      var session := reader.Uint32(0);
      reader := reader.Skip(4);
      var option := reader.Uint16(0);
      reader := reader.Skip(2);
      if reader.Len() < size {
        return pk, Incomplete;
      }
      var msgid := reader.Uint16(0);
      reader := reader.Skip(2);
      // For the two lowest sizes `size - 2` wraps to a large length, and the panic comes from the slice below.
      var length := Int16(size - 2);
      if length < 0 {
        return pk, Panicked;
      }
      var body := reader.Bytes(length);
      var taken := Int16(size + PACKAGE_HEAD_LEN);
      if taken < 0 {
        return pk, Panicked;
      }
      pk, outcome := ServerPacket(session, option, msgid, body), Done;
      assert body == FrameAt(Content(), 0, SERVER_ONE).body[2..];
      Compact(taken);
    }

    method PopTranData() returns (pk: ServerPacket, outcome: Outcome)
      requires Valid()
      modifies this, buff
      ensures Valid() && buff == old(buff)
      ensures var s := old(Content());
        && outcome == PopOutcome(s, TRAN_ONE)
        && (outcome == Done ==>
              && pk == TranView(FrameAt(s, 0, TRAN_ONE)).(msgId := MsgId(s, 8))
              && Content() == s[Next(s, 0, TRAN_ONE)..])
        && (outcome != Done ==> Content() == s)
    {
      pk := ServerPacket(0, 0, 0, []);
      if index < PACKAGE_HEAD_LEN {
        return pk, TooShort;
      }
      var reader := Reader(buff[..index], 0);
      var size := reader.Int16(0);
      reader := reader.Skip(2);
      var session := reader.Uint32(0);
      reader := reader.Skip(4);
      var option := reader.Uint16(0);
      reader := reader.Skip(2);
      if reader.Len() < size {
        return pk, Incomplete;
      }
      var msgid := reader.Uint16(0);
      if size < 0 {
        return pk, Panicked;
      }
      var body := buff[PACKAGE_HEAD_LEN..PACKAGE_HEAD_LEN + size];
      var taken := Int16(size + PACKAGE_HEAD_LEN);
      if taken < 0 {
        return pk, Panicked;
      }
      pk, outcome := ServerPacket(session, option, msgid, body), Done;
      assert body == FrameAt(Content(), 0, TRAN_ONE).body;
      Compact(taken);
    }

    // ---- Decoders of all the whole frames at once ----

    method PopServerGroup() returns (pkg: seq<ServerPacket>, outcome: Outcome)
      requires Valid()
      modifies this, buff
      ensures Valid() && buff == old(buff)
      ensures var s := old(Content());
        && outcome == GroupOutcome(s, BadSize)
        && pkg == (if outcome == TooShort then [] else ServerViews(Frames(s, 0, SERVER_GROUP)))
        && Content() == (if outcome == Done then Rest(s, SERVER_GROUP) else s)
    {
      if index < PACKAGE_HEAD_LEN {
        return [], TooShort;
      }
      var pos;
      pkg, pos, outcome := ScanServerGroup(buff[..index]);
      if outcome == Done {
        Compact(pos);
      }
    }

    method PopTranGroup() returns (pkg: seq<ServerPacket>, outcome: Outcome)
      requires Valid()
      modifies this, buff
      ensures Valid() && buff == old(buff)
      ensures var s := old(Content());
        && outcome == GroupOutcome(s, Panicked)
        && pkg == (if outcome == TooShort then [] else TranViews(Frames(s, 0, SERVER_GROUP)))
        && Content() == (if outcome == Done then Rest(s, SERVER_GROUP) else s)
    {
      if index < PACKAGE_HEAD_LEN {
        return [], TooShort;
      }
      var pos;
      pkg, pos, outcome := ScanTranGroup(buff[..index]);
      if outcome == Done {
        Compact(pos);
      }
    }

    /** Unlike the other group decoders this one does not ask for a whole header first. */
    method PopClientGroup() returns (pkg: seq<ClientPacket>, outcome: Outcome)
      requires Valid()
      modifies this, buff
      ensures Valid() && buff == old(buff)
      ensures var s := old(Content());
        && outcome == ReplyOutcome(s)
        && pkg == ReplyViews(Frames(s, 0, REPLY_GROUP))
        && Content() == (if outcome == Done then Rest(s, REPLY_GROUP) else s)
    {
      var pos;
      pkg, pos, outcome := ScanClientGroup(buff[..index]);
      if outcome == Done {
        Compact(pos);
      }
    }
  }
}
