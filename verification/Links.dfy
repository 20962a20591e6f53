/**
 The receiving loops of the link classes. What a sink is called with is collected in `calls`.
 The chunks a loop is given are those read from its connection or taken from its channel.
 */
module Links {
  import opened Bytes
  import opened Seqs
  import opened Wire
  import opened Buffers
  import opened Streams

  lemma {:induction false} ViewsConcat(fs: seq<Frame>, gs: seq<Frame>)
    ensures ServerViews(fs + gs) == ServerViews(fs) + ServerViews(gs)
    ensures TranViews(fs + gs) == TranViews(fs) + TranViews(gs)
    ensures ReplyViews(fs + gs) == ReplyViews(fs) + ReplyViews(gs)
  {
    if gs == [] {
      assert fs + gs == fs;
    } else {
      var hs := gs[..|gs| - 1];
      assert fs + gs == (fs + hs) + [gs[|gs| - 1]];
      assert gs == hs + [gs[|gs| - 1]];
      ViewsConcat(fs, hs);
      ViewsAppend(fs + hs, gs[|gs| - 1]);
      ViewsAppend(hs, gs[|gs| - 1]);
    }
  }

  lemma OneView(f: Frame)
    ensures ServerViews([f]) == [ServerView(f)] && TranViews([f]) == [TranView(f)] && ReplyViews([f]) == [ReplyView(f)]
  {
    assert [f][..0] == [];
  }

  /** What is still to come of a batching run after the events before `i`. */
  ghost predicate ProcessAt(evs: seq<Arrival>, start: seq<byte>, i: nat, done: seq<Frame>, now: seq<byte>) {
    i <= |evs| && Process(evs, start) == After(done, Process(evs[i..], now))
  }

  /** A run that delivers `done` and then goes on as `r`. */
  function After(done: seq<Frame>, r: Run): Run {
    r.(frames := done + r.frames)
  }

  lemma ProcessBegins(evs: seq<Arrival>, start: seq<byte>)
    ensures ProcessAt(evs, start, 0, [], start)
  {
    assert evs[0..] == evs;
  }

  /** One round of `ProcessAt`. */
  lemma ProcessMoves(evs: seq<Arrival>, start: seq<byte>, i: nat, done: seq<Frame>, now: seq<byte>)
    requires ProcessAt(evs, start, i, done, now) && i < |evs|
    ensures var b := now + evs[i].data;
      && (!evs[i].pop ==> ProcessAt(evs, start, i + 1, done, b))
      && (evs[i].pop && GroupOutcome(b, BadSize) != Done ==>
            !Process(evs, start).alive && Process(evs, start).frames == done)
      && (evs[i].pop && GroupOutcome(b, BadSize) == Done ==>
            ProcessAt(evs, start, i + 1, done + Frames(b, 0, SERVER_GROUP), Rest(b, SERVER_GROUP)))
  {
    var b := now + evs[i].data;
    assert evs[i..][1..] == evs[i + 1..];
    Assoc(done, Frames(b, 0, SERVER_GROUP), Process(evs[i + 1..], Rest(b, SERVER_GROUP)).frames);
  }

  lemma ProcessEnds(evs: seq<Arrival>, start: seq<byte>, done: seq<Frame>, now: seq<byte>)
    requires ProcessAt(evs, start, |evs|, done, now)
    ensures Process(evs, start) == Run(done, now, true)
  {
    assert evs[|evs|..] == [];
  }

  /** The cluster's end of a connection to a gate. */
  class ClientLink {
    const buffer: Buffer
    var received: nat
    var calls: seq<ServerPacket>

    constructor ()
      ensures fresh(buffer) && buffer.Valid() && fresh(buffer.buff) && buffer.Content() == []
      ensures received == 0 && calls == []
    {
      buffer := new Buffer();
      received, calls := 0, [];
    }

    /** One round of `Processing`; the result says whether the loop goes on. */
    method Round(ev: Arrival) returns (running: bool)
      requires buffer.Valid()
      modifies this, buffer, buffer.buff
      ensures buffer.Valid() && (buffer.buff == old(buffer.buff) || fresh(buffer.buff))
      ensures var b := old(buffer.Content()) + ev.data;
        var popped := ev.pop && GroupOutcome(b, BadSize) == Done;
        var frames := if popped then Frames(b, 0, SERVER_GROUP) else [];
        && running == (ev.pop ==> popped)
        && calls == old(calls) + ServerViews(frames)
        && received == old(received) + |frames|
        && buffer.Content() == (if popped then Rest(b, SERVER_GROUP) else b)
    {
      running := true;
      buffer.PushData(ev.data);
      if ev.pop {
        var pks, outcome := buffer.PopServerGroup();
        if outcome != Done {
          return false;
        }
        received := received + |pks|;
        calls := calls + pks;
      }
    }

    method Processing(evs: seq<Arrival>) returns (running: bool)
      requires buffer.Valid()
      modifies this, buffer, buffer.buff
      ensures buffer.Valid()
      ensures var r := Process(evs, old(buffer.Content()));
        && running == r.alive
        && calls == old(calls) + ServerViews(r.frames)
        && received == old(received) + |r.frames|
        && (running ==> buffer.Content() == r.left)
    {
      ghost var start, was := buffer.Content(), calls;
      ghost var done: seq<Frame> := [];
      ProcessBegins(evs, start);
      for i := 0 to |evs|
        invariant buffer.Valid() && (buffer.buff == old(buffer.buff) || fresh(buffer.buff))
        invariant ProcessAt(evs, start, i, done, buffer.Content())
        invariant calls == was + ServerViews(done) && received == old(received) + |done|
      {
        ghost var b := buffer.Content() + evs[i].data;
        ProcessMoves(evs, start, i, done, buffer.Content());
        running := Round(evs[i]);
        if !running {
          return;
        }
        if evs[i].pop {
          ViewsConcat(done, Frames(b, 0, SERVER_GROUP));
          Assoc(was, ServerViews(done), ServerViews(Frames(b, 0, SERVER_GROUP)));
          done := done + Frames(b, 0, SERVER_GROUP);
        }
      }
      ProcessEnds(evs, start, done, buffer.Content());
      running := true;
    }
  }

  /** The gate's end of the same connection; its decoder keeps the message id in the payload. */
  class TranLink {
    const buffer: Buffer
    var calls: seq<ServerPacket>

    constructor ()
      ensures fresh(buffer) && buffer.Valid() && fresh(buffer.buff) && buffer.Content() == []
      ensures calls == []
    {
      buffer := new Buffer();
      calls := [];
    }

    /** One round of `Processing`; the result says whether the loop goes on. */
    method Round(ev: Arrival) returns (running: bool)
      requires buffer.Valid()
      modifies this, buffer, buffer.buff
      ensures buffer.Valid() && (buffer.buff == old(buffer.buff) || fresh(buffer.buff))
      ensures var b := old(buffer.Content()) + ev.data;
        var popped := ev.pop && GroupOutcome(b, BadSize) == Done;
        var frames := if popped then Frames(b, 0, SERVER_GROUP) else [];
        && running == (ev.pop ==> popped)
        && calls == old(calls) + TranViews(frames)
        && buffer.Content() == (if popped then Rest(b, SERVER_GROUP) else b)
    {
      running := true;
      buffer.PushData(ev.data);
      if ev.pop {
        var pks, outcome := buffer.PopTranGroup();
        if outcome != Done {
          return false;
        }
        calls := calls + pks;
      }
    }

    method Processing(evs: seq<Arrival>) returns (running: bool)
      requires buffer.Valid()
      modifies this, buffer, buffer.buff
      ensures buffer.Valid()
      ensures var r := Process(evs, old(buffer.Content()));
        && running == r.alive
        && calls == old(calls) + TranViews(r.frames)
        && (running ==> buffer.Content() == r.left)
    {
      ghost var start, was := buffer.Content(), calls;
      ghost var done: seq<Frame> := [];
      ProcessBegins(evs, start);
      for i := 0 to |evs|
        invariant buffer.Valid() && (buffer.buff == old(buffer.buff) || fresh(buffer.buff))
        invariant ProcessAt(evs, start, i, done, buffer.Content())
        invariant calls == was + TranViews(done)
      {
        ghost var b := buffer.Content() + evs[i].data;
        ProcessMoves(evs, start, i, done, buffer.Content());
        running := Round(evs[i]);
        if !running {
          return;
        }
        if evs[i].pop {
          ViewsConcat(done, Frames(b, 0, SERVER_GROUP));
          Assoc(was, TranViews(done), TranViews(Frames(b, 0, SERVER_GROUP)));
          done := done + Frames(b, 0, SERVER_GROUP);
        }
      }
      ProcessEnds(evs, start, done, buffer.Content());
      running := true;
    }
  }

  // ---- Draining one frame at a time ----

  lemma FirstFrame(u: seq<byte>, n: nat, t: seq<byte>, fmt: Format)
    requires EndsWith(u, n, t) && Whole(u, 0, fmt) && Next(u, 0, fmt) == n
    ensures Frames(u, 0, fmt) == [FrameAt(u, 0, fmt)] + Frames(t, 0, fmt)
    ensures End(u, 0, fmt) == n + End(t, 0, fmt)
  {
    SameCut(u, n, t, 0, fmt);
  }

  lemma SameRest(u: seq<byte>, n: nat, t: seq<byte>, e: nat)
    requires EndsWith(u, n, t) && e <= |t|
    ensures u[n + e..] == t[e..]
  {
    DropTwice(u, n, e);
  }

  /** Dropping the first frame leaves the others. */
  lemma DropFrame(s: seq<byte>, fmt: Format)
    requires Whole(s, 0, fmt)
    ensures var t := s[Next(s, 0, fmt)..];
      && |t| < |s|
      && Frames(s, 0, fmt) == [FrameAt(s, 0, fmt)] + Frames(t, 0, fmt)
      && Rest(s, fmt) == Rest(t, fmt)
  {
    var n := Next(s, 0, fmt);
    FirstFrame(s, n, s[n..], fmt);
    SameRest(s, n, s[n..], End(s[n..], 0, fmt));
  }

  lemma PopIsWhole(s: seq<byte>, fmt: Format)
    ensures PopOutcome(s, fmt) == Done <==> Whole(s, 0, fmt)
    ensures !Whole(s, 0, fmt) ==> Frames(s, 0, fmt) == [] && Rest(s, fmt) == s
  {
  }

  /** The message `PopClientData` finds at `pos`; an id of a payload shorter than 2 is read from what follows it. */
  function ClientCut(s: seq<byte>, pos: nat): ClientMessage
    requires Whole(s, pos, CLIENT_ONE)
  {
    var f := FrameAt(s, pos, CLIENT_ONE);
    ClientMessage(ServerOf(f), MsgId(s, pos + MSG_CLIENT_LEN), f.body)
  }

  /** The messages repeated `PopClientData` finds from `pos` on, until it fails. */
  function ClientCuts(s: seq<byte>, pos: nat): seq<ClientMessage>
    decreases |s| - pos
  {
    if Whole(s, pos, CLIENT_ONE) then [ClientCut(s, pos)] + ClientCuts(s, Next(s, pos, CLIENT_ONE)) else []
  }

  lemma SameMsgId(u: seq<byte>, n: nat, s: seq<byte>, pos: nat)
    requires EndsWith(u, n, s)
    ensures MsgId(u, n + pos) == MsgId(s, pos)
  {
    if pos + 2 <= |s| {
      assert u[n..][pos] == u[n + pos] && u[n..][pos + 1] == u[n + pos + 1];
    }
  }

  lemma SameClientCut(u: seq<byte>, n: nat, s: seq<byte>, pos: nat)
    requires EndsWith(u, n, s)
    ensures Whole(u, n + pos, CLIENT_ONE) <==> Whole(s, pos, CLIENT_ONE)
    ensures Whole(s, pos, CLIENT_ONE) ==>
      ClientCut(u, n + pos) == ClientCut(s, pos) && Next(u, n + pos, CLIENT_ONE) == n + Next(s, pos, CLIENT_ONE)
  {
    SameWhole(u, n, s, pos, CLIENT_ONE);
    SameMsgId(u, n, s, pos + MSG_CLIENT_LEN);
  }

  lemma {:induction false} SameClientCuts(u: seq<byte>, n: nat, s: seq<byte>, pos: nat)
    requires EndsWith(u, n, s) && pos <= |s|
    ensures ClientCuts(u, n + pos) == ClientCuts(s, pos)
    decreases |s| - pos
  {
    SameClientCut(u, n, s, pos);
    if Whole(s, pos, CLIENT_ONE) {
      var next := Next(s, pos, CLIENT_ONE);
      SameClientCuts(u, n, s, next);
      assert ClientCuts(u, n + pos) == [ClientCut(u, n + pos)] + ClientCuts(u, n + next);
    }
  }

  lemma FirstClientCut(u: seq<byte>, n: nat, t: seq<byte>)
    requires EndsWith(u, n, t) && Whole(u, 0, CLIENT_ONE) && Next(u, 0, CLIENT_ONE) == n
    ensures ClientCuts(u, 0) == [ClientCut(u, 0)] + ClientCuts(t, 0)
  {
    SameClientCuts(u, n, t, 0);
  }

  lemma DropCut(s: seq<byte>)
    requires Whole(s, 0, CLIENT_ONE)
    ensures ClientCuts(s, 0) == [ClientCut(s, 0)] + ClientCuts(s[Next(s, 0, CLIENT_ONE)..], 0)
  {
    var n := Next(s, 0, CLIENT_ONE);
    FirstClientCut(s, n, s[n..]);
  }

  lemma SameTranCut(u: seq<byte>, n: nat, s: seq<byte>, pos: nat)
    requires EndsWith(u, n, s)
    ensures Whole(u, n + pos, TRAN_ONE) <==> Whole(s, pos, TRAN_ONE)
    ensures Whole(s, pos, TRAN_ONE) ==>
      TranCut(u, n + pos) == TranCut(s, pos) && Next(u, n + pos, TRAN_ONE) == n + Next(s, pos, TRAN_ONE)
  {
    SameWhole(u, n, s, pos, TRAN_ONE);
    SameMsgId(u, n, s, pos + PACKAGE_HEAD_LEN);
  }

  lemma {:induction false} SameTranCuts(u: seq<byte>, n: nat, s: seq<byte>, pos: nat)
    requires EndsWith(u, n, s) && pos <= |s|
    ensures TranCuts(u, n + pos) == TranCuts(s, pos)
    decreases |s| - pos
  {
    SameTranCut(u, n, s, pos);
    if Whole(s, pos, TRAN_ONE) {
      SameTranCuts(u, n, s, Next(s, pos, TRAN_ONE));
    }
  }

  /** `TranCuts` is what repeated `PopTranData` returns: the first packet, and then those of the bytes it leaves. */
  lemma DropTranCut(s: seq<byte>)
    ensures PopOutcome(s, TRAN_ONE) == Done ==>
      TranCuts(s, 0) == [TranView(FrameAt(s, 0, TRAN_ONE)).(msgId := MsgId(s, PACKAGE_HEAD_LEN))]
                        + TranCuts(s[Next(s, 0, TRAN_ONE)..], 0)
    ensures PopOutcome(s, TRAN_ONE) != Done ==> TranCuts(s, 0) == []
  {
    PopIsWhole(s, TRAN_ONE);
    if Whole(s, 0, TRAN_ONE) {
      var n := Next(s, 0, TRAN_ONE);
      SameTranCuts(s, n, s[n..], 0);
    }
  }

  /** Draining `s` has given `done` so far, and goes on from `now`. */
  predicate ClientDrain(s: seq<byte>, done: seq<ClientMessage>, now: seq<byte>) {
    ClientCuts(s, 0) == done + ClientCuts(now, 0) && Rest(s, CLIENT_ONE) == Rest(now, CLIENT_ONE)
  }

  lemma ClientDrainMoves(s: seq<byte>, done: seq<ClientMessage>, now: seq<byte>)
    requires ClientDrain(s, done, now)
    ensures Whole(now, 0, CLIENT_ONE) ==>
      ClientDrain(s, done + [ClientCut(now, 0)], now[Next(now, 0, CLIENT_ONE)..])
  {
    if Whole(now, 0, CLIENT_ONE) {
      DropFrame(now, CLIENT_ONE);
      DropCut(now);
      Assoc(done, [ClientCut(now, 0)], ClientCuts(now[Next(now, 0, CLIENT_ONE)..], 0));
    }
  }

  function ServerCuts(s: seq<byte>): seq<ServerPacket> {
    ServerViews(Frames(s, 0, SERVER_ONE))
  }

  lemma DropServerCut(s: seq<byte>)
    requires Whole(s, 0, SERVER_ONE)
    ensures ServerCuts(s) == [ServerView(FrameAt(s, 0, SERVER_ONE))] + ServerCuts(s[Next(s, 0, SERVER_ONE)..])
  {
    var f, fs := FrameAt(s, 0, SERVER_ONE), Frames(s[Next(s, 0, SERVER_ONE)..], 0, SERVER_ONE);
    DropFrame(s, SERVER_ONE);
    ViewsConcat([f], fs);
    assert [f][..0] == [];
    assert ServerViews([f]) == [ServerView(f)];
  }

  /** Draining `s` has given `done` so far, and goes on from `now`. */
  predicate ServerDrain(s: seq<byte>, done: seq<ServerPacket>, now: seq<byte>) {
    ServerCuts(s) == done + ServerCuts(now) && Rest(s, SERVER_ONE) == Rest(now, SERVER_ONE)
  }

  lemma ServerDrainMoves(s: seq<byte>, done: seq<ServerPacket>, now: seq<byte>)
    requires ServerDrain(s, done, now)
    ensures Whole(now, 0, SERVER_ONE) ==>
      ServerDrain(s, done + [ServerView(FrameAt(now, 0, SERVER_ONE))], now[Next(now, 0, SERVER_ONE)..])
  {
    if Whole(now, 0, SERVER_ONE) {
      DropFrame(now, SERVER_ONE);
      DropServerCut(now);
      Assoc(done, [ServerView(FrameAt(now, 0, SERVER_ONE))], ServerCuts(now[Next(now, 0, SERVER_ONE)..]));
    }
  }

  /** The center's end of a connection to a server. */
  class ServerReceiver {
    const buffer: Buffer
    var calls: seq<ServerPacket>

    constructor ()
      ensures fresh(buffer) && buffer.Valid() && fresh(buffer.buff) && buffer.Content() == []
      ensures calls == []
    {
      buffer := new Buffer();
      calls := [];
    }

    /** One round of the inner loop of `Reading`. */
    method DrainOne() returns (outcome: Outcome)
      requires buffer.Valid()
      modifies this, buffer, buffer.buff
      ensures buffer.Valid() && buffer.buff == old(buffer.buff)
      ensures var s := old(buffer.Content());
        && outcome == PopOutcome(s, SERVER_ONE)
        && (outcome == Done ==>
              && buffer.index < old(buffer.index)
              && calls == old(calls) + [ServerView(FrameAt(s, 0, SERVER_ONE))]
              && buffer.Content() == s[Next(s, 0, SERVER_ONE)..])
        && (outcome != Done ==> calls == old(calls) && buffer.Content() == s)
    {
      var pk;
      pk, outcome := buffer.PopServerData();
      if outcome == Done {
        calls := calls + [pk];
      }
    }

    /** The inner loop of `Reading`. It ends because each successful pop shrinks the buffer. */
    method Drain() returns (outcome: Outcome)
      requires buffer.Valid()
      modifies this, buffer, buffer.buff
      ensures buffer.Valid() && buffer.buff == old(buffer.buff)
      ensures var s := old(buffer.Content());
        && outcome == DrainOutcome(s, SERVER_ONE)
        && calls == old(calls) + ServerViews(Frames(s, 0, SERVER_ONE))
        && buffer.Content() == Rest(s, SERVER_ONE)
    {
      ghost var s := buffer.Content();
      ghost var done: seq<ServerPacket> := [];
      ghost var now := s;
      while !buffer.Empty()
        invariant buffer.Valid() && buffer.buff == old(buffer.buff) && buffer.Content() == now
        invariant ServerDrain(s, done, now)
        invariant calls == old(calls) + done
        decreases buffer.index
      {
        PopIsWhole(now, SERVER_ONE);
        ServerDrainMoves(s, done, now);
        outcome := DrainOne();
        if outcome != Done {
          return;
        }
        done, now := done + [ServerView(FrameAt(now, 0, SERVER_ONE))], now[Next(now, 0, SERVER_ONE)..];
      }
      PopIsWhole(buffer.Content(), SERVER_ONE);
      outcome := Done;
    }

    /** One round of `Reading`; the buffer is empty before it. */
    method Round(chunk: seq<byte>) returns (running: bool)
      requires buffer.Valid() && buffer.Content() == []
      modifies this, buffer, buffer.buff
      ensures buffer.Valid() && (buffer.buff == old(buffer.buff) || fresh(buffer.buff))
      ensures running == (DrainOutcome(chunk, SERVER_ONE) == Done)
      ensures calls == old(calls) + ServerViews(Frames(chunk, 0, SERVER_ONE))
      ensures buffer.Content() == Rest(chunk, SERVER_ONE)
    {
      buffer.PushData(chunk);
      assert buffer.Content() == chunk;
      var outcome := Drain();
      running := outcome == Done;
    }

    method Reading(chunks: seq<seq<byte>>) returns (running: bool)
      requires buffer.Valid() && buffer.Content() == []
      modifies this, buffer, buffer.buff
      ensures buffer.Valid()
      ensures var r := Receive(chunks, [], SERVER_ONE);
        running == r.alive && calls == old(calls) + ServerViews(r.frames) && buffer.Content() == r.left
    {
      ghost var was, done: seq<Frame> := calls, [];
      ReceiveBegins(chunks, SERVER_ONE);
      for i := 0 to |chunks|
        invariant buffer.Valid() && (buffer.buff == old(buffer.buff) || fresh(buffer.buff))
        invariant buffer.Content() == []
        invariant ReceiveAt(chunks, i, done, SERVER_ONE)
        invariant calls == was + ServerViews(done)
      {
        ReceiveMoves(chunks, i, done, SERVER_ONE);
        running := Round(chunks[i]);
        ViewsConcat(done, Frames(chunks[i], 0, SERVER_ONE));
        Assoc(was, ServerViews(done), ServerViews(Frames(chunks[i], 0, SERVER_ONE)));
        done := done + Frames(chunks[i], 0, SERVER_ONE);
        if !running {
          return;
        }
      }
      ReceiveEnds(chunks, done, SERVER_ONE);
      running := true;
    }
  }

  /** What is still to come of a draining run after the chunks before `i`. */
  ghost predicate ReceiveAt(chunks: seq<seq<byte>>, i: nat, done: seq<Frame>, fmt: Format) {
    i <= |chunks| && Receive(chunks, [], fmt) == After(done, Receive(chunks[i..], [], fmt))
  }

  lemma ReceiveBegins(chunks: seq<seq<byte>>, fmt: Format)
    ensures ReceiveAt(chunks, 0, [], fmt)
  {
    assert chunks[0..] == chunks;
  }

  lemma ReceiveMoves(chunks: seq<seq<byte>>, i: nat, done: seq<Frame>, fmt: Format)
    requires ReceiveAt(chunks, i, done, fmt) && i < |chunks|
    ensures DrainOutcome(chunks[i], fmt) == Done ==> ReceiveAt(chunks, i + 1, done + Frames(chunks[i], 0, fmt), fmt)
    ensures DrainOutcome(chunks[i], fmt) != Done ==>
      Receive(chunks, [], fmt) == Run(done + Frames(chunks[i], 0, fmt), Rest(chunks[i], fmt), false)
  {
    assert chunks[i..][1..] == chunks[i + 1..] && [] + chunks[i] == chunks[i];
    Assoc(done, Frames(chunks[i], 0, fmt), Receive(chunks[i + 1..], [], fmt).frames);
  }

  lemma ReceiveEnds(chunks: seq<seq<byte>>, done: seq<Frame>, fmt: Format)
    requires ReceiveAt(chunks, |chunks|, done, fmt)
    ensures Receive(chunks, [], fmt) == Run(done, [], true)
  {
    assert chunks[|chunks|..] == [];
  }

  /** A websocket message. */
  datatype Incoming = Text(data: seq<byte>) | Binary(data: seq<byte>)

  /** The first package of a client: 8 bytes that begin with a signal of 0. */
  predicate IsWelcome(data: seq<byte>)
    requires |data| == PACKAGE_HEAD_LEN
  {
    data[0] == 0 && data[1] == 0
  }

  /** The messages a client's loop passes on, whether it still waits for a first package, and whether it runs. */
  datatype Visit = Visit(calls: seq<ClientMessage>, first: bool, alive: bool)

  /** Before the first package only that counts; after it every binary message is drained on its own. */
  function ClientRun(ms: seq<Incoming>, first: bool): Visit {
    if ms == [] then Visit([], first, true)
    else
      var data, later := ms[0].data, ms[1..];
      if ms[0].Text? || (first && |data| != PACKAGE_HEAD_LEN) then ClientRun(later, first)
      else if first then if IsWelcome(data) then ClientRun(later, false) else Visit([], true, false)
      else if DrainOutcome(data, CLIENT_ONE) != Done then Visit(ClientCuts(data, 0), false, false)
      else
        var r := ClientRun(later, false);
        r.(calls := ClientCuts(data, 0) + r.calls)
  }

  /** What a client sends before its first package: text, and binary messages of other lengths. */
  predicate IsIdle(ms: seq<Incoming>) {
    forall i :: 0 <= i < |ms| ==> ms[i].Text? || |ms[i].data| != 8
  }

  /**
   The first message of 8 bytes decides: whatever comes before it is skipped, with a signal of 0 the client is admitted
   and the rest of its messages count, and with another one its connection ends.
   */
  lemma {:induction false} FirstPackageDecides(before: seq<Incoming>, signal: nat, t: seq<byte>, later: seq<Incoming>)
    requires IsIdle(before) && |t| == 6
    ensures ClientRun(before + [Binary([signal % 256, signal / 256 % 256] + t)] + later, true) ==
      if signal % 65536 == 0 then ClientRun(later, false) else Visit([], true, false)
    decreases |before|
  {
    var first := Binary([signal % 256, signal / 256 % 256] + t);
    var all := before + [first] + later;
    if before == [] {
      assert all[0] == first && all[1..] == later;
      SignalBytes(signal);
    } else {
      assert all[0] == before[0] && all[1..] == before[1..] + [first] + later;
      FirstPackageDecides(before[1..], signal, t, later);
    }
  }

  lemma SignalBytes(n: nat)
    ensures n % 65536 == 0 <==> n % 256 == 0 && n / 256 % 256 == 0
  {
    var a, b := n / 256, n % 256;
    assert n == 65536 * (a / 256) + (256 * (a % 256) + b);
  }

  /** A client that never sends such a message is not heard. */
  lemma {:induction false} IdleIsNotHeard(ms: seq<Incoming>)
    requires IsIdle(ms)
    ensures ClientRun(ms, true) == Visit([], true, true)
  {
    if ms != [] {
      IdleIsNotHeard(ms[1..]);
    }
  }

  /** A visit that has passed on `done` and goes on as `v`. */
  function Since(done: seq<ClientMessage>, v: Visit): Visit {
    v.(calls := done + v.calls)
  }

  /** What is still to come of a visit after the messages before `i`. */
  ghost predicate VisitAt(ms: seq<Incoming>, start: bool, i: nat, done: seq<ClientMessage>, first: bool) {
    i <= |ms| && ClientRun(ms, start) == Since(done, ClientRun(ms[i..], first))
  }

  lemma VisitBegins(ms: seq<Incoming>, start: bool)
    ensures VisitAt(ms, start, 0, [], start)
  {
    assert ms[0..] == ms;
  }

  lemma VisitMoves(ms: seq<Incoming>, start: bool, i: nat, done: seq<ClientMessage>, first: bool)
    requires VisitAt(ms, start, i, done, first) && i < |ms|
    ensures var data := ms[i].data;
      if ms[i].Text? || (first && |data| != PACKAGE_HEAD_LEN) then VisitAt(ms, start, i + 1, done, first)
      else if first then
        if IsWelcome(data) then VisitAt(ms, start, i + 1, done, false)
        else ClientRun(ms, start) == Visit(done, true, false)
      else if DrainOutcome(data, CLIENT_ONE) != Done then
        ClientRun(ms, start) == Visit(done + ClientCuts(data, 0), false, false)
      else VisitAt(ms, start, i + 1, done + ClientCuts(data, 0), false)
  {
    assert ms[i..][0] == ms[i] && ms[i..][1..] == ms[i + 1..];
    assert done + [] == done;
    Assoc(done, ClientCuts(ms[i].data, 0), ClientRun(ms[i + 1..], false).calls);
  }

  lemma VisitEnds(ms: seq<Incoming>, start: bool, done: seq<ClientMessage>, first: bool)
    requires VisitAt(ms, start, |ms|, done, first)
    ensures ClientRun(ms, start) == Visit(done, first, true)
  {
    assert ms[|ms|..] == [] && done + [] == done;
  }

  /** The gate's end of a websocket connection to a client. */
  class ClientReceiver {
    const buffer: Buffer
    var calls: seq<ClientMessage>
    var firstPackage: bool

    constructor ()
      ensures fresh(buffer) && buffer.Valid() && fresh(buffer.buff) && buffer.Content() == []
      ensures calls == [] && firstPackage
    {
      buffer := new Buffer();
      calls, firstPackage := [], true;
    }

    method Drain() returns (outcome: Outcome)
      requires buffer.Valid()
      modifies this`calls, buffer, buffer.buff
      ensures buffer.Valid() && buffer.buff == old(buffer.buff)
      ensures var s := old(buffer.Content());
        && outcome == DrainOutcome(s, CLIENT_ONE)
        && calls == old(calls) + ClientCuts(s, 0)
        && buffer.Content() == Rest(s, CLIENT_ONE)
    {
      ghost var s := buffer.Content();
      ghost var done: seq<ClientMessage> := [];
      while !buffer.Empty()
        invariant buffer.Valid() && buffer.buff == old(buffer.buff)
        invariant ClientDrain(s, done, buffer.Content())
        invariant calls == old(calls) + done
        decreases buffer.index
      {
        PopIsWhole(buffer.Content(), CLIENT_ONE);
        ClientDrainMoves(s, done, buffer.Content());
        var m;
        m, outcome := buffer.PopClientData();
        if outcome != Done {
          return;
        }
        done := done + [m];
        calls := calls + [m];
      }
      PopIsWhole(buffer.Content(), CLIENT_ONE);
      outcome := Done;
    }

    /** One round of `Reading`; the buffer is empty before it. */
    method Round(m: Incoming) returns (running: bool)
      requires buffer.Valid() && buffer.Content() == []
      modifies this, buffer, buffer.buff
      ensures buffer.Valid() && (buffer.buff == old(buffer.buff) || fresh(buffer.buff))
      ensures var was, skipped := old(calls), m.Text? || (old(firstPackage) && |m.data| != PACKAGE_HEAD_LEN);
        if skipped then running && firstPackage == old(firstPackage) && calls == was
        else if old(firstPackage) then running == IsWelcome(m.data) && firstPackage == !running && calls == was
        else
          && running == (DrainOutcome(m.data, CLIENT_ONE) == Done)
          && !firstPackage && calls == was + ClientCuts(m.data, 0)
      ensures running ==> buffer.Content() == []
    {
      running := true;
      if m.Text? {
        return;
      }
      if firstPackage {
        if |m.data| == PACKAGE_HEAD_LEN {
          running := m.data[0] == 0 && m.data[1] == 0;
          firstPackage := !running;
        }
        return;
      }
      running := Receive(m.data);
    }

    /** A message after the first package. */
    method Receive(data: seq<byte>) returns (running: bool)
      requires buffer.Valid() && buffer.Content() == []
      modifies this`calls, buffer, buffer.buff
      ensures buffer.Valid() && (buffer.buff == old(buffer.buff) || fresh(buffer.buff))
      ensures running == (DrainOutcome(data, CLIENT_ONE) == Done)
      ensures calls == old(calls) + ClientCuts(data, 0) && buffer.Content() == Rest(data, CLIENT_ONE)
    {
      buffer.PushData(data);
      assert buffer.Content() == data;
      var outcome := Drain();
      running := outcome == Done;
    }

    method Reading(ms: seq<Incoming>) returns (running: bool)
      requires buffer.Valid() && buffer.Content() == []
      modifies this, buffer, buffer.buff
      ensures buffer.Valid()
      ensures var v := ClientRun(ms, old(firstPackage));
        running == v.alive && calls == old(calls) + v.calls && firstPackage == v.first
    {
      ghost var was, start := calls, firstPackage;
      ghost var done: seq<ClientMessage> := [];
      VisitBegins(ms, start);
      for i := 0 to |ms|
        invariant buffer.Valid() && (buffer.buff == old(buffer.buff) || fresh(buffer.buff))
        invariant buffer.Content() == [] && calls == was + done
        invariant VisitAt(ms, start, i, done, firstPackage)
      {
        VisitMoves(ms, start, i, done, firstPackage);
        ghost var drained := !firstPackage && ms[i].Binary?;
        running := Round(ms[i]);
        if drained {
          Assoc(was, done, ClientCuts(ms[i].data, 0));
          done := done + ClientCuts(ms[i].data, 0);
        }
        if !running {
          return;
        }
      }
      VisitEnds(ms, start, done, firstPackage);
      running := true;
    }
  }
}
