/** Replies cut into chunks: a client that pops groups of them with `PopClientGroup`, at whatever times. */
module ReplyStreams {
  import opened Bytes
  import opened Seqs
  import opened Wire
  import opened Buffers
  import opened Streams

  /** A failing pop ends the client and delivers nothing of that pop. */
  function ProcessReplies(evs: seq<Arrival>, buf: seq<byte>): Run {
    if evs == [] then Run([], buf, true)
    else
      var b := buf + evs[0].data;
      if !evs[0].pop then ProcessReplies(evs[1..], b)
      else if ReplyOutcome(b) != Done then Run([], b, false)
      else
        var r := ProcessReplies(evs[1..], Rest(b, REPLY_GROUP));
        Run(Frames(b, 0, REPLY_GROUP) + r.frames, r.left, r.alive)
  }

  /** No pop of the schedule finds a single byte in the buffer, which holds `n` bytes at first. */
  predicate NeverOneByte(fs: seq<Frame>, evs: seq<Arrival>, n: nat)
    decreases |evs|
  {
    evs != [] ==>
      var m := n + |evs[0].data|;
      if !evs[0].pop then NeverOneByte(fs, evs[1..], m)
      else
        var k := Completed(fs, m);
        m != 1 && Span(fs[..k]) <= m && NeverOneByte(fs[k..], evs[1..], m - Span(fs[..k]))
  }

  /**
   On all bytes, whole replies and a rest that begins with none: the decoder of replies panics exactly when what it
   finds behind them neither is nothing nor looks cut; a single byte does only behind a reply.
   */
  lemma ReplyFailsExactly(fs: seq<Frame>, t: seq<byte>)
    requires AllFit(fs, REPLY_GROUP) && !Whole(t, 0, REPLY_GROUP)
    ensures var s := EncodeAll(fs) + t;
      && ReplyOutcome(s) == (
           if t == [] || (|t| == 1 && fs != []) || (|t| >= 2 && S16At(t, 0) > if |t| <= 6 then 0 else |t| - 6)
           then Done else Panicked)
      && (ReplyOutcome(s) == Done ==> Frames(s, 0, REPLY_GROUP) == fs && Rest(s, REPLY_GROUP) == t)
  {
    var e := EncodeAll(fs);
    CutIsUnique(fs, t, REPLY_GROUP);
    DropPrefix(e, t);
    assert fs != [] ==> |e| >= |Encode(fs[0])| > 0;
    if |t| >= 2 {
      SameSize(e + t, |e|, t, 0);
    }
  }

  /** One pop on a stream of replies: it panics exactly at a single byte. */
  lemma ReplyStep(fs: seq<Frame>, b: seq<byte>, later: seq<byte>)
    requires AllFit(fs, REPLY_GROUP) && b + later == EncodeAll(fs)
    ensures ReplyOutcome(b) == Done <==> |b| != 1
    ensures var k, rest := Completed(fs, |b|), Rest(b, REPLY_GROUP);
      && Frames(b, 0, REPLY_GROUP) == fs[..k]
      && Span(fs[..k]) <= |b| && |rest| == |b| - Span(fs[..k])
      && rest + later == EncodeAll(fs[k..])
  {
    PrefixCut(fs, b, later, REPLY_GROUP);
    PrefixOutcomes(fs, b, later, REPLY_GROUP);
  }

  lemma {:induction false} RepliesConserve(evs: seq<Arrival>, buf: seq<byte>)
    requires ProcessReplies(evs, buf).alive
    ensures var r := ProcessReplies(evs, buf);
      EncodeAll(r.frames) + r.left == buf + Arrived(evs) && AllFit(r.frames, REPLY_GROUP)
    decreases |evs|
  {
    if evs != [] {
      var b, tail := buf + evs[0].data, Arrived(evs[1..]);
      Assoc(buf, evs[0].data, tail);
      if evs[0].pop {
        var frames, rest := Frames(b, 0, REPLY_GROUP), Rest(b, REPLY_GROUP);
        RepliesConserve(evs[1..], rest);
        var r := ProcessReplies(evs[1..], rest);
        CutIsExact(b, 0, REPLY_GROUP);
        CutJoins(b, REPLY_GROUP);
        EncodeAllAppend(frames, r.frames);
        Glue(EncodeAll(frames), EncodeAll(r.frames), b, rest, r.left, tail);
      } else {
        RepliesConserve(evs[1..], b);
      }
    }
  }

  /** After a last pop no whole frame is left. */
  lemma {:induction false} NoFrameIsLeft(evs: seq<Arrival>, buf: seq<byte>)
    requires ProcessReplies(evs, buf).alive && evs != [] && evs[|evs| - 1].pop
    ensures !Whole(ProcessReplies(evs, buf).left, 0, REPLY_GROUP)
    decreases |evs|
  {
    var b, later := buf + evs[0].data, evs[1..];
    if later == [] {
      SameWhole(b, End(b, 0, REPLY_GROUP), Rest(b, REPLY_GROUP), 0, REPLY_GROUP);
    } else {
      assert later[|later| - 1] == evs[|evs| - 1];
      NoFrameIsLeft(later, if evs[0].pop then Rest(b, REPLY_GROUP) else b);
    }
  }

  lemma {:induction false} RepliesByLengths(fs: seq<Frame>, evs: seq<Arrival>, buf: seq<byte>, future: seq<byte>)
    requires AllFit(fs, REPLY_GROUP) && buf + (Arrived(evs) + future) == EncodeAll(fs)
    ensures var r := ProcessReplies(evs, buf); (r.alive <==> NeverOneByte(fs, evs, |buf|)) && r.frames <= fs
    decreases |evs|
  {
    if evs != [] {
      var b, later := buf + evs[0].data, Arrived(evs[1..]) + future;
      Assoc(evs[0].data, Arrived(evs[1..]), future);
      Assoc(buf, evs[0].data, later);
      if !evs[0].pop {
        RepliesByLengths(fs, evs[1..], b, future);
      } else {
        ReplyStep(fs, b, later);
        var k, rest := Completed(fs, |b|), Rest(b, REPLY_GROUP);
        RepliesByLengths(fs[k..], evs[1..], rest, future);
        PrefixJoin(fs, k, ProcessReplies(evs[1..], rest).frames);
      }
    }
  }

  /**
   Chunks and the times of pops do not matter to a client, either: on a stream of replies, it survives exactly when no
   pop finds a single byte; it gets the replies in order, and after a last pop exactly those completed by then, with
   exactly the bytes after them left in the buffer.
   */
  lemma ChunkedReplies(fs: seq<Frame>, evs: seq<Arrival>, future: seq<byte>)
    requires AllFit(fs, REPLY_GROUP) && Arrived(evs) + future == EncodeAll(fs)
    ensures var r := ProcessReplies(evs, []);
      && (r.alive <==> NeverOneByte(fs, evs, 0))
      && r.frames <= fs
      && (r.alive ==> EncodeAll(r.frames) + r.left == Arrived(evs))
      && (r.alive && evs != [] && evs[|evs| - 1].pop ==> r.frames == fs[..Completed(fs, |Arrived(evs)|)])
  {
    var r, s := ProcessReplies(evs, []), Arrived(evs);
    EmptyLeft(s + future);
    EmptyLeft(s);
    RepliesByLengths(fs, evs, [], future);
    if r.alive {
      RepliesConserve(evs, []);
      if evs != [] && evs[|evs| - 1].pop {
        NoFrameIsLeft(evs, []);
        CutIsUnique(r.frames, r.left, REPLY_GROUP);
        PrefixCut(fs, s, future, REPLY_GROUP);
      }
    }
  }
}
