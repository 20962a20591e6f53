/**
 The receiving loops: how a stream of frames survives being cut into arbitrary chunks.

 `ClientLink.Processing` and `TranConn.Processing` batch chunks and pop groups of frames;
 `ServerLink.Reading` and `WSConn.Reading` drain the buffer one frame at a time after every chunk.
 */
module Streams {
  import opened Bytes
  import opened Seqs
  import opened Wire
  import opened Buffers

  /** A chunk taken from the channel, and whether the channel is empty then, so that the loop pops. */
  datatype Arrival = Arrival(data: seq<byte>, pop: bool)

  /** The frames a loop delivered, the bytes left in its buffer, and whether it is still running. */
  datatype Run = Run(frames: seq<Frame>, left: seq<byte>, alive: bool)

  function Arrived(evs: seq<Arrival>): seq<byte> {
    if evs == [] then [] else evs[0].data + Arrived(evs[1..])
  }

  function Concat(chunks: seq<seq<byte>>): seq<byte> {
    if chunks == [] then [] else chunks[0] + Concat(chunks[1..])
  }

  /** The batching loop: a failing pop ends it and delivers nothing of that pop. */
  function Process(evs: seq<Arrival>, buf: seq<byte>): Run {
    if evs == [] then Run([], buf, true)
    else
      var b := buf + evs[0].data;
      if !evs[0].pop then Process(evs[1..], b)
      else if GroupOutcome(b, BadSize) != Done then Run([], b, false)
      else
        var r := Process(evs[1..], Rest(b, SERVER_GROUP));
        Run(Frames(b, 0, SERVER_GROUP) + r.frames, r.left, r.alive)
  }

  /** How popping frame by frame until the buffer is empty ends. */
  function DrainOutcome(s: seq<byte>, fmt: Format): Outcome {
    if Rest(s, fmt) == [] then Done else PopOutcome(Rest(s, fmt), fmt)
  }

  /** The draining loop: a failing pop ends it after the frames before it were delivered. */
  function Receive(chunks: seq<seq<byte>>, buf: seq<byte>, fmt: Format): Run {
    if chunks == [] then Run([], buf, true)
    else
      var b := buf + chunks[0];
      var frames := Frames(b, 0, fmt);
      if DrainOutcome(b, fmt) != Done then Run(frames, Rest(b, fmt), false)
      else
        var r := Receive(chunks[1..], [], fmt);
        Run(frames + r.frames, r.left, r.alive)
  }

  // ---- When the loops survive, in terms of lengths alone ----

  /** Every pop of the schedule finds at least a header's length in the buffer, which holds `n` bytes at first. */
  predicate Fed(fs: seq<Frame>, evs: seq<Arrival>, n: nat)
    decreases |evs|
  {
    evs != [] ==>
      var m := n + |evs[0].data|;
      if !evs[0].pop then Fed(fs, evs[1..], m)
      else
        var k := Completed(fs, m);
        && m >= PACKAGE_HEAD_LEN
        && Span(fs[..k]) <= m
        && Fed(fs[k..], evs[1..], m - Span(fs[..k]))
  }

  /** How many frames the pops of the schedule deliver. */
  function Delivered(fs: seq<Frame>, evs: seq<Arrival>, n: nat): (d: nat)
    ensures d <= |fs|
    decreases |evs|
  {
    if evs == [] then 0
    else
      var m := n + |evs[0].data|;
      if !evs[0].pop then Delivered(fs, evs[1..], m)
      else
        var k := Completed(fs, m);
        if m < PACKAGE_HEAD_LEN || m < Span(fs[..k]) then 0
        else k + Delivered(fs[k..], evs[1..], m - Span(fs[..k]))
  }

  /** The first `n` bytes of the stream end between two frames. */
  predicate Aligned(fs: seq<Frame>, n: nat) {
    Span(fs[..Completed(fs, n)]) == n
  }

  /** Every chunk ends between two frames, when the first chunk starts `n` bytes into the stream. */
  predicate AllAligned(fs: seq<Frame>, chunks: seq<seq<byte>>, n: nat)
    decreases |chunks|
  {
    chunks != [] ==> Aligned(fs, n + |chunks[0]|) && AllAligned(fs, chunks[1..], n + |chunks[0]|)
  }

  // ---- A prefix of a well-formed stream is never taken for a bad frame ----

  lemma CutFrameOutcome(f: Frame, j: nat, fmt: Format)
    requires Fits(f, fmt) && j < |Encode(f)|
    ensures var t := Encode(f)[..j];
      && PopOutcome(t, fmt) in {TooShort, Incomplete}
      && (j >= 2 ==> S16At(t, 0) == |f.body|)
  {
    EncodedIsWhole(f, [], fmt);
    assert Encode(f) + [] == Encode(f);
  }

  lemma PrefixOutcomes(fs: seq<Frame>, b: seq<byte>, future: seq<byte>, fmt: Format)
    requires AllFit(fs, fmt) && b + future == EncodeAll(fs)
    ensures fmt.lo >= 1 ==> EndingAt(b, End(b, 0, fmt), 2, fmt) != Bad
    ensures Rest(b, fmt) != [] ==> PopOutcome(Rest(b, fmt), fmt) in {TooShort, Incomplete}
  {
    var k, rest, e := Completed(fs, |b|), Rest(b, fmt), End(b, 0, fmt);
    PrefixCut(fs, b, future, fmt);
    if rest != [] {
      CutFrameOutcome(fs[k], |rest|, fmt);
      assert |rest| >= 2 ==> S16At(b, e) == S16At(rest, 0);
    }
  }

  lemma {:induction false} CompletedAfter(fs: seq<Frame>, k: nat, n: nat)
    requires k <= |fs| && n >= Span(fs[..k])
    ensures Completed(fs, n) == k + Completed(fs[k..], n - Span(fs[..k]))
  {
    if k == 0 {
      assert fs[0..] == fs && fs[..0] == [];
    } else {
      assert fs[..k][1..] == fs[1..][..k - 1];
      CompletedAfter(fs[1..], k - 1, n - |Encode(fs[0])|);
      assert fs[1..][k - 1..] == fs[k..];
    }
  }

  lemma {:induction false} AllCompleted(fs: seq<Frame>)
    ensures Completed(fs, |EncodeAll(fs)|) == |fs|
  {
    if fs != [] {
      AllCompleted(fs[1..]);
    }
  }

  // ---- Chunking and batching ----

  /** What the group decoders take for the first part of a frame: they do not ask whether the size is a good one. */
  predicate LooksCut(t: seq<byte>) {
    |t| == 1 || (|t| >= 2 && S16At(t, 0) > if |t| <= 8 then 0 else |t| - 8)
  }

  /**
   On all bytes, whole frames and a rest that begins with none: the group decoders fail exactly on less than 8 bytes,
   or when what they find behind the frames neither is nothing nor looks cut.
   */
  lemma GroupFailsExactly(fs: seq<Frame>, t: seq<byte>)
    requires AllFit(fs, SERVER_GROUP) && !Whole(t, 0, SERVER_GROUP)
    ensures var s := EncodeAll(fs) + t;
      && GroupOutcome(s, BadSize) ==
           (if |s| < 8 then TooShort else if t == [] || LooksCut(t) then Done else BadSize)
      && (GroupOutcome(s, BadSize) == Done ==> Frames(s, 0, SERVER_GROUP) == fs && Rest(s, SERVER_GROUP) == t)
  {
    var e := EncodeAll(fs);
    CutIsUnique(fs, t, SERVER_GROUP);
    DropPrefix(e, t);
    if |t| >= 2 {
      SameSize(e + t, |e|, t, 0);
    }
  }

  /** A group decoder that fails delivers nothing, not even the whole frames in front, and changes nothing. */
  lemma FailingPopDeliversNothing(fs: seq<Frame>, t: seq<byte>)
    requires AllFit(fs, SERVER_GROUP) && !Whole(t, 0, SERVER_GROUP)
    requires var s := EncodeAll(fs) + t; |s| < 8 || (t != [] && !LooksCut(t))
    ensures var s := EncodeAll(fs) + t; Process([Arrival(s, true)], []) == Run([], s, false)
  {
    GroupFailsExactly(fs, t);
    EmptyLeft(EncodeAll(fs) + t);
  }

  /** Whatever bytes arrive, a batching loop that is still running has lost and invented none. */
  lemma {:induction false} ProcessConserves(evs: seq<Arrival>, buf: seq<byte>)
    requires Process(evs, buf).alive
    ensures var r := Process(evs, buf); EncodeAll(r.frames) + r.left == buf + Arrived(evs)
    decreases |evs|
  {
    if evs != [] {
      var b, tail := buf + evs[0].data, Arrived(evs[1..]);
      Assoc(buf, evs[0].data, tail);
      if evs[0].pop {
        var frames, rest := Frames(b, 0, SERVER_GROUP), Rest(b, SERVER_GROUP);
        ProcessConserves(evs[1..], rest);
        var r := Process(evs[1..], rest);
        CutJoins(b, SERVER_GROUP);
        EncodeAllAppend(frames, r.frames);
        Glue(EncodeAll(frames), EncodeAll(r.frames), b, rest, r.left, tail);
      } else {
        ProcessConserves(evs[1..], b);
      }
    }
  }

  /** It delivers nothing but frames of accepted sizes. */
  lemma {:induction false} ProcessFits(evs: seq<Arrival>, buf: seq<byte>)
    ensures AllFit(Process(evs, buf).frames, SERVER_GROUP)
    decreases |evs|
  {
    if evs != [] {
      var b := buf + evs[0].data;
      if evs[0].pop {
        CutIsExact(b, 0, SERVER_GROUP);
        ProcessFits(evs[1..], Rest(b, SERVER_GROUP));
      } else {
        ProcessFits(evs[1..], b);
      }
    }
  }

  /** What a decoder keeps: no whole frame, and nothing it would call a bad one. */
  predicate Kept(left: seq<byte>) {
    !Whole(left, 0, SERVER_GROUP) && EndingAt(left, 0, 2, SERVER_GROUP) != Bad
  }

  lemma RestIsKept(b: seq<byte>)
    requires GroupOutcome(b, BadSize) == Done
    ensures Kept(Rest(b, SERVER_GROUP))
  {
    var e, left := End(b, 0, SERVER_GROUP), Rest(b, SERVER_GROUP);
    SameWhole(b, e, left, 0, SERVER_GROUP);
    if |left| >= 2 {
      SameSize(b, e, left, 0);
    }
  }

  /** A loop that survives a last pop has nothing left but the first part of a frame. */
  lemma {:induction false} SurvivorKeeps(evs: seq<Arrival>, buf: seq<byte>)
    requires Process(evs, buf).alive && evs != [] && evs[|evs| - 1].pop
    ensures Kept(Process(evs, buf).left)
    decreases |evs|
  {
    var b, later := buf + evs[0].data, evs[1..];
    var now := if evs[0].pop then Rest(b, SERVER_GROUP) else b;
    if later == [] {
      RestIsKept(b);
    } else {
      assert later[|later| - 1] == evs[|evs| - 1];
      SurvivorKeeps(later, now);
    }
  }

  /** So it cannot have got past bytes that begin with a header of a bad size. */
  lemma BadSizeEndsTheLoop(fs: seq<Frame>, bad: seq<byte>, evs: seq<Arrival>)
    requires AllFit(fs, SERVER_GROUP) && !Whole(bad, 0, SERVER_GROUP) && !Kept(bad)
    requires Arrived(evs) == EncodeAll(fs) + bad && evs != [] && evs[|evs| - 1].pop
    ensures !Process(evs, []).alive
  {
    var r := Process(evs, []);
    if r.alive {
      ProcessConserves(evs, []);
      ProcessFits(evs, []);
      SurvivorKeeps(evs, []);
      EmptyLeft(Arrived(evs));
      CutIsUnique(r.frames, r.left, SERVER_GROUP);
      CutIsUnique(fs, bad, SERVER_GROUP);
    }
  }

  /** One pop of the batching loop on a stream of frames. */
  lemma GroupStep(fs: seq<Frame>, b: seq<byte>, later: seq<byte>)
    requires AllFit(fs, SERVER_GROUP) && b + later == EncodeAll(fs)
    ensures var k, rest := Completed(fs, |b|), Rest(b, SERVER_GROUP);
      && (GroupOutcome(b, BadSize) == Done <==> |b| >= PACKAGE_HEAD_LEN)
      && Frames(b, 0, SERVER_GROUP) == fs[..k]
      && Span(fs[..k]) <= |b| && |rest| == |b| - Span(fs[..k])
      && rest + later == EncodeAll(fs[k..])
  {
    PrefixCut(fs, b, later, SERVER_GROUP);
    PrefixOutcomes(fs, b, later, SERVER_GROUP);
  }

  /** The batching loop on a stream of frames is described by lengths alone. */
  ghost predicate ByLengths(fs: seq<Frame>, evs: seq<Arrival>, buf: seq<byte>) {
    && (Process(evs, buf).alive <==> Fed(fs, evs, |buf|))
    && Process(evs, buf).frames == fs[..Delivered(fs, evs, |buf|)]
  }

  /** One pop of the schedule, in lengths: `k` frames go, and `left` bytes stay. */
  lemma FedStep(fs: seq<Frame>, evs: seq<Arrival>, n: nat, k: nat, left: nat)
    requires evs != [] && evs[0].pop && k == Completed(fs, n + |evs[0].data|)
    requires left + Span(fs[..k]) == n + |evs[0].data|
    ensures Fed(fs, evs, n) <==> n + |evs[0].data| >= PACKAGE_HEAD_LEN && Fed(fs[k..], evs[1..], left)
    ensures Delivered(fs, evs, n) ==
      if n + |evs[0].data| < PACKAGE_HEAD_LEN then 0 else k + Delivered(fs[k..], evs[1..], left)
  {
  }

  lemma ProcessStep(evs: seq<Arrival>, buf: seq<byte>)
    requires evs != [] && evs[0].pop
    ensures var b := buf + evs[0].data;
      var r := Process(evs[1..], Rest(b, SERVER_GROUP));
      Process(evs, buf) ==
        if GroupOutcome(b, BadSize) != Done then Run([], b, false)
        else Run(Frames(b, 0, SERVER_GROUP) + r.frames, r.left, r.alive)
  {
  }

  /** If it is after the first pop, it is before it. */
  lemma PopByLengths(fs: seq<Frame>, evs: seq<Arrival>, buf: seq<byte>, later: seq<byte>)
    requires AllFit(fs, SERVER_GROUP) && evs != [] && evs[0].pop
    requires buf + evs[0].data + later == EncodeAll(fs)
    requires var b := buf + evs[0].data;
      |b| >= PACKAGE_HEAD_LEN ==> ByLengths(fs[Completed(fs, |b|)..], evs[1..], Rest(b, SERVER_GROUP))
    ensures ByLengths(fs, evs, buf)
  {
    var b := buf + evs[0].data;
    var k, rest := Completed(fs, |b|), Rest(b, SERVER_GROUP);
    GroupStep(fs, b, later);
    ProcessStep(evs, buf);
    FedStep(fs, evs, |buf|, k, |rest|);
    if |b| >= PACKAGE_HEAD_LEN {
      SlicesJoin(fs, k, Delivered(fs[k..], evs[1..], |rest|));
    }
  }

  lemma {:induction false} ProcessByLengths(fs: seq<Frame>, evs: seq<Arrival>, buf: seq<byte>, future: seq<byte>)
    requires AllFit(fs, SERVER_GROUP)
    requires buf + (Arrived(evs) + future) == EncodeAll(fs)
    ensures ByLengths(fs, evs, buf)
    decreases |evs|
  {
    if evs != [] {
      var b, later := buf + evs[0].data, Arrived(evs[1..]) + future;
      Assoc(evs[0].data, Arrived(evs[1..]), future);
      Assoc(buf, evs[0].data, later);
      if !evs[0].pop {
        ProcessByLengths(fs, evs[1..], b, future);
      } else {
        GroupStep(fs, b, later);
        if |b| >= PACKAGE_HEAD_LEN {
          ProcessByLengths(fs[Completed(fs, |b|)..], evs[1..], Rest(b, SERVER_GROUP), future);
        }
        PopByLengths(fs, evs, buf, later);
      }
    }
  }

  /** When the schedule feeds every pop, its last pop delivers all the frames completed by then. */
  lemma {:induction false} LastPopDelivers(fs: seq<Frame>, evs: seq<Arrival>, n: nat)
    requires Fed(fs, evs, n) && evs != [] && evs[|evs| - 1].pop
    ensures Delivered(fs, evs, n) == Completed(fs, n + |Arrived(evs)|)
    decreases |evs|
  {
    var m := n + |evs[0].data|;
    var later := evs[1..];
    assert |Arrived(evs)| == |evs[0].data| + |Arrived(later)|;
    if later != [] {
      assert later[|later| - 1] == evs[|evs| - 1];
    }
    if evs[0].pop {
      var k := Completed(fs, m);
      if later != [] {
        LastPopDelivers(fs[k..], later, m - Span(fs[..k]));
        CompletedAfter(fs, k, n + |Arrived(evs)|);
      }
    } else {
      LastPopDelivers(fs, later, m);
    }
  }

  /**
   Chunking and batching do not matter: on a stream of frames, the loop survives exactly when every pop
   finds 8 bytes; it delivers frames in order, and after a last pop exactly those completed by then, with
   exactly the bytes after them left in the buffer.
   */
  lemma ChunkingIsTransparent(fs: seq<Frame>, evs: seq<Arrival>, future: seq<byte>)
    requires AllFit(fs, SERVER_GROUP)
    requires Arrived(evs) + future == EncodeAll(fs)
    ensures var r := Process(evs, []);
      && (r.alive <==> Fed(fs, evs, 0))
      && r.frames <= fs
      && (r.alive ==> EncodeAll(r.frames) + r.left == Arrived(evs))
      && (r.alive && evs != [] && evs[|evs| - 1].pop ==> r.frames == fs[..Completed(fs, |Arrived(evs)|)])
  {
    EmptyLeft(Arrived(evs) + future);
    ProcessByLengths(fs, evs, [], future);
    if Process(evs, []).alive {
      ProcessConserves(evs, []);
      EmptyLeft(Arrived(evs));
      if evs != [] && evs[|evs| - 1].pop {
        LastPopDelivers(fs, evs, 0);
      }
    }
  }

  // ---- Draining after every chunk ----

  /** Whatever bytes arrive, a draining loop that is still running has lost and invented none. */
  lemma {:induction false} ReceiveConserves(chunks: seq<seq<byte>>, buf: seq<byte>, fmt: Format)
    requires Receive(chunks, buf, fmt).alive
    ensures var r := Receive(chunks, buf, fmt); EncodeAll(r.frames) + r.left == buf + Concat(chunks)
    decreases |chunks|
  {
    if chunks != [] {
      var b, tail := buf + chunks[0], Concat(chunks[1..]);
      Assoc(buf, chunks[0], tail);
      var frames := Frames(b, 0, fmt);
      ReceiveConserves(chunks[1..], [], fmt);
      var r := Receive(chunks[1..], [], fmt);
      CutJoins(b, fmt);
      EncodeAllAppend(frames, r.frames);
      Glue(EncodeAll(frames), EncodeAll(r.frames), b, [], r.left, tail);
    }
  }

  /** One round of the draining loop on a stream of frames. */
  lemma DrainStep(fs: seq<Frame>, b: seq<byte>, later: seq<byte>, fmt: Format)
    requires AllFit(fs, fmt) && b + later == EncodeAll(fs)
    ensures var k := Completed(fs, |b|);
      && Frames(b, 0, fmt) == fs[..k]
      && (DrainOutcome(b, fmt) == Done <==> Aligned(fs, |b|))
      && (Aligned(fs, |b|) ==> later == EncodeAll(fs[k..]))
  {
    PrefixCut(fs, b, later, fmt);
    PrefixOutcomes(fs, b, later, fmt);
    assert [] + later == later;
  }

  lemma ReceiveFirst(chunks: seq<seq<byte>>, fmt: Format)
    requires chunks != []
    ensures var b, r := chunks[0], Receive(chunks[1..], [], fmt);
      Receive(chunks, [], fmt) ==
        if DrainOutcome(b, fmt) != Done then Run(Frames(b, 0, fmt), Rest(b, fmt), false)
        else Run(Frames(b, 0, fmt) + r.frames, r.left, r.alive)
  {
    assert [] + chunks[0] == chunks[0];
  }

  lemma AlignedFirst(fs: seq<Frame>, chunks: seq<seq<byte>>)
    requires chunks != []
    ensures var n := |chunks[0]|;
      AllAligned(fs, chunks, 0) <==> Aligned(fs, n) && AllAligned(fs[Completed(fs, n)..], chunks[1..], 0)
  {
    AlignedAfter(fs, Completed(fs, |chunks[0]|), chunks[1..], 0);
  }

  lemma {:induction false} ReceiveByLengths(fs: seq<Frame>, chunks: seq<seq<byte>>, future: seq<byte>, fmt: Format)
    requires AllFit(fs, fmt)
    requires Concat(chunks) + future == EncodeAll(fs)
    ensures var r := Receive(chunks, [], fmt);
      && (r.alive <==> AllAligned(fs, chunks, 0))
      && r.frames <= fs
      && (r.alive ==> r.left == [])
    decreases |chunks|
  {
    if chunks != [] {
      var b, later := chunks[0], Concat(chunks[1..]) + future;
      Assoc(b, Concat(chunks[1..]), future);
      DrainStep(fs, b, later, fmt);
      ReceiveFirst(chunks, fmt);
      AlignedFirst(fs, chunks);
      if Aligned(fs, |b|) {
        var k := Completed(fs, |b|);
        ReceiveByLengths(fs[k..], chunks[1..], future, fmt);
        PrefixJoin(fs, k, Receive(chunks[1..], [], fmt).frames);
      }
    }
  }

  /**
   A draining loop does depend on the chunks: it delivers the frames in order, but it survives exactly when
   every chunk ends between two frames.
   */
  lemma DrainingNeedsAlignment(fs: seq<Frame>, chunks: seq<seq<byte>>, future: seq<byte>, fmt: Format)
    requires AllFit(fs, fmt)
    requires Concat(chunks) + future == EncodeAll(fs)
    ensures var r := Receive(chunks, [], fmt);
      && (r.alive <==> AllAligned(fs, chunks, 0))
      && r.frames <= fs
      && (r.alive ==> EncodeAll(r.frames) == Concat(chunks) && r.left == [])
  {
    ReceiveByLengths(fs, chunks, future, fmt);
    if Receive(chunks, [], fmt).alive {
      ReceiveConserves(chunks, [], fmt);
      var sent := EncodeAll(Receive(chunks, [], fmt).frames);
      assert sent + [] == sent && [] + Concat(chunks) == Concat(chunks);
    }
  }

  /** A chunk that ends within a frame costs the draining loop a frame. */
  lemma {:induction false} MisalignedLoses(fs: seq<Frame>, chunks: seq<seq<byte>>, fmt: Format)
    requires AllFit(fs, fmt) && Concat(chunks) == EncodeAll(fs) && !AllAligned(fs, chunks, 0)
    ensures |Receive(chunks, [], fmt).frames| < |fs|
    decreases |chunks|
  {
    var b, later := chunks[0], Concat(chunks[1..]);
    DrainStep(fs, b, later, fmt);
    ReceiveFirst(chunks, fmt);
    AlignedFirst(fs, chunks);
    var k := Completed(fs, |b|);
    if Aligned(fs, |b|) {
      MisalignedLoses(fs[k..], chunks[1..], fmt);
    } else if k == |fs| {
      AlignedAtEnd(fs, |b|);
    }
  }

  /** How many bytes a draining loop has got, of the stream, when it ends or the chunks do. */
  function Heard(fs: seq<Frame>, chunks: seq<seq<byte>>, n: nat): nat
    decreases |chunks|
  {
    if chunks == [] then n
    else if !Aligned(fs, n + |chunks[0]|) then n + |chunks[0]|
    else Heard(fs, chunks[1..], n + |chunks[0]|)
  }

  /** `m` bytes into the stream are `n` bytes behind its first `k` frames. */
  lemma HeardFrom(fs: seq<Frame>, k: nat, chunks: seq<seq<byte>>, n: nat, m: nat)
    requires k <= |fs| && m == Span(fs[..k]) + n
    ensures Heard(fs, chunks, m) == m - n + Heard(fs[k..], chunks, n)
  {
    HeardAfter(fs, k, chunks, n);
  }

  lemma {:induction false} HeardAfter(fs: seq<Frame>, k: nat, chunks: seq<seq<byte>>, n: nat)
    requires k <= |fs|
    ensures Heard(fs, chunks, Span(fs[..k]) + n) == Span(fs[..k]) + Heard(fs[k..], chunks, n)
    decreases |chunks|
  {
    if chunks != [] {
      var a, l := Span(fs[..k]), |chunks[0]|;
      AlignedFrom(fs, k, n + l);
      assert a + n + l == a + (n + l);
      HeardAfter(fs, k, chunks[1..], n + l);
    }
  }

  /** A draining loop delivers all the frames completed by then, also those before the one it fails at. */
  lemma {:induction false} DrainingDelivers(fs: seq<Frame>, chunks: seq<seq<byte>>, future: seq<byte>, fmt: Format)
    requires AllFit(fs, fmt) && Concat(chunks) + future == EncodeAll(fs)
    ensures Receive(chunks, [], fmt).frames == fs[..Completed(fs, Heard(fs, chunks, 0))]
    decreases |chunks|
  {
    if chunks == [] {
      NothingCompleted(fs);
    } else {
      var b, later := chunks[0], Concat(chunks[1..]) + future;
      Assoc(b, Concat(chunks[1..]), future);
      DrainStep(fs, b, later, fmt);
      ReceiveFirst(chunks, fmt);
      var k := Completed(fs, |b|);
      var h := Heard(fs[k..], chunks[1..], 0);
      HeardFirst(fs, chunks, k, h);
      if Aligned(fs, |b|) {
        DrainingDelivers(fs[k..], chunks[1..], future, fmt);
        SlicesJoin(fs, k, Completed(fs[k..], h));
      }
    }
  }

  lemma HeardSplits(fs: seq<Frame>, chunks: seq<seq<byte>>, k: nat)
    requires chunks != [] && Aligned(fs, |chunks[0]|) && k == Completed(fs, |chunks[0]|)
    ensures Heard(fs, chunks, 0) == |chunks[0]| + Heard(fs[k..], chunks[1..], 0)
  {
    var n := |chunks[0]|;
    HeardFrom(fs, k, chunks[1..], 0, n);
    assert Heard(fs, chunks, 0) == Heard(fs, chunks[1..], n);
  }

  lemma HeardFirst(fs: seq<Frame>, chunks: seq<seq<byte>>, k: nat, h: nat)
    requires chunks != [] && k == Completed(fs, |chunks[0]|) && h == Heard(fs[k..], chunks[1..], 0)
    ensures Aligned(fs, |chunks[0]|) ==> Completed(fs, Heard(fs, chunks, 0)) == k + Completed(fs[k..], h)
    ensures !Aligned(fs, |chunks[0]|) ==> Completed(fs, Heard(fs, chunks, 0)) == k
  {
    if Aligned(fs, |chunks[0]|) {
      HeardSplits(fs, chunks, k);
      CompletedSum(fs, k, |chunks[0]|, h);
    }
  }

  lemma CompletedSum(fs: seq<Frame>, k: nat, n: nat, h: nat)
    requires k <= |fs| && Span(fs[..k]) == n
    ensures Completed(fs, n + h) == k + Completed(fs[k..], h)
  {
    CompletedAfter(fs, k, n + h);
  }

  lemma NothingCompleted(fs: seq<Frame>)
    ensures Completed(fs, 0) == 0
  {
    assert fs != [] ==> |Encode(fs[0])| > 0;
  }

  lemma AlignedAtEnd(fs: seq<Frame>, n: nat)
    requires Completed(fs, n) == |fs| && n <= |EncodeAll(fs)|
    ensures Aligned(fs, n)
  {
    CompletedBounds(fs, n);
    SpanIsLength(fs);
    assert fs[..|fs|] == fs;
  }

  lemma AlignedFrom(fs: seq<Frame>, k: nat, m: nat)
    requires k <= |fs|
    ensures Aligned(fs, Span(fs[..k]) + m) <==> Aligned(fs[k..], m)
  {
    CompletedAfter(fs, k, Span(fs[..k]) + m);
    var j := Completed(fs[k..], m);
    SlicesJoin(fs, k, j);
    EncodeAllAppend(fs[..k], fs[k..][..j]);
  }

  lemma {:induction false} AlignedAfter(fs: seq<Frame>, k: nat, chunks: seq<seq<byte>>, n: nat)
    requires k <= |fs|
    ensures AllAligned(fs, chunks, Span(fs[..k]) + n) <==> AllAligned(fs[k..], chunks, n)
    decreases |chunks|
  {
    if chunks != [] {
      AlignedFrom(fs, k, n + |chunks[0]|);
      AlignedAfter(fs, k, chunks[1..], n + |chunks[0]|);
    }
  }

  // ---- Groups and single frames ----

  /** On bytes a group decoder accepts, popping frame by frame gives the same frames and leaves the same rest. */
  predicate Agree(s: seq<byte>, one: Format) {
    && GroupOutcome(s, BadSize) == Done
    && DrainOutcome(s, one) != Panicked
    && Frames(s, 0, SERVER_GROUP) == Frames(s, 0, one)
    && Rest(s, SERVER_GROUP) == Rest(s, one)
  }

  lemma {:induction false} SameFrames(s: seq<byte>, pos: nat)
    requires pos <= |s|
    requires forall f :: f in Frames(s, pos, SERVER_GROUP) ==> |f.body| <= SERVER_ONE.hi
    ensures Frames(s, pos, SERVER_GROUP) == Frames(s, pos, SERVER_ONE)
    ensures End(s, pos, SERVER_GROUP) == End(s, pos, SERVER_ONE)
    decreases |s| - pos
  {
    if Whole(s, pos, SERVER_GROUP) {
      assert FrameAt(s, pos, SERVER_GROUP) in Frames(s, pos, SERVER_GROUP);
      SameFrames(s, Next(s, pos, SERVER_GROUP));
    }
  }

  /** The two ways of decoding agree exactly when no frame is too large for the one-frame decoder. */
  lemma GroupRefinesOneByOne(s: seq<byte>)
    requires GroupOutcome(s, BadSize) == Done
    ensures Agree(s, SERVER_ONE) <==> forall f :: f in Frames(s, 0, SERVER_GROUP) ==> |f.body| <= SERVER_ONE.hi
  {
    CutIsExact(s, 0, SERVER_ONE);
    if forall f :: f in Frames(s, 0, SERVER_GROUP) ==> |f.body| <= SERVER_ONE.hi {
      SameFrames(s, 0);
      var e := End(s, 0, SERVER_GROUP);
      assert e + 2 <= |s| ==> S16At(Rest(s, SERVER_ONE), 0) == S16At(s, e);
    }
  }

  lemma {:induction false} TranViewsAt(fs: seq<Frame>, i: nat)
    requires i < |fs|
    ensures TranViews(fs)[i] == TranView(fs[i])
  {
    if i < |fs| - 1 {
      TranViewsAt(fs[..|fs| - 1], i);
    }
  }

  /** The packet `PopTranData` finds at `pos`; its id is read where the payload should be. */
  function TranCut(s: seq<byte>, pos: nat): ServerPacket
    requires Whole(s, pos, TRAN_ONE)
  {
    TranView(FrameAt(s, pos, TRAN_ONE)).(msgId := MsgId(s, pos + PACKAGE_HEAD_LEN))
  }

  /** The packets repeated `PopTranData` finds from `pos` on, until it fails. */
  function TranCuts(s: seq<byte>, pos: nat): seq<ServerPacket>
    decreases |s| - pos
  {
    if Whole(s, pos, TRAN_ONE) then [TranCut(s, pos)] + TranCuts(s, Next(s, pos, TRAN_ONE)) else []
  }

  lemma {:induction false} CutsAreSmall(s: seq<byte>, pos: nat, i: nat)
    requires i < |TranCuts(s, pos)|
    ensures |TranCuts(s, pos)[i].buff| <= TRAN_ONE.hi
    decreases |s| - pos
  {
    if i > 0 {
      CutsAreSmall(s, Next(s, pos, TRAN_ONE), i - 1);
    }
  }

  predicate NoneTooLarge(fs: seq<Frame>) {
    forall i :: 0 <= i < |fs| ==> |fs[i].body| <= TRAN_ONE.hi
  }

  /** Packet by packet the same in everything but the id, and in the id exactly below 256. */
  predicate SameButIds(gs: seq<ServerPacket>, ds: seq<ServerPacket>) {
    && |gs| == |ds|
    && forall i :: 0 <= i < |gs| ==>
         && gs[i].session == ds[i].session && gs[i].option == ds[i].option && gs[i].buff == ds[i].buff
         && |gs[i].buff| >= 2 && (gs[i].msgId == ds[i].msgId <==> gs[i].buff[0] == 0)
  }

  lemma TranViewsFirst(f: Frame, fs: seq<Frame>)
    ensures TranViews([f] + fs) == [TranView(f)] + TranViews(fs)
  {
    forall i | 0 <= i <= |fs| ensures TranViews([f] + fs)[i] == ([TranView(f)] + TranViews(fs))[i] {
      TranViewsAt([f] + fs, i);
      if i > 0 {
        TranViewsAt(fs, i - 1);
      }
    }
  }

  lemma SamePrepended(g: ServerPacket, d: ServerPacket, gs: seq<ServerPacket>, ds: seq<ServerPacket>)
    requires SameButIds([g], [d]) && SameButIds(gs, ds)
    ensures SameButIds([g] + gs, [d] + ds)
  {
    assert [g][0] == g && [d][0] == d;
  }

  lemma NoneTooLargeAfter(f: Frame, fs: seq<Frame>)
    requires NoneTooLarge([f] + fs)
    ensures |f.body| <= TRAN_ONE.hi && NoneTooLarge(fs)
  {
    assert ([f] + fs)[0] == f && forall i :: 0 <= i < |fs| ==> fs[i] == ([f] + fs)[i + 1];
  }

  /** Where no frame is too large for the one-frame decoder, it finds the same, ids aside, and ends there too. */
  lemma {:induction false} SameCuts(s: seq<byte>, pos: nat)
    requires pos <= |s| && NoneTooLarge(Frames(s, pos, SERVER_GROUP))
    requires EndingAt(s, End(s, pos, SERVER_GROUP), 2, SERVER_GROUP) != Bad
    ensures SameButIds(TranViews(Frames(s, pos, SERVER_GROUP)), TranCuts(s, pos))
    ensures End(s, pos, SERVER_GROUP) == End(s, pos, TRAN_ONE)
    decreases |s| - pos
  {
    if Whole(s, pos, SERVER_GROUP) {
      var next := Next(s, pos, SERVER_GROUP);
      var f, fs := FrameAt(s, pos, SERVER_GROUP), Frames(s, next, SERVER_GROUP);
      NoneTooLargeAfter(f, fs);
      SameCuts(s, next);
      FirstIsSame(s, pos);
      TranViewsFirst(f, fs);
      SamePrepended(TranView(f), TranCut(s, pos), TranViews(fs), TranCuts(s, next));
    }
  }

  lemma FirstIsSame(s: seq<byte>, pos: nat)
    requires Whole(s, pos, SERVER_GROUP) && Whole(s, pos, TRAN_ONE)
    ensures SameButIds([TranView(FrameAt(s, pos, SERVER_GROUP))], [TranCut(s, pos)])
  {
    var f := FrameAt(s, pos, SERVER_GROUP);
    assert f.body[0] == s[pos + PACKAGE_HEAD_LEN] && f.body[1] == s[pos + PACKAGE_HEAD_LEN + 1];
  }

  /**
   On all bytes the relaying group decoder accepts: popping packet by packet never panics, finds the same packets
   but for ids of 256 and more, and leaves the same rest, if and only if no frame is too large for it.
   */
  lemma TranGroupAgrees(s: seq<byte>)
    requires GroupOutcome(s, Panicked) == Done
    ensures
      && DrainOutcome(s, TRAN_ONE) != Panicked
      && SameButIds(TranViews(Frames(s, 0, SERVER_GROUP)), TranCuts(s, 0))
      && Rest(s, SERVER_GROUP) == Rest(s, TRAN_ONE)
      <==> NoneTooLarge(Frames(s, 0, SERVER_GROUP))
  {
    var fs, e := Frames(s, 0, SERVER_GROUP), End(s, 0, SERVER_GROUP);
    if NoneTooLarge(fs) {
      SameCuts(s, 0);
      assert e + 2 <= |s| ==> S16At(Rest(s, TRAN_ONE), 0) == S16At(s, e);
    } else if SameButIds(TranViews(fs), TranCuts(s, 0)) {
      forall i | 0 <= i < |fs| ensures |fs[i].body| <= TRAN_ONE.hi {
        TranViewsAt(fs, i);
        CutsAreSmall(s, 0, i);
      }
    }
  }

  /** A tail of fewer than 8 bytes after whole frames is kept, also when it is a single byte. */
  lemma CutHeaderIsKept(fs: seq<Frame>, f: Frame, n: nat)
    requires fs != [] && AllFit(fs, SERVER_GROUP) && Fits(f, SERVER_GROUP) && 1 <= n < PACKAGE_HEAD_LEN
    ensures var s := EncodeAll(fs) + Encode(f)[..n];
      && GroupOutcome(s, BadSize) == Done
      && Frames(s, 0, SERVER_GROUP) == fs
      && Rest(s, SERVER_GROUP) == Encode(f)[..n]
  {
    var e, t := EncodeAll(fs), Encode(f)[..n];
    CutFrameIsNotWhole(f, n, SERVER_GROUP);
    CutIsUnique(fs, t, SERVER_GROUP);
    CutFrameOutcome(f, n, SERVER_GROUP);
    SpanIsLength(fs);
    assert n >= 2 ==> S16At(e + t, |e|) == S16At(t, 0);
  }
}
