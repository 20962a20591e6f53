/**
 The frame formats on the wire, as a specification over byte sequences.

 A frame is a signed 16-bit size, `head` further header bytes, and `size` payload bytes.
 `Frames` and `Rest` cut a byte sequence into the whole frames at its front and what follows them.
 */
module Wire {
  import opened Bytes
  import opened Seqs

  /** `head`: header bytes after the size; a decoder accepts the sizes `lo..hi`. */
  datatype Format = Format(head: nat, lo: nat, hi: nat)

  datatype Frame = Frame(head: seq<byte>, body: seq<byte>)

  predicate Fits(f: Frame, fmt: Format) {
    |f.head| == fmt.head && fmt.lo <= |f.body| <= fmt.hi && |f.body| <= MAX_INT16
  }

  predicate AllFit(fs: seq<Frame>, fmt: Format) {
    forall i :: 0 <= i < |fs| ==> Fits(fs[i], fmt)
  }

  function Encode(f: Frame): (s: seq<byte>)
    ensures |s| == 2 + |f.head| + |f.body|
  {
    Put16(|f.body|) + f.head + f.body
  }

  function EncodeAll(fs: seq<Frame>): seq<byte> {
    if fs == [] then [] else Encode(fs[0]) + EncodeAll(fs[1..])
  }

  /** A whole frame with an accepted size starts at `pos`. */
  predicate Whole(s: seq<byte>, pos: nat, fmt: Format) {
    pos + 2 + fmt.head <= |s| && fmt.lo <= S16At(s, pos) <= fmt.hi && pos + 2 + fmt.head + S16At(s, pos) <= |s|
  }

  /** The position after the frame at `pos`. */
  function Next(s: seq<byte>, pos: nat, fmt: Format): nat
    requires Whole(s, pos, fmt)
  {
    pos + 2 + fmt.head + S16At(s, pos)
  }

  function FrameAt(s: seq<byte>, pos: nat, fmt: Format): Frame
    requires Whole(s, pos, fmt)
  {
    Frame(s[pos + 2..pos + 2 + fmt.head], s[pos + 2 + fmt.head..Next(s, pos, fmt)])
  }

  /** The frames from `pos` on, up to the first place where no whole frame starts. */
  function Frames(s: seq<byte>, pos: nat, fmt: Format): seq<Frame>
    decreases |s| - pos
  {
    if Whole(s, pos, fmt) then [FrameAt(s, pos, fmt)] + Frames(s, Next(s, pos, fmt), fmt) else []
  }

  /** That place. */
  function End(s: seq<byte>, pos: nat, fmt: Format): (e: nat)
    requires pos <= |s|
    ensures pos <= e <= |s|
    ensures !Whole(s, e, fmt)
    decreases |s| - pos
  {
    if Whole(s, pos, fmt) then End(s, Next(s, pos, fmt), fmt) else pos
  }

  /** The bytes left after the whole frames at the front of `s`. */
  function Rest(s: seq<byte>, fmt: Format): seq<byte> {
    s[End(s, 0, fmt)..]
  }

  /** Bytes taken by the frames of `fs`. */
  function Span(fs: seq<Frame>): nat {
    if fs == [] then 0 else |Encode(fs[0])| + Span(fs[1..])
  }

  /** How many frames of `fs` lie entirely within the first `n` bytes of their encoding. */
  function Completed(fs: seq<Frame>, n: nat): (k: nat)
    ensures k <= |fs|
  {
    if fs == [] || n < |Encode(fs[0])| then 0 else 1 + Completed(fs[1..], n - |Encode(fs[0])|)
  }

  // ---- Encoding and cutting are inverse ----

  lemma EncodedIsWhole(f: Frame, t: seq<byte>, fmt: Format)
    requires Fits(f, fmt)
    ensures Whole(Encode(f) + t, 0, fmt)
    ensures FrameAt(Encode(f) + t, 0, fmt) == f
    ensures Next(Encode(f) + t, 0, fmt) == |Encode(f)|
  {
    Put16Read(|f.body|, f.head + f.body + t);
    assert Encode(f) + t == Put16(|f.body|) + (f.head + f.body + t);
  }

  lemma WholeIsEncoded(s: seq<byte>, pos: nat, fmt: Format)
    requires Whole(s, pos, fmt)
    ensures Fits(FrameAt(s, pos, fmt), fmt)
    ensures Encode(FrameAt(s, pos, fmt)) == s[pos..Next(s, pos, fmt)]
  {
    Put16Of(s, pos);
    var f := FrameAt(s, pos, fmt);
    assert Encode(f) == s[pos..pos + 2] + f.head + f.body;
  }

  /** `s` is the end of `u`, from `n` on. */
  predicate EndsWith(u: seq<byte>, n: nat, s: seq<byte>) {
    n + |s| == |u| && u[n..] == s
  }

  lemma SameSize(u: seq<byte>, n: nat, s: seq<byte>, pos: nat)
    requires EndsWith(u, n, s) && pos + 2 <= |s|
    ensures S16At(u, n + pos) == S16At(s, pos)
  {
    assert u[n..][pos] == u[n + pos] && u[n..][pos + 1] == u[n + pos + 1];
  }

  lemma SameSlice(u: seq<byte>, n: nat, s: seq<byte>, i: nat, j: nat)
    requires EndsWith(u, n, s) && i <= j <= |s|
    ensures u[n + i..n + j] == s[i..j]
  {
    assert u[n..][i..j] == u[n + i..n + j];
  }

  /** Whether a frame starts at a position, and which, does not depend on what precedes it. */
  lemma SameWhole(u: seq<byte>, n: nat, s: seq<byte>, pos: nat, fmt: Format)
    requires EndsWith(u, n, s)
    ensures Whole(u, n + pos, fmt) <==> Whole(s, pos, fmt)
    ensures Whole(s, pos, fmt) ==>
      FrameAt(u, n + pos, fmt) == FrameAt(s, pos, fmt) && Next(u, n + pos, fmt) == n + Next(s, pos, fmt)
  {
    if pos + 2 <= |s| {
      SameSize(u, n, s, pos);
    }
    if Whole(s, pos, fmt) {
      SameSlice(u, n, s, pos + 2, pos + 2 + fmt.head);
      SameSlice(u, n, s, pos + 2 + fmt.head, Next(s, pos, fmt));
    }
  }

  lemma {:induction false} SameCut(u: seq<byte>, n: nat, s: seq<byte>, pos: nat, fmt: Format)
    requires EndsWith(u, n, s) && pos <= |s|
    ensures Frames(u, n + pos, fmt) == Frames(s, pos, fmt)
    ensures End(u, n + pos, fmt) == n + End(s, pos, fmt)
    decreases |s| - pos
  {
    SameWhole(u, n, s, pos, fmt);
    if Whole(s, pos, fmt) {
      SameCut(u, n, s, Next(s, pos, fmt), fmt);
    }
  }

  /** Frames do not depend on what precedes them. */
  lemma Shift(a: seq<byte>, s: seq<byte>, pos: nat, fmt: Format)
    requires pos <= |s|
    ensures Frames(a + s, |a| + pos, fmt) == Frames(s, pos, fmt)
    ensures End(a + s, |a| + pos, fmt) == |a| + End(s, pos, fmt)
  {
    DropPrefix(a, s);
    SameCut(a + s, |a|, s, pos, fmt);
  }

  /** What is cut from any bytes puts those bytes back together. */
  lemma {:induction false} CutIsExact(s: seq<byte>, pos: nat, fmt: Format)
    requires pos <= |s|
    ensures EncodeAll(Frames(s, pos, fmt)) == s[pos..End(s, pos, fmt)]
    ensures AllFit(Frames(s, pos, fmt), fmt)
    decreases |s| - pos
  {
    if Whole(s, pos, fmt) {
      var next := Next(s, pos, fmt);
      CutIsExact(s, next, fmt);
      WholeIsEncoded(s, pos, fmt);
      assert Frames(s, pos, fmt)[1..] == Frames(s, next, fmt);
      assert s[pos..next] + s[next..End(s, pos, fmt)] == s[pos..End(s, pos, fmt)];
    }
  }

  lemma CutJoins(s: seq<byte>, fmt: Format)
    ensures EncodeAll(Frames(s, 0, fmt)) + Rest(s, fmt) == s
  {
    CutIsExact(s, 0, fmt);
    assert s[0..End(s, 0, fmt)] + s[End(s, 0, fmt)..] == s;
  }

  lemma CutStep(f: Frame, u: seq<byte>, fmt: Format)
    requires Fits(f, fmt)
    ensures Frames(Encode(f) + u, 0, fmt) == [f] + Frames(u, 0, fmt)
    ensures End(Encode(f) + u, 0, fmt) == |Encode(f)| + End(u, 0, fmt)
  {
    EncodedIsWhole(f, u, fmt);
    Shift(Encode(f), u, 0, fmt);
  }

  /** The cut is the only one: frames followed by anything that does not start with a whole frame. */
  lemma {:induction false} CutIsUnique(fs: seq<Frame>, t: seq<byte>, fmt: Format)
    requires AllFit(fs, fmt) && !Whole(t, 0, fmt)
    ensures Frames(EncodeAll(fs) + t, 0, fmt) == fs
    ensures End(EncodeAll(fs) + t, 0, fmt) == |EncodeAll(fs)|
    ensures Rest(EncodeAll(fs) + t, fmt) == t
  {
    DropPrefix(EncodeAll(fs), t);
    if fs == [] {
      assert EncodeAll(fs) + t == t;
    } else {
      var e, u := Encode(fs[0]), EncodeAll(fs[1..]) + t;
      Assoc(e, EncodeAll(fs[1..]), t);
      CutIsUnique(fs[1..], t, fmt);
      CutStep(fs[0], u, fmt);
      assert [fs[0]] + fs[1..] == fs;
    }
  }

  /** A frame of any length is cut from its encoding exactly when it fits the format. */
  lemma EncodingIsExact(f: Frame, fmt: Format)
    requires |f.head| == fmt.head
    ensures Frames(Encode(f), 0, fmt) == [f] <==> Fits(f, fmt)
  {
    var s := Encode(f);
    if Fits(f, fmt) {
      CutIsUnique([f], [], fmt);
      assert EncodeAll([f]) + [] == s by {
        assert [f][1..] == [] && s + [] == s;
      }
    } else if Whole(s, 0, fmt) {
      WholeIsEncoded(s, 0, fmt);
      assert Frames(s, 0, fmt)[0] == FrameAt(s, 0, fmt);
    }
  }

  // ---- Prefixes of a stream of frames ----

  lemma {:induction false} SpanIsLength(fs: seq<Frame>)
    ensures Span(fs) == |EncodeAll(fs)|
  {
    if fs != [] {
      SpanIsLength(fs[1..]);
    }
  }

  lemma {:induction false} EncodeAllAppend(fs: seq<Frame>, gs: seq<Frame>)
    ensures EncodeAll(fs + gs) == EncodeAll(fs) + EncodeAll(gs)
    ensures Span(fs + gs) == Span(fs) + Span(gs)
  {
    if fs == [] {
      assert fs + gs == gs;
    } else {
      EncodeAllAppend(fs[1..], gs);
      assert (fs + gs)[1..] == fs[1..] + gs;
    }
  }

  lemma CutFrameIsNotWhole(f: Frame, n: nat, fmt: Format)
    requires Fits(f, fmt) && n < |Encode(f)|
    ensures !Whole(Encode(f)[..n], 0, fmt)
  {
    if n >= 2 {
      EncodedIsWhole(f, [], fmt);
      assert Encode(f) + [] == Encode(f);
    }
  }

  lemma {:induction false} CompletedBounds(fs: seq<Frame>, n: nat)
    ensures var k := Completed(fs, n);
      Span(fs[..k]) <= n && (k < |fs| ==> n < Span(fs[..k]) + |Encode(fs[k])|)
  {
    if fs != [] && |Encode(fs[0])| <= n {
      CompletedBounds(fs[1..], n - |Encode(fs[0])|);
      assert fs[..Completed(fs, n)][1..] == fs[1..][..Completed(fs, n) - 1];
    }
  }

  /** Less than the first frame of a stream is not a whole frame. */
  lemma CutStreamIsNotWhole(fs: seq<Frame>, rest: seq<byte>, future: seq<byte>, fmt: Format)
    requires AllFit(fs, fmt) && rest + future == EncodeAll(fs)
    requires fs != [] ==> |rest| < |Encode(fs[0])|
    ensures !Whole(rest, 0, fmt)
    ensures rest == if fs == [] then [] else Encode(fs[0])[..|rest|]
  {
    DropPrefix(rest, future);
    if fs == [] {
      assert rest == [];
    } else {
      var n := |rest|;
      assert (Encode(fs[0]) + EncodeAll(fs[1..]))[..n] == Encode(fs[0])[..n];
      CutFrameIsNotWhole(fs[0], n, fmt);
    }
  }

  /** The first part of a stream of frames: its completed frames, and what stays in the buffer. */
  lemma PrefixCut(fs: seq<Frame>, b: seq<byte>, future: seq<byte>, fmt: Format)
    requires AllFit(fs, fmt) && b + future == EncodeAll(fs)
    ensures var k, rest := Completed(fs, |b|), Rest(b, fmt);
      && Frames(b, 0, fmt) == fs[..k]
      && rest + future == EncodeAll(fs[k..])
      && Span(fs[..k]) <= |b|
      && |rest| == |b| - Span(fs[..k])
      && (k < |fs| ==> |rest| < |Encode(fs[k])|)
      && rest == (if k == |fs| then [] else Encode(fs[k])[..|rest|])
  {
    var k := Completed(fs, |b|);
    CompletedBounds(fs, |b|);
    SpanIsLength(fs[..k]);
    EncodeAllAppend(fs[..k], fs[k..]);
    assert fs[..k] + fs[k..] == fs;
    var head := EncodeAll(fs[..k]);
    SplitAt(b, future, head, EncodeAll(fs[k..]));
    var rest := b[|head|..];
    CutStreamIsNotWhole(fs[k..], rest, future, fmt);
    CutIsUnique(fs[..k], rest, fmt);
  }
}
