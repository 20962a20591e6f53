/** Facts about concatenating and slicing sequences that the verifier is told one at a time. */
module Seqs {
  lemma Assoc<T>(a: seq<T>, b: seq<T>, c: seq<T>)
    ensures (a + b) + c == a + (b + c)
  {
  }

  lemma CancelLeft<T>(a: seq<T>, b: seq<T>, c: seq<T>)
    requires a + b == a + c
    ensures b == c
  {
    assert b == (a + b)[|a|..] == (a + c)[|a|..] == c;
  }

  lemma Glue<T>(x: seq<T>, y: seq<T>, b: seq<T>, rest: seq<T>, left: seq<T>, tail: seq<T>)
    requires x + rest == b && y + left == rest + tail
    ensures (x + y) + left == b + tail
  {
    Assoc(x, y, left);
    Assoc(x, rest, tail);
  }

  lemma SlicesJoin<T>(s: seq<T>, k: nat, j: nat)
    requires k + j <= |s|
    ensures s[..k] + s[k..][..j] == s[..k + j]
  {
  }

  lemma SplitAt<T>(a: seq<T>, b: seq<T>, c: seq<T>, d: seq<T>)
    requires a + b == c + d && |c| <= |a|
    ensures a == c + a[|c|..] && a[|c|..] + b == d
  {
    var n := |c|;
    assert a[..n] == (a + b)[..n] == (c + d)[..n] == c;
    assert a == a[..n] + a[n..];
    Assoc(c, a[n..], b);
    CancelLeft(c, a[n..] + b, d);
  }

  lemma DropTwice<T>(s: seq<T>, n: nat, m: nat)
    requires n + m <= |s|
    ensures s[n..][m..] == s[n + m..]
  {
  }

  lemma EmptyLeft<T>(s: seq<T>)
    ensures [] + s == s && s + [] == s
  {
  }

  lemma HeadTail<T>(x: T, s: seq<T>)
    ensures ([x] + s)[0] == x && ([x] + s)[1..] == s
  {
  }

  /** A sequence is known by an element and what is on either side of it. */
  lemma AroundOne<T>(v: seq<T>, a: seq<T>, x: T, b: seq<T>)
    requires |v| == |a| + 1 + |b| && v[..|a|] == a && v[|a|] == x && v[|a| + 1..] == b
    ensures v == a + [x] + b
  {
  }

  lemma PrefixTwice<T>(s: seq<T>, n: nat, k: nat)
    requires k <= n <= |s|
    ensures s[..n][..k] == s[..k]
  {
  }

  lemma TakeMore<T>(s: seq<T>, k: nat)
    requires k < |s|
    ensures s[..k] + [s[k]] == s[..k + 1]
  {
  }

  lemma PrefixJoin<T>(s: seq<T>, k: nat, t: seq<T>)
    requires k <= |s| && t <= s[k..]
    ensures s[..k] + t <= s
  {
  }

  lemma DropPrefix<T>(a: seq<T>, b: seq<T>)
    ensures (a + b)[|a|..] == b && (a + b)[..|a|] == a
  {
  }
}

/** Bytes, fixed-width integers and their big-endian encodings. */
module Bytes {

  type byte = x: int | 0 <= x < 256

  const MAX_INT16 := 32767

  /** The result of a computation that a Go runtime panic can end. */
  datatype Result<+T> = Ok(value: T) | Panic

  /** Go's conversion to `int16`: the value congruent to `n` modulo 2^16 in the signed range. */
  function Int16(n: int): (r: int)
    ensures -32768 <= r <= MAX_INT16
    ensures (n - r) % 65536 == 0
    ensures -32768 <= n <= MAX_INT16 ==> r == n
  {
    var m := n % 65536;
    if m <= MAX_INT16 then m else m - 65536
  }

  function Pow256(width: nat): (p: nat)
    ensures p > 0
  {
    if width == 0 then 1 else 256 * Pow256(width - 1)
  }

  /** `n` in `width` bytes, most significant byte first. */
  function BigEndian(n: nat, width: nat): (s: seq<byte>)
    ensures |s| == width
  {
    if width == 0 then [] else BigEndian(n / 256, width - 1) + [n % 256]
  }

  function Decode(s: seq<byte>): nat {
    if s == [] then 0 else Decode(s[..|s| - 1]) * 256 + s[|s| - 1]
  }

  lemma {:induction false} DecodeEncoded(n: nat, width: nat)
    requires n < Pow256(width)
    ensures Decode(BigEndian(n, width)) == n
  {
    if width > 0 {
      DecodeEncoded(n / 256, width - 1);
      var s := BigEndian(n, width);
      assert s[..width - 1] == BigEndian(n / 256, width - 1);
    }
  }

  /** Two's complement in `width` bytes. */
  function Signed(n: nat, width: nat): int
  {
    if n < Pow256(width) / 2 then n else n - Pow256(width)
  }

  function Unsigned(i: int, width: nat): int
  {
    if i < 0 then i + Pow256(width) else i
  }

  predicate InSigned(i: int, width: nat) {
    -(Pow256(width) / 2) <= i < Pow256(width) / 2
  }

  lemma SignedUnsigned(i: int, width: nat)
    requires width > 0 && InSigned(i, width)
    ensures 0 <= Unsigned(i, width) < Pow256(width)
    ensures Signed(Unsigned(i, width), width) == i
  {
    assert Pow256(width) == 256 * Pow256(width - 1);
  }

  lemma Widths()
    ensures Pow256(1) == 256 && Pow256(2) == 65536 && Pow256(4) == 0x1_0000_0000
  {
    assert Pow256(1) == 256 * Pow256(0);
    assert Pow256(2) == 256 * Pow256(1);
    assert Pow256(3) == 256 * Pow256(2);
  }

  // ---- The header fields, read and written without recursion ----

  function U16At(s: seq<byte>, pos: nat): (n: nat)
    requires pos + 2 <= |s|
    ensures n < 65536
  {
    s[pos] as nat * 256 + s[pos + 1] as nat
  }

  function U32At(s: seq<byte>, pos: nat): (n: nat)
    requires pos + 4 <= |s|
    ensures n < 0x1_0000_0000
  {
    U16At(s, pos) * 65536 + U16At(s, pos + 2)
  }

  /** The two bytes as a two's complement number. */
  function S16At(s: seq<byte>, pos: nat): (r: int)
    requires pos + 2 <= |s|
    ensures -32768 <= r <= MAX_INT16
  {
    if U16At(s, pos) <= MAX_INT16 then U16At(s, pos) else U16At(s, pos) - 65536
  }

  function Put16(n: int): (s: seq<byte>)
    ensures |s| == 2
  {
    [n % 65536 / 256, n % 256]
  }

  function Put32(n: nat): (s: seq<byte>)
    ensures |s| == 4
  {
    Put16(n / 65536) + Put16(n)
  }

  lemma Put16Read(n: int, t: seq<byte>)
    ensures U16At(Put16(n) + t, 0) == n % 65536
    ensures S16At(Put16(n) + t, 0) == Int16(n)
  {
    var m := n % 65536;
    assert m % 256 == n % 256;
    var s := Put16(n) + t;
    assert s[0] == m / 256 && s[1] == m % 256;
  }

  lemma Put32Read(n: nat, t: seq<byte>)
    requires n < 0x1_0000_0000
    ensures U32At(Put32(n) + t, 0) == n
  {
    var s := Put32(n) + t;
    assert s[..2] == Put16(n / 65536) && s[2..4] == Put16(n);
    Put16Read(n / 65536, []);
    Put16Read(n, []);
    assert Put16(n) + [] == Put16(n) && Put16(n / 65536) + [] == Put16(n / 65536);
    assert s[2] == s[2..4][0] && s[3] == s[2..4][1];
  }

  lemma Put16Of(s: seq<byte>, pos: nat)
    requires pos + 2 <= |s|
    ensures Put16(U16At(s, pos)) == s[pos..pos + 2]
  {
  }
}
