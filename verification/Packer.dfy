/**
 The reflective packer: a message type directs how its value is written and read back.

 Reflected values are modelled by `Type` and `Value`. A destination of the parser starts out as the zero
 value, so a kind the parser has no case for stays zero.
 */
module Packers {
  import opened Bytes
  import opened Seqs

  datatype Type =
    | TInt(width: nat, signed: bool)
    | TBool
    | TFloat(width: nat)
    | TString
    | TStruct(fields: seq<Type>)
    | TSlice(elem: Type)

  datatype Value =
    | VInt(i: int)
    | VBool(b: bool)
    | VFloat(bits: seq<byte>)
    | VString(text: seq<byte>)
    | VStruct(fields: seq<Value>)
    | VSlice(elems: seq<Value>)

  predicate HasType(v: Value, t: Type)
    decreases t, 0
  {
    match t
    case TInt(width, signed) =>
      v.VInt? && width in {1, 2, 4, 8} && if signed then InSigned(v.i, width) else 0 <= v.i < Pow256(width)
    case TBool => v.VBool?
    case TFloat(width) => v.VFloat? && |v.bits| == width
    case TString => v.VString?
    case TStruct(fields) => v.VStruct? && HaveTypes(v.fields, fields)
    case TSlice(elem) => v.VSlice? && AllOfType(v.elems, elem)
  }

  predicate HaveTypes(vs: seq<Value>, ts: seq<Type>)
    decreases ts, 2
  {
    |vs| == |ts| && (ts != [] ==> HasType(vs[0], ts[0]) && HaveTypes(vs[1..], ts[1..]))
  }

  predicate AllOfType(vs: seq<Value>, t: Type)
    decreases t, 1, |vs|
  {
    vs != [] ==> HasType(vs[0], t) && AllOfType(vs[1..], t)
  }

  // ---- Writing ----

  function Join(a: Result<seq<byte>>, b: Result<seq<byte>>): Result<seq<byte>> {
    if a.Ok? && b.Ok? then Ok(a.value + b.value) else Panic
  }

  /** `pack`: an unsigned byte, read as a signed value, panics; a bool is written as true; a slice not at all. */
  function Pack(v: Value, t: Type): Result<seq<byte>>
    requires HasType(v, t)
    decreases t, 0
  {
    match t
    case TInt(width, signed) => if width == 1 && !signed then Panic else Ok(BigEndian(Unsigned(v.i, width), width))
    case TBool => Ok([1])
    case TFloat(_) => Ok(v.bits)
    case TString => Ok(Put16(|v.text|) + v.text)
    case TStruct(fields) => PackFields(v.fields, fields)
    case TSlice(_) => Ok([])
  }

  function PackFields(vs: seq<Value>, ts: seq<Type>): Result<seq<byte>>
    requires HaveTypes(vs, ts)
    decreases ts, 2
  {
    if ts == [] then Ok([]) else Join(Pack(vs[0], ts[0]), PackFields(vs[1..], ts[1..]))
  }

  function PackElems(vs: seq<Value>, t: Type): Result<seq<byte>>
    requires AllOfType(vs, t)
    decreases |vs|
  {
    if vs == [] then Ok([]) else Join(Pack(vs[0], t), PackElems(vs[1..], t))
  }

  /** A field of the message itself: here, and only here, a slice is written. */
  function PackField(v: Value, t: Type): Result<seq<byte>>
    requires HasType(v, t)
  {
    if t.TSlice? then Join(Ok(Put16(|v.elems|)), PackElems(v.elems, t.elem)) else Pack(v, t)
  }

  function PackMessage(vs: seq<Value>, ts: seq<Type>): Result<seq<byte>>
    requires HaveTypes(vs, ts)
  {
    if ts == [] then Ok([]) else Join(PackField(vs[0], ts[0]), PackMessage(vs[1..], ts[1..]))
  }

  // ---- Reading ----

  /** What a read leaves when it takes `n` bytes, or all there are. */
  function After(s: seq<byte>, n: nat): seq<byte> {
    if n <= |s| then s[n..] else []
  }

  function Zeros(n: nat): (z: seq<byte>)
    ensures |z| == n
  {
    if n == 0 then [] else [0] + Zeros(n - 1)
  }

  /** The size in front of a string or slice; 0 when it is not there to be read. */
  function SizeAhead(s: seq<byte>): int {
    if |s| < 2 then 0 else S16At(s, 0)
  }

  /** A value read, and the bytes after it. */
  datatype Read<+T> = Read(value: T, rest: seq<byte>)

  /** `parser`: a negative size panics; a float is not read. */
  function Parse(t: Type, s: seq<byte>): Result<Read<Value>>
    decreases t, 0
  {
    match t
    case TInt(width, signed) =>
      var n := if width <= |s| then Decode(s[..width]) else 0;
      Ok(Read(VInt(if signed then Signed(n, width) else n), After(s, width)))
    case TBool => Ok(Read(VBool(|s| > 0 && s[0] != 0), After(s, 1)))
    case TFloat(width) => Ok(Read(VFloat(Zeros(width)), s))
    case TString =>
      var size, rest := SizeAhead(s), After(s, 2);
      if size < 0 then Panic
      else Ok(Read(VString(if size <= |rest| then rest[..size] else Zeros(size)), After(rest, size)))
    case TStruct(fields) =>
      var r := ParseFields(fields, s);
      if r.Panic? then Panic else Ok(Read(VStruct(r.value.value), r.value.rest))
    case TSlice(elem) =>
      if SizeAhead(s) < 0 then Panic
      else
        var r := ParseElems(elem, SizeAhead(s), After(s, 2));
        if r.Panic? then Panic else Ok(Read(VSlice(r.value.value), r.value.rest))
  }

  /** A value in front of those read from what follows it. */
  function Prepend(v: Value, more: Result<Read<seq<Value>>>): Result<Read<seq<Value>>> {
    if more.Panic? then Panic else Ok(Read([v] + more.value.value, more.value.rest))
  }

  function ParseFields(ts: seq<Type>, s: seq<byte>): Result<Read<seq<Value>>>
    decreases ts, 2
  {
    if ts == [] then Ok(Read([], s))
    else
      var first := Parse(ts[0], s);
      if first.Panic? then Panic else Prepend(first.value.value, ParseFields(ts[1..], first.value.rest))
  }

  function ParseElems(t: Type, n: nat, s: seq<byte>): Result<Read<seq<Value>>>
    decreases t, 1, n
  {
    if n == 0 then Ok(Read([], s))
    else
      var first := Parse(t, s);
      if first.Panic? then Panic else Prepend(first.value.value, ParseElems(t, n - 1, first.value.rest))
  }

  // ---- The types both sides handle, and the values they handle alike ----

  /** No float, no unsigned byte, and no slice. */
  predicate Plain(t: Type)
    decreases t, 0
  {
    match t
    case TInt(width, signed) => signed || width != 1
    case TStruct(fields) => AllPlain(fields)
    case _ => t.TBool? || t.TString?
  }

  predicate AllPlain(ts: seq<Type>)
    decreases ts, 2
  {
    ts != [] ==> Plain(ts[0]) && AllPlain(ts[1..])
  }

  /** A message type whose fields are plain, or slices of plain elements. */
  predicate Portable(ts: seq<Type>) {
    ts != [] ==> PortableField(ts[0]) && Portable(ts[1..])
  }

  predicate PortableField(t: Type) {
    if t.TSlice? then Plain(t.elem) else Plain(t)
  }

  /** Every bool is true and every string shorter than 32768 bytes. */
  predicate Faithful(v: Value, t: Type)
    requires HasType(v, t) && Plain(t)
    decreases t, 0
  {
    match t
    case TBool => v.b
    case TString => |v.text| <= MAX_INT16
    case TStruct(fields) => AllFaithful(v.fields, fields)
    case _ => true
  }

  predicate AllFaithful(vs: seq<Value>, ts: seq<Type>)
    requires HaveTypes(vs, ts) && AllPlain(ts)
    decreases ts, 2
  {
    ts != [] ==> Faithful(vs[0], ts[0]) && AllFaithful(vs[1..], ts[1..])
  }

  predicate FaithfulElems(vs: seq<Value>, t: Type)
    requires AllOfType(vs, t) && Plain(t)
    decreases |vs|
  {
    vs != [] ==> Faithful(vs[0], t) && FaithfulElems(vs[1..], t)
  }

  predicate FaithfulMessage(vs: seq<Value>, ts: seq<Type>)
    requires HaveTypes(vs, ts) && Portable(ts)
  {
    ts != [] ==> FaithfulField(vs[0], ts[0]) && FaithfulMessage(vs[1..], ts[1..])
  }

  predicate FaithfulField(v: Value, t: Type)
    requires HasType(v, t) && PortableField(t)
  {
    if t.TSlice? then |v.elems| <= MAX_INT16 && FaithfulElems(v.elems, t.elem) else Faithful(v, t)
  }

  // ---- The round trip ----

  /** The parser gives back exactly `v`, and leaves exactly `suffix`. */
  predicate GivesBack<T(==)>(r: Result<Read<T>>, v: T, suffix: seq<byte>) {
    r == Ok(Read(v, suffix))
  }

  /** The parser panics or gives something else than `v`. */
  predicate Differs<T(==)>(r: Result<Read<T>>, v: T) {
    r.Panic? || r.value.value != v
  }

  lemma IntRoundTrip(i: int, width: nat, signed: bool, suffix: seq<byte>)
    requires HasType(VInt(i), TInt(width, signed))
    ensures GivesBack(Parse(TInt(width, signed), BigEndian(Unsigned(i, width), width) + suffix), VInt(i), suffix)
  {
    if signed {
      SignedUnsigned(i, width);
    }
    var n := Unsigned(i, width);
    DecodeEncoded(n, width);
    DropPrefix(BigEndian(n, width), suffix);
  }

  lemma StringRoundTrip(text: seq<byte>, suffix: seq<byte>)
    ensures var r := Parse(TString, Put16(|text|) + text + suffix);
      if |text| <= MAX_INT16 then GivesBack(r, VString(text), suffix) else Differs(r, VString(text))
  {
    Assoc(Put16(|text|), text, suffix);
    Put16Read(|text|, text + suffix);
    DropPrefix(Put16(|text|), text + suffix);
    DropPrefix(text, suffix);
    var size := Int16(|text|);
    if |text| > MAX_INT16 && size >= 0 {
      assert size < |text|;
      assert |Parse(TString, Put16(|text|) + text + suffix).value.value.text| == size;
    }
  }

  lemma {:induction false} RoundTrip(v: Value, t: Type, suffix: seq<byte>)
    requires HasType(v, t) && Plain(t)
    ensures Pack(v, t).Ok?
    ensures var r := Parse(t, Pack(v, t).value + suffix);
      if Faithful(v, t) then GivesBack(r, v, suffix) else Differs(r, v)
    decreases t, 0
  {
    match t
    case TInt(width, signed) => IntRoundTrip(v.i, width, signed, suffix);
    case TBool => assert ([1] + suffix)[1..] == suffix;
    case TString => StringRoundTrip(v.text, suffix);
    case TStruct(fields) => FieldsRoundTrip(v.fields, fields, suffix);
  }

  lemma {:induction false} FieldsRoundTrip(vs: seq<Value>, ts: seq<Type>, suffix: seq<byte>)
    requires HaveTypes(vs, ts) && AllPlain(ts)
    ensures PackFields(vs, ts).Ok?
    ensures var r := ParseFields(ts, PackFields(vs, ts).value + suffix);
      if AllFaithful(vs, ts) then GivesBack(r, vs, suffix) else Differs(r, vs)
    decreases ts, 2
  {
    if ts == [] {
      assert [] + suffix == suffix;
    } else {
      RoundTrip(vs[0], ts[0], []);
      FieldsRoundTrip(vs[1..], ts[1..], suffix);
      var a, b := Pack(vs[0], ts[0]).value, PackFields(vs[1..], ts[1..]).value;
      Assoc(a, b, suffix);
      RoundTrip(vs[0], ts[0], b + suffix);
      var first := Parse(ts[0], a + (b + suffix));
      if first.Ok? {
        Prepended(first.value.value, ParseFields(ts[1..], first.value.rest), vs, suffix);
      }
    }
  }

  /** One value read, and then others. */
  lemma Prepended(v: Value, more: Result<Read<seq<Value>>>, vs: seq<Value>, suffix: seq<byte>)
    requires vs != []
    ensures v == vs[0] && GivesBack(more, vs[1..], suffix) ==> GivesBack(Prepend(v, more), vs, suffix)
    ensures v != vs[0] || Differs(more, vs[1..]) ==> Differs(Prepend(v, more), vs)
  {
    if more.Ok? && [v] + more.value.value == vs {
      assert more.value.value == ([v] + more.value.value)[1..];
    }
  }

  lemma {:induction false} ElemsRoundTrip(vs: seq<Value>, t: Type, suffix: seq<byte>)
    requires AllOfType(vs, t) && Plain(t)
    ensures PackElems(vs, t).Ok?
    ensures var r := ParseElems(t, |vs|, PackElems(vs, t).value + suffix);
      if FaithfulElems(vs, t) then GivesBack(r, vs, suffix) else Differs(r, vs)
    decreases |vs|
  {
    if vs == [] {
      assert [] + suffix == suffix;
    } else {
      RoundTrip(vs[0], t, []);
      ElemsRoundTrip(vs[1..], t, suffix);
      var a, b := Pack(vs[0], t).value, PackElems(vs[1..], t).value;
      Assoc(a, b, suffix);
      RoundTrip(vs[0], t, b + suffix);
      var first := Parse(t, a + (b + suffix));
      if first.Ok? {
        Prepended(first.value.value, ParseElems(t, |vs| - 1, first.value.rest), vs, suffix);
      }
    }
  }

  lemma {:induction false} ParsedCount(t: Type, n: nat, s: seq<byte>)
    ensures var r := ParseElems(t, n, s); r.Ok? ==> |r.value.value| == n
    decreases n
  {
    if n > 0 && Parse(t, s).Ok? {
      ParsedCount(t, n - 1, Parse(t, s).value.rest);
    }
  }

  lemma SliceRoundTrip(vs: seq<Value>, t: Type, suffix: seq<byte>)
    requires AllOfType(vs, t) && Plain(t)
    ensures PackElems(vs, t).Ok?
    ensures var r := Parse(TSlice(t), Put16(|vs|) + PackElems(vs, t).value + suffix);
      if |vs| <= MAX_INT16 && FaithfulElems(vs, t) then GivesBack(r, VSlice(vs), suffix) else Differs(r, VSlice(vs))
  {
    ElemsRoundTrip(vs, t, suffix);
    var elems := PackElems(vs, t).value;
    Assoc(Put16(|vs|), elems, suffix);
    Put16Read(|vs|, elems + suffix);
    DropPrefix(Put16(|vs|), elems + suffix);
    var size := Int16(|vs|);
    if |vs| > MAX_INT16 && size >= 0 {
      assert size < |vs|;
      ParsedCount(t, size, elems + suffix);
    }
  }

  lemma FieldRoundTrip(v: Value, t: Type, suffix: seq<byte>)
    requires HasType(v, t) && PortableField(t)
    ensures PackField(v, t).Ok?
    ensures var r := Parse(t, PackField(v, t).value + suffix);
      if FaithfulField(v, t) then GivesBack(r, v, suffix) else Differs(r, v)
  {
    if t.TSlice? {
      SliceRoundTrip(v.elems, t.elem, suffix);
    } else {
      RoundTrip(v, t, suffix);
    }
  }

  /**
   The parser gives back a packed message, and leaves exactly what followed it, if and only if every bool in it
   is true and every string and slice is shorter than 32768.
   */
  lemma {:induction false} MessageRoundTrip(vs: seq<Value>, ts: seq<Type>, suffix: seq<byte>)
    requires HaveTypes(vs, ts) && Portable(ts)
    ensures PackMessage(vs, ts).Ok?
    ensures GivesBack(ParseFields(ts, PackMessage(vs, ts).value + suffix), vs, suffix) <==> FaithfulMessage(vs, ts)
  {
    MessageOutcome(vs, ts, suffix);
  }

  lemma {:induction false} MessageOutcome(vs: seq<Value>, ts: seq<Type>, suffix: seq<byte>)
    requires HaveTypes(vs, ts) && Portable(ts)
    ensures PackMessage(vs, ts).Ok?
    ensures var r := ParseFields(ts, PackMessage(vs, ts).value + suffix);
      if FaithfulMessage(vs, ts) then GivesBack(r, vs, suffix) else Differs(r, vs)
    decreases |ts|
  {
    if ts == [] {
      assert [] + suffix == suffix;
    } else {
      FieldRoundTrip(vs[0], ts[0], []);
      MessageOutcome(vs[1..], ts[1..], suffix);
      var a, b := PackField(vs[0], ts[0]).value, PackMessage(vs[1..], ts[1..]).value;
      Assoc(a, b, suffix);
      FieldRoundTrip(vs[0], ts[0], b + suffix);
      var first := Parse(ts[0], a + (b + suffix));
      if first.Ok? {
        Prepended(first.value.value, ParseFields(ts[1..], first.value.rest), vs, suffix);
      }
    }
  }

  /** Encodings of one message type are injective and prefix-free. */
  lemma EncodingsArePrefixFree(vs: seq<Value>, ws: seq<Value>, ts: seq<Type>, s: seq<byte>, t: seq<byte>)
    requires HaveTypes(vs, ts) && HaveTypes(ws, ts) && Portable(ts)
    requires FaithfulMessage(vs, ts) && FaithfulMessage(ws, ts)
    requires PackMessage(vs, ts).Ok? && PackMessage(ws, ts).Ok?
    requires PackMessage(vs, ts).value + s == PackMessage(ws, ts).value + t
    ensures vs == ws && s == t
  {
    MessageRoundTrip(vs, ts, s);
    MessageRoundTrip(ws, ts, t);
  }

  // ---- The bytes of each kind ----

  /** Byte `k` of an integer, the most significant first, in two's complement. */
  lemma {:induction false} BigEndianAt(n: nat, width: nat, k: nat)
    requires k < width
    ensures BigEndian(n, width)[k] == n / Pow256(width - 1 - k) % 256
  {
    if k < width - 1 {
      BigEndianAt(n / 256, width - 1, k);
      DivTwice(n, Pow256(width - 2 - k));
    }
  }

  lemma DivTwice(n: nat, p: nat)
    requires p > 0
    ensures n / 256 / p == n / (256 * p)
  {
    var a, b := n / 256 / p, n / 256 % p;
    assert n == 256 * (p * a + b) + n % 256;
    var q := 256 * p;
    assert n == q * a + (256 * b + n % 256) && 256 * b + n % 256 < q;
    Quotient(n, q, a, 256 * b + n % 256);
  }

  lemma Quotient(n: int, q: int, a: int, r: int)
    requires q > 0 && n == q * a + r && 0 <= r < q
    ensures n / q == a
  {
    var d := n / q - a;
    assert q * d == r - n % q;
    assert d >= 1 ==> q * d >= q;
    assert d <= -1 ==> q * d <= -q;
  }

  lemma IntBytes(i: int, width: nat, signed: bool, k: nat)
    requires HasType(VInt(i), TInt(width, signed)) && (signed || width != 1) && k < width
    ensures var n := if i >= 0 then i else i + Pow256(width);
      && n >= 0 && Pack(VInt(i), TInt(width, signed)).Ok?
      && |Pack(VInt(i), TInt(width, signed)).value| == width
      && Pack(VInt(i), TInt(width, signed)).value[k] == n / Pow256(width - 1 - k) % 256
  {
    if signed {
      SignedUnsigned(i, width);
    }
    BigEndianAt(Unsigned(i, width), width, k);
  }

  /** A bool is written as 1 whatever it is, a float as it is, a slice inside a value not at all. */
  lemma FlatBytes(b: bool, bits: seq<byte>, text: seq<byte>, vs: seq<Value>, t: Type)
    requires |text| < 65536 && AllOfType(vs, t)
    ensures Pack(VBool(b), TBool) == Ok([1]) && Pack(VFloat(bits), TFloat(|bits|)) == Ok(bits)
    ensures Pack(VString(text), TString) == Ok([|text| / 256, |text| % 256] + text)
    ensures Pack(VSlice(vs), TSlice(t)) == Ok([])
  {
  }

  lemma Int16Bytes()
    ensures HasType(VInt(-2), TInt(2, true)) && Pack(VInt(-2), TInt(2, true)) == Ok([255, 254])
    ensures HasType(VInt(1), TInt(2, true)) && Pack(VInt(1), TInt(2, true)) == Ok([0, 1])
    ensures HasType(VInt(258), TInt(2, true)) && Pack(VInt(258), TInt(2, true)) == Ok([1, 2])
  {
    Widths();
    assert BigEndian(255, 1) == [255] && BigEndian(0, 1) == [0] && BigEndian(1, 1) == [1];
    assert BigEndian(65534, 2) == [255, 254] && BigEndian(1, 2) == [0, 1] && BigEndian(258, 2) == [1, 2];
  }

  lemma OneString()
    ensures HaveTypes([VString([97])], [TString]) && PackFields([VString([97])], [TString]) == Ok([0, 1, 97])
  {
    var vs, ts, text: seq<byte> := [VString([97])], [TString], [0, 1, 97];
    assert vs[1..] == [] && ts[1..] == [];
    assert HaveTypes(vs[1..], ts[1..]) && HasType(vs[0], ts[0]);
    EmptyLeft(text);
    assert Put16(1) + [97] == text;
  }

  /** The fields of a struct follow each other, a string behind its length. */
  lemma StructLayout()
    ensures var vs, ts := [VInt(-2), VString([97])], [TInt(2, true), TString];
      HaveTypes(vs, ts) && PackFields(vs, ts) == Ok([255, 254, 0, 1, 97])
  {
    var vs, ts := [VInt(-2), VString([97])], [TInt(2, true), TString];
    var all: seq<byte> := [255, 254, 0, 1, 97];
    Int16Bytes();
    OneString();
    assert vs[1..] == [VString([97])] && ts[1..] == [TString];
    assert HaveTypes(vs, ts);
    assert [255, 254] + [0, 1, 97] == all;
  }

  /** The elements of a slice follow each other behind their number. */
  lemma SliceLayout()
    ensures var vs := [VInt(1), VInt(258)];
      AllOfType(vs, TInt(2, true)) && PackField(VSlice(vs), TSlice(TInt(2, true))) == Ok([0, 2, 0, 1, 1, 2])
  {
    var vs := [VInt(1), VInt(258)];
    Int16Bytes();
    assert vs[1..] == [VInt(258)] && vs[1..][1..] == [];
    var last, both, all: seq<byte> := [1, 2], [0, 1, 1, 2], [0, 2, 0, 1, 1, 2];
    EmptyLeft(last);
    assert PackElems(vs[1..], TInt(2, true)) == Ok(last);
    assert [0, 1] + last == both && Put16(2) + both == all;
  }

  // ---- Bytes that no packing has written ----

  /** A number of which bytes are missing is read as 0, and takes those there are. */
  lemma MissingIntBytes(s: seq<byte>, width: nat, signed: bool)
    requires |s| < width
    ensures Parse(TInt(width, signed), s) == Ok(Read(VInt(0), []))
  {
    assert Pow256(width) == 256 * Pow256(width - 1);
  }

  /** Any byte but 0 is true, and none is false; a float is zero and takes no bytes. */
  lemma AnyFlatByte(s: seq<byte>, width: nat)
    ensures Parse(TBool, s) == if s == [] then Ok(Read(VBool(false), [])) else Ok(Read(VBool(s[0] != 0), s[1..]))
    ensures Parse(TFloat(width), s) == Ok(Read(VFloat(Zeros(width)), s))
  {
  }

  /** Without a size strings and slices are empty; a negative one panics; a string that is cut is zeros. */
  lemma OddSizes(s: seq<byte>, t: Type)
    ensures |s| < 2 ==>
      Parse(TString, s) == Ok(Read(VString([]), [])) && Parse(TSlice(t), s) == Ok(Read(VSlice([]), []))
    ensures |s| >= 2 && s[0] as int >= 128 ==> Parse(TString, s) == Panic && Parse(TSlice(t), s) == Panic
    ensures |s| >= 2 && s[0] as int < 128 && s[0] as int * 256 + s[1] as int > |s| - 2 ==>
      Parse(TString, s) == Ok(Read(VString(Zeros(s[0] as int * 256 + s[1] as int)), []))
  {
  }

  lemma {:induction false} ZerosAt(n: nat, k: nat)
    requires k < n
    ensures Zeros(n)[k] == 0
  {
    if k > 0 {
      ZerosAt(n - 1, k - 1);
    }
  }

  // ---- The other kinds ----

  /** Parsing does not leave more bytes than there were. */
  lemma {:induction false} ParseTakes(t: Type, s: seq<byte>)
    ensures var r := Parse(t, s); r.Ok? ==> |r.value.rest| <= |s|
    decreases t, 0
  {
    match t
    case TStruct(fields) => FieldsTake(fields, s);
    case TSlice(elem) =>
      if SizeAhead(s) >= 0 {
        ElemsTake(elem, SizeAhead(s), After(s, 2));
      }
    case _ =>
  }

  lemma {:induction false} FieldsTake(ts: seq<Type>, s: seq<byte>)
    ensures var r := ParseFields(ts, s); r.Ok? ==> |r.value.rest| <= |s|
    decreases ts, 2
  {
    if ts != [] {
      ParseTakes(ts[0], s);
      var first := Parse(ts[0], s);
      if first.Ok? {
        FieldsTake(ts[1..], first.value.rest);
      }
    }
  }

  lemma {:induction false} ElemsTake(t: Type, n: nat, s: seq<byte>)
    ensures var r := ParseElems(t, n, s); r.Ok? ==> |r.value.rest| <= |s|
    decreases t, 1, n
  {
    if n > 0 {
      ParseTakes(t, s);
      var first := Parse(t, s);
      if first.Ok? {
        ElemsTake(t, n - 1, first.value.rest);
      }
    }
  }

  /** Without a size nothing is read; with one, at least the size is taken. */
  lemma ParsedSlice(t: Type, s: seq<byte>)
    ensures s == [] ==> Parse(TSlice(t), s) == Ok(Read(VSlice([]), []))
    ensures s != [] && Parse(TSlice(t), s).Ok? ==> |Parse(TSlice(t), s).value.rest| < |s|
  {
    if SizeAhead(s) >= 0 {
      ElemsTake(t, SizeAhead(s), After(s, 2));
    }
  }

  /** A slice inside a value is not written, and so comes back only if it is empty and nothing follows. */
  lemma InnerSliceIsLost(vs: seq<Value>, t: Type, suffix: seq<byte>)
    requires AllOfType(vs, t)
    ensures GivesBack(Parse(TSlice(t), Pack(VSlice(vs), TSlice(t)).value + suffix), VSlice(vs), suffix)
       <==> vs == [] && suffix == []
  {
    EmptyLeft(suffix);
    ParsedSlice(t, suffix);
  }

  /** A float is written and not read, so it comes back for no suffix; an unsigned byte is not even written. */
  lemma FloatsAndBytesAreLost(i: nat, bits: seq<byte>, suffix: seq<byte>)
    requires i < 256 && bits != []
    ensures Pack(VInt(i), TInt(1, false)) == Panic
    ensures !GivesBack(Parse(TFloat(|bits|), Pack(VFloat(bits), TFloat(|bits|)).value + suffix), VFloat(bits), suffix)
  {
    Widths();
    assert |bits + suffix| > |suffix|;
  }
}
