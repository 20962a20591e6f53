/** The packer as the source runs it: appending to one shared buffer, and consuming one shared reader. */
module PackerIO {
  import opened Bytes
  import opened Seqs
  import opened Packers

  class Writer {
    var data: seq<byte>

    constructor ()
      ensures data == []
    {
      data := [];
    }

    method Write(s: seq<byte>)
      modifies this
      ensures data == old(data) + s
    {
      data := data + s;
    }
  }

  /** How a packing loop stands after `i` fields or elements, when it has written `done`. */
  lemma JoinMoves(done: seq<byte>, one: Result<seq<byte>>, later: Result<seq<byte>>)
    ensures Join(Ok(done), Join(one, later)) == if one.Panic? then Panic else Join(Ok(done + one.value), later)
  {
    if one.Ok? && later.Ok? {
      Assoc(done, one.value, later.value);
    }
  }

  lemma JoinStarts(all: Result<seq<byte>>)
    ensures Join(Ok([]), all) == all
  {
    assert all.Ok? ==> [] + all.value == all.value;
  }

  /** Writes a value; the result is false when the source panics. */
  method PackTo(w: Writer, v: Value, t: Type) returns (ok: bool)
    requires HasType(v, t)
    modifies w
    ensures ok == Pack(v, t).Ok?
    ensures ok ==> w.data == old(w.data) + Pack(v, t).value
    decreases t, 0
  {
    ok := true;
    match t {
      case TInt(width, signed) =>
        if width == 1 && !signed {
          return false;
        }
        w.Write(BigEndian(Unsigned(v.i, width), width));
      case TBool => w.Write([1]);
      case TFloat(_) => w.Write(v.bits);
      case TString =>
        w.Write(Put16(|v.text|));
        w.Write(v.text);
        Assoc(old(w.data), Put16(|v.text|), v.text);
      case TStruct(fields) => ok := PackFieldsTo(w, v.fields, fields);
      case TSlice(_) => assert w.data + [] == w.data;
    }
  }

  method PackFieldsTo(w: Writer, vs: seq<Value>, ts: seq<Type>) returns (ok: bool)
    requires HaveTypes(vs, ts)
    modifies w
    ensures ok == PackFields(vs, ts).Ok?
    ensures ok ==> w.data == old(w.data) + PackFields(vs, ts).value
    decreases ts, 2
  {
    ghost var done: seq<byte> := [];
    assert vs[0..] == vs && ts[0..] == ts;
    var i := 0;
    JoinStarts(PackFields(vs, ts));
    while i < |ts|
      invariant i <= |ts| == |vs| && HaveTypes(vs[i..], ts[i..])
      invariant PackFields(vs, ts) == Join(Ok(done), PackFields(vs[i..], ts[i..]))
      invariant w.data == old(w.data) + done
    {
      ok := PackTo(w, vs[i], ts[i]);
      assert vs[i..][1..] == vs[i + 1..] && ts[i..][1..] == ts[i + 1..];
      JoinMoves(done, Pack(vs[i], ts[i]), PackFields(vs[i + 1..], ts[i + 1..]));
      if !ok {
        return;
      }
      Assoc(old(w.data), done, Pack(vs[i], ts[i]).value);
      done := done + Pack(vs[i], ts[i]).value;
      i := i + 1;
    }
    ok := true;
    assert done + [] == done;
  }

  method PackElemsTo(w: Writer, vs: seq<Value>, t: Type) returns (ok: bool)
    requires AllOfType(vs, t)
    modifies w
    ensures ok == PackElems(vs, t).Ok?
    ensures ok ==> w.data == old(w.data) + PackElems(vs, t).value
  {
    ghost var done: seq<byte> := [];
    assert vs[0..] == vs;
    var i := 0;
    JoinStarts(PackElems(vs, t));
    while i < |vs|
      invariant i <= |vs| && AllOfType(vs[i..], t)
      invariant PackElems(vs, t) == Join(Ok(done), PackElems(vs[i..], t))
      invariant w.data == old(w.data) + done
    {
      ok := PackTo(w, vs[i], t);
      assert vs[i..][1..] == vs[i + 1..];
      JoinMoves(done, Pack(vs[i], t), PackElems(vs[i + 1..], t));
      if !ok {
        return;
      }
      Assoc(old(w.data), done, Pack(vs[i], t).value);
      done := done + Pack(vs[i], t).value;
      i := i + 1;
    }
    ok := true;
    assert done + [] == done;
  }

  /** `packData`: the fields of a message, of which slices are written here. */
  method PackMessageTo(w: Writer, vs: seq<Value>, ts: seq<Type>) returns (ok: bool)
    requires HaveTypes(vs, ts)
    modifies w
    ensures ok == PackMessage(vs, ts).Ok?
    ensures ok ==> w.data == old(w.data) + PackMessage(vs, ts).value
  {
    ghost var done: seq<byte> := [];
    assert vs[0..] == vs && ts[0..] == ts;
    var i := 0;
    JoinStarts(PackMessage(vs, ts));
    while i < |ts|
      invariant i <= |ts| == |vs| && HaveTypes(vs[i..], ts[i..])
      invariant PackMessage(vs, ts) == Join(Ok(done), PackMessage(vs[i..], ts[i..]))
      invariant w.data == old(w.data) + done
    {
      ok := PackFieldTo(w, vs[i], ts[i]);
      assert vs[i..][1..] == vs[i + 1..] && ts[i..][1..] == ts[i + 1..];
      JoinMoves(done, PackField(vs[i], ts[i]), PackMessage(vs[i + 1..], ts[i + 1..]));
      if !ok {
        return;
      }
      Assoc(old(w.data), done, PackField(vs[i], ts[i]).value);
      done := done + PackField(vs[i], ts[i]).value;
      i := i + 1;
    }
    ok := true;
    assert done + [] == done;
  }

  method PackFieldTo(w: Writer, v: Value, t: Type) returns (ok: bool)
    requires HasType(v, t)
    modifies w
    ensures ok == PackField(v, t).Ok?
    ensures ok ==> w.data == old(w.data) + PackField(v, t).value
  {
    if t.TSlice? {
      w.Write(Put16(|v.elems|));
      ghost var mid := w.data;
      ok := PackElemsTo(w, v.elems, t.elem);
      if ok {
        Assoc(old(w.data), Put16(|v.elems|), PackElems(v.elems, t.elem).value);
      }
    } else {
      ok := PackTo(w, v, t);
    }
  }

  class ByteReader {
    var left: seq<byte>

    constructor (s: seq<byte>)
      ensures left == s
    {
      left := s;
    }

    /** Reads `n` bytes; a short read takes what there is and gives nothing. */
    method Take(n: nat) returns (full: bool, got: seq<byte>)
      modifies this
      ensures left == After(old(left), n)
      ensures full == (n <= |old(left)|)
      ensures full ==> got == old(left)[..n]
    {
      full := n <= |left|;
      got := if full then left[..n] else [];
      left := if full then left[n..] else [];
    }
  }

  /** Reads a value of type `t`; the result is a panic when the source panics. */
  method ParseFrom(r: ByteReader, t: Type) returns (v: Result<Value>)
    modifies r
    ensures v.Ok? == Parse(t, old(r.left)).Ok?
    ensures v.Ok? ==> Read(v.value, r.left) == Parse(t, old(r.left)).value
    decreases t, 0
  {
    match t {
      case TInt(width, signed) =>
        var full, raw := r.Take(width);
        var n := if full then Decode(raw) else 0;
        v := Ok(VInt(if signed then Signed(n, width) else n));
      case TBool =>
        var full, raw := r.Take(1);
        v := Ok(VBool(full && raw[0] != 0));
      case TFloat(width) => v := Ok(VFloat(Zeros(width)));
      case TString =>
        var there, head := r.Take(2);
        var size := if there then S16At(head, 0) else 0;
        if size < 0 {
          return Panic;
        }
        var full, raw := r.Take(size);
        v := Ok(VString(if full then raw else Zeros(size)));
      case TStruct(fields) =>
        var vs := ParseFieldsFrom(r, fields);
        v := if vs.Panic? then Panic else Ok(VStruct(vs.value));
      case TSlice(elem) =>
        var there, head := r.Take(2);
        var size := if there then S16At(head, 0) else 0;
        if size < 0 {
          return Panic;
        }
        var vs := ParseElemsFrom(r, elem, size);
        v := if vs.Panic? then Panic else Ok(VSlice(vs.value));
    }
  }

  /** How a parsing loop stands when it has read `done`. */
  function Onto(done: seq<Value>, later: Result<Read<seq<Value>>>): Result<Read<seq<Value>>> {
    if later.Panic? then Panic else Ok(Read(done + later.value.value, later.value.rest))
  }

  lemma OntoMoves(done: seq<Value>, v: Value, later: Result<Read<seq<Value>>>)
    ensures Onto(done, Prepend(v, later)) == Onto(done + [v], later)
  {
    if later.Ok? {
      Assoc(done, [v], later.value.value);
    }
  }

  lemma OntoStarts(all: Result<Read<seq<Value>>>)
    ensures Onto([], all) == all
  {
    assert all.Ok? ==> [] + all.value.value == all.value.value;
  }

  method ParseFieldsFrom(r: ByteReader, ts: seq<Type>) returns (vs: Result<seq<Value>>)
    modifies r
    ensures vs.Ok? == ParseFields(ts, old(r.left)).Ok?
    ensures vs.Ok? ==> Read(vs.value, r.left) == ParseFields(ts, old(r.left)).value
    decreases ts, 2
  {
    var done: seq<Value> := [];
    var i := 0;
    assert ts[0..] == ts;
    OntoStarts(ParseFields(ts, r.left));
    while i < |ts|
      invariant i <= |ts|
      invariant ParseFields(ts, old(r.left)) == Onto(done, ParseFields(ts[i..], r.left))
    {
      assert ts[i..][1..] == ts[i + 1..];
      var v := ParseFrom(r, ts[i]);
      if v.Panic? {
        return Panic;
      }
      OntoMoves(done, v.value, ParseFields(ts[i + 1..], r.left));
      done := done + [v.value];
      i := i + 1;
    }
    vs := Ok(done);
    assert done + [] == done;
  }

  method ParseElemsFrom(r: ByteReader, t: Type, n: nat) returns (vs: Result<seq<Value>>)
    modifies r
    ensures vs.Ok? == ParseElems(t, n, old(r.left)).Ok?
    ensures vs.Ok? ==> Read(vs.value, r.left) == ParseElems(t, n, old(r.left)).value
    decreases t, 1
  {
    var done: seq<Value> := [];
    var s := 0;
    OntoStarts(ParseElems(t, n, r.left));
    while s < n
      invariant s <= n
      invariant ParseElems(t, n, old(r.left)) == Onto(done, ParseElems(t, n - s, r.left))
    {
      var v := ParseFrom(r, t);
      if v.Panic? {
        return Panic;
      }
      OntoMoves(done, v.value, ParseElems(t, n - s - 1, r.left));
      done := done + [v.value];
      s := s + 1;
    }
    vs := Ok(done);
    assert done + [] == done;
  }
}
