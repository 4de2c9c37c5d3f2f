/** The wire form of a multisignature (crypto.go:64-110, bitset.go:148-177). */
module Wire {
  import opened Signatures
  import opened Sets
  import opened Slots

  type Byte = x: int | 0 <= x < 256

  /** A bit vector with its own length. */
  datatype Vector = Vector(width: nat, bits: set<nat>)

  /** The encodings of the bitset library and of the curve. */
  datatype Codec = Codec(
    encBits: Vector -> seq<Byte>,
    decBits: seq<Byte> -> Option<Vector>,
    encSig: Point -> seq<Byte>,
    decSig: seq<Byte> -> Option<Point>)
  {
    /** A vector survives with its length, and 16 bits hold the size of the encoding of a short one. */
    ghost predicate RestoresBits(v: Vector) {
      && (Below(v.bits, v.width) ==> decBits(encBits(v)) == Some(v))
      && (v.width <= 65535 ==> |encBits(v)| + 2 <= 65535)
    }

    /** The bits of a decoded vector lie below its own length. */
    ghost predicate InBounds(b: seq<Byte>) {
      decBits(b).Some? ==> Below(decBits(b).value.bits, decBits(b).value.width)
    }

    ghost predicate RestoresSig(g: Point) {
      decSig(encSig(g)) == Some(g)
    }

    ghost predicate Trusted() {
      && (forall v :: RestoresBits(v))
      && (forall b :: InBounds(b))
      && (forall g :: RestoresSig(g))
    }
  }

  /** Writes a 16-bit unsigned integer, most significant byte first; higher bits are dropped. */
  function PutUint16(x: nat): seq<Byte> {
    var low := x % 65536;
    [low / 256, low % 256]
  }

  function Uint16(b: seq<Byte>): nat
    requires |b| == 2
  {
    var high: int, low: int := b[0], b[1];
    256 * high + low
  }

  /** The length announced comes first, then the vector, which carries its own. */
  function MarshalBits(codec: Codec, len: nat, v: Vector): seq<Byte> {
    PutUint16(len) + codec.encBits(v)
  }

  function UnmarshalBits(codec: Codec, b: seq<Byte>): Option<(nat, Vector)> {
    if |b| < 2 then None
    else
      var v := codec.decBits(b[2..]);
      if v.Some? then Some((Uint16(b[..2]), v.value)) else None
  }

  function Encode(codec: Codec, ms: MultiSig): seq<Byte> {
    var bs := MarshalBits(codec, ms.len, Vector(ms.width, ms.bits));
    PutUint16(|bs|) + bs + codec.encSig(ms.sig)
  }

  function Decode(codec: Codec, b: seq<Byte>): Option<MultiSig> {
    if |b| < 2 then None
    else
      var length := Uint16(b[..2]);
      if |b| - 2 < length then None
      else
        var bs := UnmarshalBits(codec, b[2..2 + length]);
        var sig := codec.decSig(b[2 + length..]);
        if bs.None? || sig.None? then None
        else Some(MultiSig(bs.value.0, bs.value.1.width, bs.value.1.bits, sig.value))
  }

  /** The bytes announce the length of the vector they carry; nothing in the code checks that. */
  predicate Announced(codec: Codec, b: seq<Byte>) {
    var m := Decode(codec, b);
    m.Some? ==> m.value.len == m.value.width
  }

  /** What is read back lies below the length announced whenever that is the length of the vector. */
  lemma {:induction false} DecodeBelow(codec: Codec, b: seq<Byte>)
    requires codec.Trusted()
    ensures Decode(codec, b).Some? ==>
              var m := Decode(codec, b).value;
              Below(m.bits, m.width) && (m.Sized(m.len) <==> Announced(codec, b))
  {
    if Decode(codec, b).Some? {
      var length := Uint16(b[..2]);
      var bs := b[2..2 + length];
      assert codec.InBounds(bs[2..]);
    }
  }

  lemma {:induction false} BitsRoundTrip(codec: Codec, len: nat, v: Vector)
    requires codec.RestoresBits(v) && Below(v.bits, v.width) && len <= 65535
    ensures UnmarshalBits(codec, MarshalBits(codec, len, v)) == Some((len, v))
  {
    var b := MarshalBits(codec, len, v);
    assert b[..2] == PutUint16(len) && b[2..] == codec.encBits(v);
  }

  /** A multisignature survives the wire exactly when 16 bits hold the length of its bitset. */
  lemma {:induction false} RoundTrip(codec: Codec, ms: MultiSig)
    requires codec.Trusted() && Below(ms.bits, ms.width) && (ms.width <= 65535 || ms.width == ms.len)
    ensures Decode(codec, Encode(codec, ms)) == Some(ms) <==> ms.len <= 65535
  {
    if ms.len <= 65535 {
      var v := Vector(ms.width, ms.bits);
      var bs, b := MarshalBits(codec, ms.len, v), Encode(codec, ms);
      assert codec.RestoresBits(v) && codec.RestoresSig(ms.sig);
      BitsRoundTrip(codec, ms.len, v);
      assert |bs| <= 65535;
      assert b[..2] == PutUint16(|bs|);
      assert Uint16(b[..2]) == |bs|;
      assert b[2..2 + |bs|] == bs && b[2 + |bs|..] == codec.encSig(ms.sig);
    }
  }

  /** The bytes: 16 bits for the size of the marshalled bitset, 16 bits for its length, the vector, and the signature. */
  lemma {:induction false} Layout(codec: Codec, ms: MultiSig)
    requires ms.len <= 65535 && |codec.encBits(Vector(ms.width, ms.bits))| + 2 <= 65535
    ensures |Encode(codec, ms)| >= 4
    ensures var b, v := Encode(codec, ms), codec.encBits(Vector(ms.width, ms.bits));
            var b0: int, b1: int, b2: int, b3: int := b[0], b[1], b[2], b[3];
            && |b| == 4 + |v| + |codec.encSig(ms.sig)|
            && 256 * b0 + b1 == |v| + 2 && 256 * b2 + b3 == ms.len
            && b[4..4 + |v|] == v && b[4 + |v|..] == codec.encSig(ms.sig)
  {
    var b, v := Encode(codec, ms), codec.encBits(Vector(ms.width, ms.bits));
    assert b == PutUint16(|v| + 2) + PutUint16(ms.len) + v + codec.encSig(ms.sig);
  }

  method MarshalBinary(codec: Codec, ms: MultiSig) returns (b: seq<Byte>)
    ensures b == Encode(codec, ms)
  {
    b := [];
    var bs := MarshalBits(codec, ms.len, Vector(ms.width, ms.bits));
    var length := |bs| % 65536;
    var sig := codec.encSig(ms.sig);
    PutLow(|bs|);
    b := b + PutUint16(length);
    b := b + bs;
    b := b + sig;
  }

  /** Writing the low 16 bits writes all that is kept. */
  lemma {:induction false} PutLow(x: nat)
    ensures PutUint16(x % 65536) == PutUint16(x)
  {
    var low := x % 65536;
    assert low % 65536 == low;
  }

  method Unmarshal(codec: Codec, b: seq<Byte>) returns (ms: Option<MultiSig>)
    ensures ms == Decode(codec, b)
  {
    var buff := b;
    if |buff| < 2 {
      return None;
    }
    var length := Uint16(buff[..2]);
    buff := buff[2..];
    var next := if length <= |buff| then length else |buff|;
    var bitset := buff[..next];
    buff := buff[next..];
    if |bitset| < length {
      return None;
    }
    assert bitset == b[2..2 + length] && buff == b[2 + length..];
    var bs := UnmarshalBits(codec, bitset);
    if bs.None? {
      return None;
    }
    var s := codec.decSig(buff);
    if s.None? {
      return None;
    }
    return Some(MultiSig(bs.value.0, bs.value.1.width, bs.value.1.bits, s.value));
  }
}
