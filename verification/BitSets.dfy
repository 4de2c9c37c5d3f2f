/** bitset.go: bitsets as objects with in-place updates; the wrapped library is a finite set. */
module BitSets {
  import opened Signatures
  import opened Sets
  import opened Slots

  /** WilffBitSet: len is the length announced, width and bits are those of the wrapped vector. */
  class BitSet {
    const len: nat
    var width: nat
    var bits: set<nat>

    /** The bits lie below the length of the vector. */
    ghost predicate Valid()
      reads this
    {
      Below(bits, width)
    }

    /** The bitset announces the length of its vector. */
    ghost predicate Sized(n: nat)
      reads this
    {
      len == width == n && Below(bits, n)
    }

    /** NewWilffBitset */
    constructor (length: nat)
      ensures Sized(length) && bits == {}
    {
      len, width, bits := length, length, {};
    }

    /** newWilffBitset: the length announced becomes that of the vector. */
    constructor Of(length: nat, contents: set<nat>)
      ensures len == width == length && bits == contents
    {
      len, width, bits := length, length, contents;
    }

    function Cardinality(): nat
      reads this
    {
      |bits|
    }

    /** Out of bounds it panics; a vector that is too short is extended to take a bit that is set. */
    method Set(idx: int, status: bool)
      requires 0 <= idx < len
      modifies this
      ensures bits == if status then old(bits) + {idx} else old(bits) - {idx}
      ensures width == if status then Max(old(width), idx + 1) else old(width)
    {
      bits := if status then bits + {idx} else bits - {idx};
      width := if status && width < idx + 1 then idx + 1 else width;
    }

    /** Out of bounds it panics. */
    predicate Get(idx: int)
      requires 0 <= idx < len
      reads this
    {
      idx in bits
    }

    /** The union of two vectors is as long as the longer one. */
    method Or(b2: BitSet) returns (r: BitSet)
      ensures fresh(r) && r.len == r.width == Max(width, b2.width) && r.bits == bits + b2.bits
    {
      r := new BitSet.Of(Max(width, b2.width), bits + b2.bits);
    }

    /** The intersection of two vectors is as long as the shorter one. */
    method And(b2: BitSet) returns (r: BitSet)
      ensures fresh(r) && r.len == r.width == (if width < b2.width then width else b2.width) && r.bits == bits * b2.bits
    {
      r := new BitSet.Of(if width < b2.width then width else b2.width, bits * b2.bits);
    }

    method Xor(b2: BitSet) returns (r: BitSet)
      ensures fresh(r) && r.len == r.width == Max(width, b2.width) && r.bits == (bits - b2.bits) + (b2.bits - bits)
    {
      r := new BitSet.Of(Max(width, b2.width), (bits - b2.bits) + (b2.bits - bits));
    }

    method Clone() returns (r: BitSet)
      ensures fresh(r) && r.len == r.width == width && r.bits == bits
    {
      r := new BitSet.Of(width, bits);
    }

    predicate IsSuperSet(b2: BitSet)
      reads this, b2
    {
      b2.bits <= bits
    }

    function IntersectionCardinality(b2: BitSet): nat
      reads this, b2
    {
      |bits * b2.bits|
    }

    /** The first bit set from position i on. */
    method NextSet(i: nat) returns (pos: nat, ok: bool)
      requires Valid()
      ensures ok ==> i <= pos < width && pos in bits && forall j | i <= j < pos :: j !in bits
      ensures !ok ==> forall j | i <= j < width :: j !in bits
    {
      pos := i;
      while pos < width
        invariant i <= pos && (i <= width ==> pos <= width)
        invariant forall j | i <= j < pos :: j !in bits
      {
        if pos in bits {
          return pos, true;
        }
        pos := pos + 1;
      }
      return 0, false;
    }
  }

  /** MultiSignature: it refers to its bitset. */
  datatype MultiSignature = MultiSignature(bs: BitSet, sig: Point) {
    function View(): MultiSig
      reads bs
    {
      MultiSig(bs.len, bs.width, bs.bits, sig)
    }
  }

  /** incomingSig, with a signature present. */
  datatype IncomingSig = IncomingSig(origin: int, level: nat, ms: MultiSignature, isInd: bool, mappedIndex: int) {
    ghost function View(): Incoming
      reads ms.bs
    {
      Incoming(origin, level, Some(ms.View()), isInd, mappedIndex)
    }
  }
}
