/** partitioner.go: the binomial partition of the id space as seen from one node. */
module Partition {
  import opened Numbers
  import opened Signatures

  datatype RangeResult = Range(min: nat, max: nat) | EmptyLevel | InvalidLevel {
    predicate Has(b: nat) {
      Range? && min <= b < max
    }
  }

  /** The block beside the block of index q. */
  function Sibling(q: nat): nat {
    if q % 2 == 1 then q - 1 else q + 1
  }

  lemma {:induction false} OtherHalf(q: nat, r: nat)
    requires q != r && q / 2 == r / 2
    ensures Sibling(r) == q
  {
  }

  lemma {:induction false} Siblings(q: nat, r: nat)
    ensures q == Sibling(r) <==> q != r && q / 2 == r / 2
  {
  }

  datatype Partitioner = Partitioner(id: nat, size: nat, reg: Registry) {

    ghost predicate Valid() {
      reg.Valid() && size == |reg.ids| && id < size
    }

    function MaxLevel(): nat
      requires size >= 1
    {
      Log2(size)
    }

    /** What rangeLevel returns. */
    function RangeOf(level: int): RangeResult
      requires Valid()
    {
      if level < 0 || level > MaxLevel() + 1 then InvalidLevel
      else if level == 0 then Range(id, id + 1)
      else if level == MaxLevel() + 1 then Range(0, size)
      else
        var min := Start(Sibling(Shr(id, level - 1)), level - 1);
        if min >= size then EmptyLevel else Range(min, Min(min + Pow2(level - 1), size))
    }

    /** What rangeLevelInverse returns. */
    function InverseOf(level: int): (r: RangeResult)
      requires Valid()
      ensures 0 <= level <= MaxLevel() + 1 ==> r.Range? && r.min <= id < r.max <= size
    {
      if level < 0 || level > MaxLevel() + 1 then InvalidLevel
      else
        var k := if level == 0 then 0 else level - 1;
        ShrBlock(id, k);
        var min := Start(Shr(id, k), k);
        Range(min, Min(min + Pow2(k), size))
    }

    function SizeOf(level: int): nat
      requires Valid()
    {
      var r := RangeOf(level);
      if r.Range? && r.min <= r.max then r.max - r.min else 0
    }

    /** The first id of a non-empty level. */
    function Lo(level: nat): nat
      requires Valid()
    {
      var r := RangeOf(level);
      if r.Range? then r.min else 0
    }

    ghost predicate IsLevel(level: int)
      requires Valid()
    {
      1 <= level <= MaxLevel() && RangeOf(level).Range?
    }

    /** A level's range holds exactly the nodes at that tree distance from this node. */
    lemma {:induction false} RangeMembers(level: int, b: nat)
      requires Valid() && 0 <= level <= MaxLevel() && b < size
      ensures RangeOf(level).Has(b) <==> LevelOf(id, b) == level
    {
      if level > 0 {
        var k := level - 1;
        var q := Shr(id, k);
        LevelOfShr(id, b, k);
        LevelOfShr(id, b, level);
        InBlock(b, k, Sibling(q));
        Siblings(Shr(b, k), q);
      }
    }

    /** The inverse range at a level holds exactly the nodes below that tree distance. */
    lemma {:induction false} InverseMembers(level: int, b: nat)
      requires Valid() && 1 <= level <= MaxLevel() + 1 && b < size
      ensures InverseOf(level).Has(b) <==> LevelOf(id, b) < level
    {
      var k := level - 1;
      LevelOfShr(id, b, k);
      InBlock(b, k, Shr(id, k));
      var min := Start(Shr(id, k), k);
      assert InverseOf(level) == Range(min, Min(min + Pow2(k), size)) by { ShrBlock(id, k); }
    }

    lemma {:induction false} RangeBounds(level: int)
      requires Valid()
      ensures RangeOf(level).Range? ==> RangeOf(level).min < RangeOf(level).max <= size
      ensures SizeOf(level) > 0 <==> RangeOf(level).Range?
    {
    }

    /** The block held once all bits from index k up are read; bit inverseIdx is read inverted. */
    function Narrowed(k: nat, inverseIdx: int): nat
      requires Valid()
    {
      if k == inverseIdx && k < MaxLevel() then Sibling(Shr(id, k)) else Shr(id, k)
    }

    method RangeLevel(level: int) returns (r: RangeResult)
      requires Valid()
      ensures r == RangeOf(level)
    {
      var bitsize := Log2(size);
      if level < 0 || level > bitsize + 1 {
        return InvalidLevel;
      }
      var min, max := 0, Pow2(bitsize);
      var inverseIdx := level - 1;
      var idx := bitsize - 1;
      TopBlock();
      while idx >= inverseIdx && idx >= 0 && min < max
        invariant -1 <= idx < bitsize && idx >= inverseIdx - 1
        invariant min == Start(Narrowed(idx + 1, inverseIdx), idx + 1) && max == min + Pow2(idx + 1)
        decreases idx
      {
        var middle := (max + min) / 2;
        Split(idx);
        if IsSet(id, idx) {
          if idx == inverseIdx {
            max := middle;
          } else {
            min := middle;
          }
        } else {
          if idx == inverseIdx {
            min := middle;
          } else {
            max := middle;
          }
        }
        idx := idx - 1;
      }
      if min >= size {
        return EmptyLevel;
      }
      if max > size {
        max := size;
      }
      return Range(min, max);
    }

    method RangeLevelInverse(level: int) returns (r: RangeResult)
      requires Valid()
      ensures r == InverseOf(level)
    {
      var bitsize := Log2(size);
      if level < 0 || level > bitsize + 1 {
        return InvalidLevel;
      }
      var min, max := 0, Pow2(bitsize);
      var maxIdx := level - 1;
      var idx := bitsize - 1;
      TopBlock();
      while idx >= maxIdx && idx >= 0 && min < max
        invariant -1 <= idx < bitsize
        invariant idx >= maxIdx - 1
        invariant min == Start(Shr(id, idx + 1), idx + 1) && max == min + Pow2(idx + 1)
        decreases idx
      {
        var middle := (max + min) / 2;
        Split(idx);
        if IsSet(id, idx) {
          min := middle;
        } else {
          max := middle;
        }
        idx := idx - 1;
      }
      if max > size {
        max := size;
      }
      return Range(min, max);
    }

    /** Before any bit is read the search holds the whole tree. */
    lemma {:induction false} TopBlock()
      requires Valid()
      ensures Shr(id, MaxLevel()) == 0 && Start(0, MaxLevel()) == 0
    {
      StartZero(MaxLevel());
      BlockIndex(id, MaxLevel(), 0);
    }

    /** At the top level the inverse range is the whole id space. */
    lemma {:induction false} TopInverse()
      requires Valid()
      ensures InverseOf(MaxLevel() + 1) == Range(0, size)
    {
      var k := MaxLevel();
      TopBlock();
      assert InverseOf(k + 1) == Range(Start(Shr(id, k), k), Min(Start(Shr(id, k), k) + Pow2(k), size));
    }

    /** Reading one more bit of the id halves its block. */
    lemma {:induction false} Split(idx: nat)
      ensures var min, q := Start(Shr(id, idx + 1), idx + 1), Shr(id, idx);
              var middle := min + Pow2(idx);
              && Pow2(idx + 1) == 2 * Pow2(idx)
              && (if IsSet(id, idx) then Start(q, idx) == middle && Start(Sibling(q), idx) == min
                  else Start(q, idx) == min && Start(Sibling(q), idx) == middle)
    {
      StartNext(2 * Shr(id, idx + 1), idx);
    }

    method Size(level: int) returns (n: nat)
      requires Valid() && 0 <= level <= MaxLevel() + 1
      ensures n == SizeOf(level)
    {
      var r := RangeLevel(level);
      match r {
        case Range(min, max) => n := max - min;
        case EmptyLevel => n := 0;
      }
    }

    method Levels() returns (levels: seq<nat>)
      requires Valid()
      ensures forall i, j | 0 <= i < j < |levels| :: levels[i] < levels[j]
      ensures forall l: int :: l in levels <==> IsLevel(l)
    {
      levels := [];
      var max := Log2(size);
      for i := 1 to max + 1
        invariant forall j, k | 0 <= j < k < |levels| :: levels[j] < levels[k]
        invariant forall j | 0 <= j < |levels| :: levels[j] < i
        invariant forall l: int :: l in levels <==> l < i && IsLevel(l)
      {
        var r := RangeLevel(i);
        if r.Range? {
          levels := levels + [i];
        }
      }
    }

    method IdentitiesAt(level: int) returns (r: Option<seq<Identity>>)
      requires Valid()
      ensures r.Some? <==> RangeOf(level).Range?
      ensures r.Some? ==> r.value == reg.ids[RangeOf(level).min..RangeOf(level).max]
    {
      var range := RangeLevel(level);
      if !range.Range? {
        return None;
      }
      r := reg.Identities(range.min, range.max);
    }

    method IndexAtLevel(globalID: int, level: int) returns (r: Option<nat>)
      requires Valid()
      ensures r.Some? <==> globalID >= 0 && RangeOf(level).Has(globalID)
      ensures r.Some? ==> r.value == globalID - Lo(level) < SizeOf(level)
    {
      var range := RangeLevel(level);
      if !range.Range? {
        return None;
      }
      if globalID < range.min || globalID >= range.max {
        return None;
      }
      return Some(globalID - range.min);
    }

    // ----- What the ranges mean

    /** Every node is in exactly one level, and level 0 is the node itself. */
    lemma {:induction false} Partitions(b: nat)
      requires Valid() && b < size
      ensures 0 <= LevelOf(id, b) <= MaxLevel() && RangeOf(LevelOf(id, b)).Has(b)
      ensures forall l | 0 <= l <= MaxLevel() && l != LevelOf(id, b) :: !RangeOf(l).Has(b)
      ensures RangeOf(0).Has(b) <==> b == id
    {
      LevelOfBound(id, b, size);
      forall l | 0 <= l <= MaxLevel() ensures RangeOf(l).Has(b) <==> l == LevelOf(id, b) {
        RangeMembers(l, b);
      }
    }

    /** Two nodes put each other in the same level. */
    lemma {:induction false} Symmetric(other: Partitioner, level: nat)
      requires Valid() && other.Valid() && other.size == size && 1 <= level <= MaxLevel()
      ensures RangeOf(level).Has(other.id) <==> other.RangeOf(level).Has(id)
    {
      RangeMembers(level, other.id);
      other.RangeMembers(level, id);
      LevelOfSymmetric(id, other.id);
    }

    /** What this node covers below a level is what its peers at that level expect from it. */
    lemma {:induction false} PeerExpects(peer: Partitioner, level: nat)
      requires Valid() && peer.Valid() && peer.size == size && 1 <= level <= MaxLevel()
      requires RangeOf(level).Has(peer.id)
      ensures peer.RangeOf(level) == InverseOf(level)
    {
      var k := level - 1;
      RangeMembers(level, peer.id);
      LevelOfShr(id, peer.id, k);
      LevelOfShr(id, peer.id, level);
      OtherHalf(Shr(id, k), Shr(peer.id, k));
      ShrBlock(id, k);
    }

    /** The inverse ranges grow by one level at a time, up to the whole registry. */
    lemma {:induction false} InverseGrows(level: nat)
      requires Valid() && 1 <= level <= MaxLevel()
      ensures var low, inv, up := InverseOf(level), RangeOf(level), InverseOf(level + 1);
              && low.Has(id)
              && (up.max - up.min == (low.max - low.min) + SizeOf(level))
              && forall b: nat :: up.Has(b) <==> low.Has(b) || inv.Has(b)
      ensures InverseOf(MaxLevel() + 1) == Range(0, size)
    {
      Split(level - 1);
      TopBlock();
      ShrBlock(id, level - 1);
    }

    /** The number of nodes in the levels below the given one. */
    function SizeBelow(level: nat): nat
      requires Valid()
    {
      if level == 0 then 0 else SizeBelow(level - 1) + SizeOf(level - 1)
    }

    lemma {:induction false} InverseSize(level: nat)
      requires Valid() && 1 <= level <= MaxLevel() + 1
      ensures InverseOf(level).max - InverseOf(level).min == SizeBelow(level)
    {
      if level == 1 {
        assert SizeBelow(1) == SizeOf(0);
      } else {
        InverseSize(level - 1);
        InverseGrows(level - 1);
      }
    }
  }
}
