/** What a node holds below a level, in terms of its slots (partitioner.go:224-296, store.go:238-262). */
module Combining {
  import opened Numbers
  import opened Signatures
  import opened Sets
  import opened Partition
  import opened Slots
  import opened Soundness

  type SlotMap = map<nat, Slot>

  function Best(slots: SlotMap, level: nat): Option<MultiSig> {
    if level in slots then slots[level].best else None
  }

  function BestBits(slots: SlotMap, level: nat): set<nat> {
    var b := Best(slots, level);
    if b.Some? then b.value.bits else {}
  }

  function KeysAt(p: Partitioner, scheme: Scheme, level: nat): Keys
    requires p.Valid()
  {
    Keys(scheme, p.reg, p.Lo(level), p.SizeOf(level))
  }

  /** One slot for the node itself and for each non-empty level, each within its invariant. */
  ghost predicate SlotsInv(p: Partitioner, slots: SlotMap)
    requires p.Valid()
  {
    forall k :: SlotAt(p, slots, k)
  }

  ghost predicate SlotAt(p: Partitioner, slots: SlotMap, k: nat)
    requires p.Valid()
  {
    && (k in slots <==> k == 0 || p.IsLevel(k))
    && (k in slots ==> SlotInv(p.SizeOf(k), slots[k]))
  }

  ghost predicate SoundSlots(p: Partitioner, scheme: Scheme, slots: SlotMap)
    requires p.Valid()
  {
    forall k | k in slots :: KeysAt(p, scheme, k).SoundSlot(slots[k])
  }

  // ----- The contributions held below a level

  /** The owner of node g's contribution is the level g is in; is its local bit set there? */
  predicate Holds(p: Partitioner, slots: SlotMap, g: nat)
    requires p.Valid()
  {
    var k := LevelOf(p.id, g);
    g >= p.Lo(k) && g - p.Lo(k) in BestBits(slots, k)
  }

  function Held(p: Partitioner, slots: SlotMap, top: nat): set<nat>
    requires p.Valid()
  {
    set g | g in Upto(p.size) && LevelOf(p.id, g) < top && Holds(p, slots, g)
  }

  lemma {:induction false} HeldStep(p: Partitioner, slots: SlotMap, k: nat)
    requires p.Valid() && SlotsInv(p, slots) && k <= p.MaxLevel()
    ensures Held(p, slots, k + 1) == Held(p, slots, k) + Shift(BestBits(slots, k), p.Lo(k))
    ensures Held(p, slots, k) !! Shift(BestBits(slots, k), p.Lo(k))
  {
    var own := Shift(BestBits(slots, k), p.Lo(k));
    forall g: nat
      ensures g in own <==> g < p.size && LevelOf(p.id, g) == k && Holds(p, slots, g)
    {
      if g in own {
        p.RangeBounds(k);
        BestBitsBound(p, slots, k);
        assert g < p.Lo(k) + p.SizeOf(k);
        p.RangeMembers(k, g);
      }
    }
  }

  /** The number of contributions held in the levels below top. */
  function CardBelow(slots: SlotMap, top: nat): nat {
    if top == 0 then 0 else CardBelow(slots, top - 1) + |BestBits(slots, top - 1)|
  }

  lemma {:induction false} BestBitsBound(p: Partitioner, slots: SlotMap, k: nat)
    requires p.Valid() && SlotsInv(p, slots)
    ensures Below(BestBits(slots, k), p.SizeOf(k)) && |BestBits(slots, k)| <= p.SizeOf(k)
  {
    assert SlotAt(p, slots, k);
    BelowCard(BestBits(slots, k), p.SizeOf(k));
  }

  lemma {:induction false} HeldCardStep(p: Partitioner, slots: SlotMap, k: nat)
    requires p.Valid() && SlotsInv(p, slots) && k <= p.MaxLevel()
    ensures |Held(p, slots, k + 1)| == |Held(p, slots, k)| + |BestBits(slots, k)|
  {
    HeldStep(p, slots, k);
    ShiftCard(BestBits(slots, k), p.Lo(k));
    UnionCard(Held(p, slots, k), Shift(BestBits(slots, k), p.Lo(k)));
  }

  lemma {:induction false} HeldCard(p: Partitioner, slots: SlotMap, top: nat)
    requires p.Valid() && SlotsInv(p, slots) && top <= p.MaxLevel() + 1
    ensures |Held(p, slots, top)| == CardBelow(slots, top)
  {
    if top == 0 {
      assert Held(p, slots, 0) == {};
    } else {
      HeldCard(p, slots, top - 1);
      HeldCardStep(p, slots, top - 1);
    }
  }

  lemma {:induction false} CardBelowBound(p: Partitioner, slots: SlotMap, top: nat)
    requires p.Valid() && SlotsInv(p, slots)
    ensures CardBelow(slots, top) <= p.SizeBelow(top)
  {
    if top > 0 {
      CardBelowBound(p, slots, top - 1);
      BestBitsBound(p, slots, top - 1);
    }
  }

  /** Adds up the signatures of the levels below top. */
  function SigBelow(scheme: Scheme, slots: SlotMap, top: nat): Point {
    scheme.Sum((k: nat) => BestSig(scheme, slots, k), BestLevels(slots), top)
  }

  function BestSig(scheme: Scheme, slots: SlotMap, level: nat): Point {
    var b := Best(slots, level);
    if b.Some? then b.value.sig else scheme.zero
  }

  function BestLevels(slots: SlotMap): set<nat> {
    set k | k in slots && slots[k].best.Some?
  }

  /** The combined signature is the sum of exactly the keys of the contributions held, each once. */
  lemma {:induction false} SigBelowSound(p: Partitioner, scheme: Scheme, slots: SlotMap, top: nat)
    requires p.Valid() && scheme.Lawful() && SlotsInv(p, slots) && SoundSlots(p, scheme, slots)
    requires top <= p.MaxLevel() + 1
    ensures SigBelow(scheme, slots, top) == p.reg.KeySum(scheme, Held(p, slots, top))
  {
    if top == 0 {
      scheme.SumExtend((i: nat) => p.reg.Key(scheme, i), Held(p, slots, 0), 0, p.size);
    } else {
      SigBelowSound(p, scheme, slots, top - 1);
      HeldKeys(p, scheme, slots, top - 1);
    }
  }

  lemma {:induction false} HeldKeys(p: Partitioner, scheme: Scheme, slots: SlotMap, k: nat)
    requires p.Valid() && scheme.Lawful() && SlotsInv(p, slots) && SoundSlots(p, scheme, slots)
    requires k <= p.MaxLevel()
    ensures p.reg.KeySum(scheme, Held(p, slots, k + 1)) ==
            var below := p.reg.KeySum(scheme, Held(p, slots, k));
            if k in BestLevels(slots) then scheme.add(below, BestSig(scheme, slots, k)) else below
  {
    HeldStep(p, slots, k);
    var own := Shift(BestBits(slots, k), p.Lo(k));
    if k in BestLevels(slots) {
      scheme.SumUnion((i: nat) => p.reg.Key(scheme, i), Held(p, slots, k), own, p.size);
      assert KeysAt(p, scheme, k).SoundSlot(slots[k]);
    } else {
      assert own == {};
      assert Held(p, slots, k + 1) == Held(p, slots, k);
    }
  }

  // ----- The combined multisignature

  /** The members of s moved down by lo. */
  function Unshift(s: set<nat>, lo: nat): (r: set<nat>)
    ensures forall j: nat {:trigger j in r} :: j in r <==> j + lo in s
  {
    var r := set g | g in s && g >= lo :: g - lo;
    assert forall j: nat {:trigger j in r} | j + lo in s :: j in r by {
      forall j: nat {:trigger j in r} | j + lo in s ensures j in r {
        var g := j + lo;
        assert g in s && g >= lo && g - lo == j;
      }
    }
    r
  }

  /** Everything held below the given level, indexed as its peers expect. */
  function Combined(p: Partitioner, scheme: Scheme, slots: SlotMap, level: nat): MultiSig
    requires p.Valid() && level <= p.MaxLevel() + 1
  {
    var inv := p.InverseOf(level);
    Exact(inv.max - inv.min, Unshift(Held(p, slots, level), inv.min), SigBelow(scheme, slots, level))
  }

  /** Everything held, indexed by node id. */
  function Full(p: Partitioner, scheme: Scheme, slots: SlotMap): MultiSig
    requires p.Valid()
  {
    Combined(p, scheme, slots, p.MaxLevel() + 1)
  }

  /** The bits of a level have their place in a bitset of the given size whose first bit stands for base. */
  predicate Inside(p: Partitioner, level: nat, len: nat, base: nat, size: nat)
    requires p.Valid()
  {
    len > 0 ==> base <= p.Lo(level) && p.Lo(level) - base + len <= size
  }

  /** Combining the levels below top sets no bit out of bounds. */
  ghost predicate Fitting(p: Partitioner, slots: SlotMap, top: nat)
    requires p.Valid() && top <= p.MaxLevel() + 1
  {
    var inv := p.InverseOf(top);
    forall k: nat | k < top && Best(slots, k).Some? ::
      Inside(p, k, Best(slots, k).value.len, inv.min, inv.max - inv.min)
  }

  lemma {:induction false} SlotsFitting(p: Partitioner, slots: SlotMap, top: nat)
    requires p.Valid() && SlotsInv(p, slots) && 1 <= top <= p.MaxLevel() + 1
    ensures Fitting(p, slots, top)
  {
    var inv := p.InverseOf(top);
    forall k: nat | k < top && Best(slots, k).Some?
      ensures Inside(p, k, Best(slots, k).value.len, inv.min, inv.max - inv.min)
    {
      assert SlotAt(p, slots, k);
      LevelInside(p, k, top);
    }
  }

  /** A non-empty level below top lies inside the inverse range of top. */
  lemma {:induction false} LevelInside(p: Partitioner, level: nat, top: nat)
    requires p.Valid() && level < top <= p.MaxLevel() + 1 && p.RangeOf(level).Range?
    ensures p.InverseOf(top).min <= p.Lo(level) && p.Lo(level) + p.SizeOf(level) <= p.InverseOf(top).max
  {
    p.RangeBounds(level);
    var lo, hi := p.Lo(level), p.Lo(level) + p.SizeOf(level) - 1;
    p.RangeMembers(level, lo);
    p.RangeMembers(level, hi);
    p.InverseMembers(top, lo);
    p.InverseMembers(top, hi);
  }

  lemma {:induction false} UnshiftShift(s: set<nat>, lo: nat)
    requires forall g | g in s :: g >= lo
    ensures Shift(Unshift(s, lo), lo) == s
    ensures |Unshift(s, lo)| == |s|
  {
    assert Shift(Unshift(s, lo), lo) == s;
    ShiftCard(Unshift(s, lo), lo);
  }

  lemma {:induction false} HeldInside(p: Partitioner, slots: SlotMap, level: nat)
    requires p.Valid() && 1 <= level <= p.MaxLevel() + 1
    ensures forall g | g in Held(p, slots, level) :: p.InverseOf(level).Has(g)
  {
    forall g | g in Held(p, slots, level) ensures p.InverseOf(level).Has(g) {
      p.InverseMembers(level, g);
    }
  }

  /** A combined bitset has the size the peers expect, and no bit out of bounds. */
  lemma {:induction false} CombinedSized(p: Partitioner, scheme: Scheme, slots: SlotMap, level: nat)
    requires p.Valid() && 1 <= level <= p.MaxLevel() + 1
    ensures Combined(p, scheme, slots, level).Sized(p.InverseOf(level).max - p.InverseOf(level).min)
  {
    var inv := p.InverseOf(level);
    HeldInside(p, slots, level);
    forall j | j in Unshift(Held(p, slots, level), inv.min) ensures j < inv.max - inv.min {
      assert j + inv.min in Held(p, slots, level);
    }
  }

  /**
   * A combined multisignature has the size the peers expect, no bit out of bounds, and one
   * bit for each contribution held.
   */
  lemma {:induction false} CombinedExact(p: Partitioner, scheme: Scheme, slots: SlotMap, level: nat)
    requires p.Valid() && SlotsInv(p, slots) && 1 <= level <= p.MaxLevel() + 1
    ensures var ms, inv := Combined(p, scheme, slots, level), p.InverseOf(level);
            && ms.Sized(inv.max - inv.min) && ms.len == p.SizeBelow(level)
            && Shift(ms.bits, inv.min) == Held(p, slots, level)
            && |ms.bits| == CardBelow(slots, level) <= ms.len
  {
    p.InverseSize(level);
    CombinedSized(p, scheme, slots, level);
    HeldInside(p, slots, level);
    UnshiftShift(Held(p, slots, level), p.InverseOf(level).min);
    HeldCard(p, slots, level);
    CardBelowBound(p, slots, level);
  }

  /** A combined multisignature is valid for the nodes its bits denote. */
  lemma {:induction false} CombinedSound(p: Partitioner, scheme: Scheme, slots: SlotMap, level: nat)
    requires p.Valid() && SlotsInv(p, slots) && 1 <= level <= p.MaxLevel() + 1
    requires scheme.Lawful() && SoundSlots(p, scheme, slots)
    ensures var ms := Combined(p, scheme, slots, level);
            Keys(scheme, p.reg, p.InverseOf(level).min, ms.len).Sound(ms)
  {
    HeldInside(p, slots, level);
    UnshiftShift(Held(p, slots, level), p.InverseOf(level).min);
    SigBelowSound(p, scheme, slots, level);
  }

  lemma {:induction false} FullExact(p: Partitioner, scheme: Scheme, slots: SlotMap)
    requires p.Valid() && SlotsInv(p, slots)
    ensures var ms := Full(p, scheme, slots);
            ms.Sized(p.size) && |ms.bits| == CardBelow(slots, p.MaxLevel() + 1) <= p.size
  {
    p.TopInverse();
    CombinedExact(p, scheme, slots, p.MaxLevel() + 1);
  }

  lemma {:induction false} FullSound(p: Partitioner, scheme: Scheme, slots: SlotMap)
    requires p.Valid() && SlotsInv(p, slots) && scheme.Lawful() && SoundSlots(p, scheme, slots)
    ensures Full(p, scheme, slots).sig == p.reg.KeySum(scheme, Full(p, scheme, slots).bits)
  {
    var ms := Full(p, scheme, slots);
    p.TopInverse();
    CombinedSound(p, scheme, slots, p.MaxLevel() + 1);
    ShiftZero(ms.bits);
  }

  lemma {:induction false} ShiftZero(s: set<nat>)
    ensures Shift(s, 0) == s
  {
  }
}
