/** The order in which waiting signatures are verified, in terms of what storing them would do. */
module Ranking {
  import opened Signatures
  import opened Sets
  import opened Slots
  import opened Scoring
  import opened Combining
  import opened Processing
  import opened Protocol
  import opened Safety
  import opened Runs
  import opened Progress

  // ----- What storing an entry does to its level

  predicate Replaces(scheme: Scheme, slot: Slot, sp: Incoming)
    requires sp.ms.Some? && (sp.isInd ==> sp.mappedIndex >= 0) && slot.verified <= slot.indiv.Keys
  {
    StoreSlot(scheme, slot, sp).best != slot.best
  }

  /** The contributions that the best of the level gains. */
  function Growth(scheme: Scheme, slot: Slot, sp: Incoming): int
    requires sp.ms.Some? && (sp.isInd ==> sp.mappedIndex >= 0) && slot.verified <= slot.indiv.Keys
  {
    |StoreSlot(scheme, slot, sp).Bits()| - |slot.Bits()|
  }

  /** The contributions of the new best that come only from verified individual signatures. */
  function Patched(scheme: Scheme, slot: Slot, sp: Incoming): nat
    requires sp.ms.Some? && (sp.isInd ==> sp.mappedIndex >= 0) && slot.verified <= slot.indiv.Keys
  {
    var ms := sp.ms.value.bits;
    |StoreSlot(scheme, slot, sp).Bits() - (if ms !! slot.Bits() then ms + slot.Bits() else ms)|
  }

  lemma {:induction false} ReplacedBits(scheme: Scheme, size: nat, slot: Slot, sp: Incoming)
    requires SlotInv(size, slot) && Fits(size, sp) && Replaces(scheme, slot, sp)
    ensures StoreSlot(scheme, slot, sp).Bits() == Candidate(slot.Bits(), slot.verified, sp.ms.value.bits)
  {
    CandidateShape(size, slot, sp);
    if slot.best.Some? {
      CheckMergeCases(scheme, Noted(slot, sp), sp.ms.value);
    }
  }

  /** The count that the score takes off is the number of patched contributions. */
  lemma {:induction false} PatchedCount(scheme: Scheme, size: nat, slot: Slot, sp: Incoming)
    requires SlotInv(size, slot) && Fits(size, sp) && Replaces(scheme, slot, sp)
    ensures GainOf(slot, sp.ms.value).combineCt == Patched(scheme, slot, sp)
  {
    var ms, c := sp.ms.value.bits, Candidate(slot.Bits(), slot.verified, sp.ms.value.bits);
    ReplacedBits(scheme, size, slot, sp);
    if ms !! slot.Bits() {
      GainMerging(slot, sp.ms.value);
      assert c - (ms + slot.Bits()) == {};
    } else {
      GainReplacing(slot, sp.ms.value);
      DifferenceCard(c, ms);
      assert c + ms == c;
    }
  }

  /**
   * The score, entirely in terms of what storing does: the levels with lower numbers come first, then
   * the larger growth, then the fewer patches; completing a level comes before all that.
   */
  lemma {:induction false} ScoreIs(scheme: Scheme, size: nat, slot: Slot, sp: Incoming)
    requires SlotInv(size, slot) && Fits(size, sp) && size <= 65535 && sp.level <= 16
    ensures Evaluate(size, slot, sp) ==
            if !Replaces(scheme, slot, sp) then
              (if sp.isInd && !slot.Full(size) && sp.mappedIndex !in slot.verified then 1 else 0)
            else if |StoreSlot(scheme, slot, sp).Bits()| == size then 1000000 - 10 * sp.level - Patched(scheme, slot, sp)
            else 100000 - 100 * sp.level + 10 * Growth(scheme, slot, sp) - Patched(scheme, slot, sp)
  {
    ScorePredictsStore(scheme, size, slot, sp);
    StoreByGain(scheme, size, slot, sp);
    GainCases(size, slot, sp);
    if Replaces(scheme, slot, sp) {
      PatchedCount(scheme, size, slot, sp);
    } else if sp.isInd {
      NotReplacedGain(scheme, size, slot, sp);
    }
  }

  lemma {:induction false} NotReplacedGain(scheme: Scheme, size: nat, slot: Slot, sp: Incoming)
    requires SlotInv(size, slot) && Fits(size, sp) && !Replaces(scheme, slot, sp)
    ensures GainOf(slot, sp.ms.value).addedSigs <= 0
  {
    StoreByGain(scheme, size, slot, sp);
    GainCases(size, slot, sp);
  }

  // ----- Two waiting entries

  /** The best of the level of sp after storing it. */
  predicate Fills(env: Env, slots: SlotMap, sp: Incoming)
    requires env.Valid() && Storable(slots, sp)
  {
    |StoreAt(env, slots, sp)[sp.level].Bits()| == env.p.SizeOf(sp.level)
  }

  predicate Improves(env: Env, slots: SlotMap, sp: Incoming)
    requires Storable(slots, sp)
  {
    Replaces(env.scheme, slots[sp.level], sp)
  }

  function GrowthAt(env: Env, slots: SlotMap, sp: Incoming): int
    requires Storable(slots, sp)
  {
    Growth(env.scheme, slots[sp.level], sp)
  }

  function PatchedAt(env: Env, slots: SlotMap, sp: Incoming): nat
    requires Storable(slots, sp)
  {
    Patched(env.scheme, slots[sp.level], sp)
  }

  lemma {:induction false} EntryScore(env: Env, slots: SlotMap, sp: Incoming)
    requires env.Valid() && SlotData(env, slots) && GoodEntry(env, sp) && sp.ms.Some?
    ensures Storable(slots, sp)
    ensures Improves(env, slots, sp) ==>
              Score(env, slots, sp) ==
              if Fills(env, slots, sp) then 1000000 - 10 * sp.level - PatchedAt(env, slots, sp)
              else 100000 - 100 * sp.level + 10 * GrowthAt(env, slots, sp) - PatchedAt(env, slots, sp)
    ensures Improves(env, slots, sp) <==> Score(env, slots, sp) > 1
  {
    EntryKnown(env, slots, sp);
    ScoreIs(env.scheme, env.p.SizeOf(sp.level), slots[sp.level], sp);
    ScorePredictsStore(env.scheme, env.p.SizeOf(sp.level), slots[sp.level], sp);
  }

  /** How the scores of two entries that replace their bests compare. */
  lemma {:induction false} ScoreOrder(env: Env, slots: SlotMap, a: Incoming, b: Incoming)
    requires env.Valid() && SlotData(env, slots)
    requires GoodEntry(env, a) && a.ms.Some? && Storable(slots, a) && Improves(env, slots, a)
    requires GoodEntry(env, b) && b.ms.Some? && Storable(slots, b) && Improves(env, slots, b)
    requires Fills(env, slots, a) <==> Fills(env, slots, b)
    ensures Score(env, slots, a) - Score(env, slots, b) ==
            (if Fills(env, slots, a) then 10 * (b.level - a.level)
             else 100 * (b.level - a.level) + 10 * (GrowthAt(env, slots, a) - GrowthAt(env, slots, b)))
            - (PatchedAt(env, slots, a) - PatchedAt(env, slots, b))
  {
    EntryScore(env, slots, a);
    EntryScore(env, slots, b);
  }

  /** An entry that fills its level comes before one that does not. */
  lemma {:induction false} FillsFirst(env: Env, slots: SlotMap, a: Incoming, b: Incoming)
    requires env.Valid() && SlotData(env, slots)
    requires GoodEntry(env, a) && a.ms.Some? && Storable(slots, a) && Improves(env, slots, a) && Fills(env, slots, a)
    requires GoodEntry(env, b) && b.ms.Some? && Storable(slots, b) && !(Improves(env, slots, b) && Fills(env, slots, b))
    ensures Score(env, slots, a) > Score(env, slots, b)
  {
    EntryFills(env, slots, a);
    EntryFills(env, slots, b);
  }

  lemma {:induction false} EntryFills(env: Env, slots: SlotMap, sp: Incoming)
    requires env.Valid() && SlotData(env, slots) && GoodEntry(env, sp) && sp.ms.Some? && Storable(slots, sp)
    ensures if Improves(env, slots, sp) && Fills(env, slots, sp) then Score(env, slots, sp) > 755450
            else Score(env, slots, sp) <= 755450
  {
    EntryKnown(env, slots, sp);
    var size, slot := env.p.SizeOf(sp.level), slots[sp.level];
    ScorePredictsStore(env.scheme, size, slot, sp);
    StoreKeeps(env.scheme, size, slot, sp);
    FullIffCard(size, slot);
    BelowCard(StoreSlot(env.scheme, slot, sp).Bits(), size);
  }

  // ----- The queue

  /** Both replace their bests, and as far as growth and patches go equally well. */
  predicate Alike(env: Env, slots: SlotMap, a: Incoming, b: Incoming)
    requires env.Valid() && Storable(slots, a) && Storable(slots, b)
  {
    && Improves(env, slots, a) && Improves(env, slots, b)
    && (Fills(env, slots, a) <==> Fills(env, slots, b))
    && (Fills(env, slots, a) || GrowthAt(env, slots, a) == GrowthAt(env, slots, b))
    && PatchedAt(env, slots, a) == PatchedAt(env, slots, b)
  }

  /** v is the better choice: it fills its level and w does not, or they are alike and w is not of a lower level. */
  ghost predicate Preferred(env: Env, slots: SlotMap, v: Incoming, w: Incoming)
    requires env.Valid()
  {
    && Storable(slots, v) && Storable(slots, w)
    && (Alike(env, slots, v, w) ==> v.level <= w.level)
    && (Improves(env, slots, w) && Fills(env, slots, w) ==> Improves(env, slots, v) && Fills(env, slots, v))
  }

  lemma {:induction false} HigherPreferred(env: Env, slots: SlotMap, v: Incoming, w: Incoming)
    requires env.Valid() && SlotData(env, slots)
    requires GoodEntry(env, v) && v.ms.Some? && GoodEntry(env, w) && w.ms.Some? && v.level in slots && w.level in slots
    requires Score(env, slots, v) >= Score(env, slots, w)
    ensures Preferred(env, slots, v, w)
  {
    EntryScore(env, slots, v);
    EntryScore(env, slots, w);
    if Alike(env, slots, v, w) { ScoreOrder(env, slots, v, w); }
    if Improves(env, slots, w) && Fills(env, slots, w) && !(Improves(env, slots, v) && Fills(env, slots, v)) {
      FillsFirst(env, slots, w, v);
    }
  }

  /**
   * In every run, when the scores are those of the store: an entry is selected as soon as one is worth
   * anything, and it is preferred to every other. So a signature that fills a level goes first, and
   * among signatures alike in growth and patches one of the lowest level.
   */
  lemma {:induction false} LowestLevelFirst(env: Env, st: State, n: nat, marks: seq<int>, w: Incoming)
    requires env.Valid() && env.Trusted() && Reachable(env, st, n) && Scored(env, st, marks)
    requires w in st.queue.todos && w.ms.Some? && w.level in st.slots && Score(env, st.slots, w) > 0
    ensures var best := ScanTo(st.queue.todos, marks, |marks|).best;
            best.Some? && best.value in st.queue.todos && Preferred(env, st.slots, best.value, w)
  {
    Always(env, st, n);
    var i :| 0 <= i < |st.queue.todos| && st.queue.todos[i] == w;
    var at := ScanSelects(st.queue.todos, marks, |marks|);
    assert Live(st.queue.todos, marks, i) && Live(st.queue.todos, marks, at);
    assert GoodEntry(env, st.queue.todos[i]) && GoodEntry(env, st.queue.todos[at]);
    EntryKnown(env, st.slots, st.queue.todos[at]);
    HigherPreferred(env, st.slots, st.queue.todos[at], w);
  }
}
