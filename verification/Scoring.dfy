/** The score given before verification predicts what storing will do (store.go:111-229). */
module Scoring {
  import opened Signatures
  import opened Sets
  import opened Slots

  /** An individual signature is its own verified contribution, so recording it first changes nothing. */
  lemma {:induction false} CandidateShape(size: nat, slot: Slot, sp: Incoming)
    requires SlotInv(size, slot) && Fits(size, sp)
    ensures var c := Candidate(slot.Bits(), slot.verified, sp.ms.value.bits);
            && Candidate(slot.Bits(), Noted(slot, sp).verified, sp.ms.value.bits) == c
            && Below(c, size)
  {
  }

  lemma {:induction false} GainReplacing(slot: Slot, ms: MultiSig)
    requires slot.verified <= slot.Bits() && !(ms.bits !! slot.Bits())
    ensures var c := Candidate(slot.Bits(), slot.verified, ms.bits);
            GainOf(slot, ms) == Gain(|c|, |c| - |slot.Bits()|, |c| - |ms.bits|) && |ms.bits| <= |c|
  {
    UnionCard(ms.bits, slot.Bits());
    SubsetCard(ms.bits, ms.bits + slot.verified);
  }

  lemma {:induction false} GainMerging(slot: Slot, ms: MultiSig)
    requires slot.verified <= slot.Bits() && ms.bits !! slot.Bits()
    ensures var c := Candidate(slot.Bits(), slot.verified, ms.bits);
            GainOf(slot, ms) == Gain(|c|, |c| - |slot.Bits()|, 0)
  {
    var c := Candidate(slot.Bits(), slot.verified, ms.bits);
    UnionCard(ms.bits, slot.Bits());
    if slot.best.Some? {
      assert ms.bits + slot.verified + slot.Bits() == c == slot.Bits() + ms.bits;
      assert (c - c) + (c - c) == {};
    } else {
      assert ms.bits + slot.verified == c == ms.bits;
    }
  }

  /** The score counts the contributions the merge would hold. */
  lemma {:induction false} GainCases(size: nat, slot: Slot, sp: Incoming)
    requires SlotInv(size, slot) && Fits(size, sp)
    ensures var g, c := GainOf(slot, sp.ms.value), Candidate(slot.Bits(), slot.verified, sp.ms.value.bits);
            && g.newTotal == |c| <= size && g.addedSigs == |c| - |slot.Bits()|
            && 0 <= g.combineCt <= size
  {
    if sp.ms.value.bits !! slot.Bits() {
      GainMerging(slot, sp.ms.value);
    } else {
      GainReplacing(slot, sp.ms.value);
    }
    CandidateShape(size, slot, sp);
    BelowCard(Candidate(slot.Bits(), slot.verified, sp.ms.value.bits), size);
  }

  /** Storing replaces the best by the candidate, exactly when that adds contributions. */
  lemma {:induction false} StoreByGain(scheme: Scheme, size: nat, slot: Slot, sp: Incoming)
    requires SlotInv(size, slot) && Fits(size, sp)
    ensures var g, next := GainOf(slot, sp.ms.value), StoreSlot(scheme, slot, sp);
            if g.addedSigs > 0 then |next.Bits()| == g.newTotal else next.best == slot.best
  {
    GainCases(size, slot, sp);
    CandidateShape(size, slot, sp);
    if slot.best.Some? {
      CheckMergeCases(scheme, Noted(slot, sp), sp.ms.value);
    }
  }

  /** The guards of the score only turn away signatures that add nothing. */
  lemma {:induction false} GuardsAddNothing(size: nat, slot: Slot, sp: Incoming)
    requires SlotInv(size, slot) && Fits(size, sp)
    requires slot.Full(size) || (sp.isInd && sp.mappedIndex in slot.verified) ||
             (!sp.isInd && sp.ms.value.bits <= slot.Bits())
    ensures GainOf(slot, sp.ms.value).addedSigs <= 0
  {
    GainCases(size, slot, sp);
    if !slot.Full(size) {
      SubsetCard(Candidate(slot.Bits(), slot.verified, sp.ms.value.bits), slot.Bits());
    }
  }

  /**
   * In any registry the wire format can carry, the score is never negative; a multisignature
   * scores above 0, and an individual signature above 1, exactly when storing it replaces the
   * best; the best then grows by the predicted count; and the scores of the signatures that
   * complete their level, and only those, lie above all others.
   */
  lemma {:induction false} ScorePredictsStore(scheme: Scheme, size: nat, slot: Slot, sp: Incoming)
    requires SlotInv(size, slot) && Fits(size, sp)
    requires size <= 65535 && sp.level <= 16
    ensures var score, next := Evaluate(size, slot, sp), StoreSlot(scheme, slot, sp);
            && score >= 0
            && (score > (if sp.isInd then 1 else 0) <==> next.best != slot.best)
            && (score > 1 <==> next.best != slot.best)
            && (next.best != slot.best ==>
                 |next.Bits()| == |slot.Bits()| + GainOf(slot, sp.ms.value).addedSigs > |slot.Bits()|)
            && (if next.Full(size) && !slot.Full(size) then 934305 <= score <= 1000000 else score <= 755450)
  {
    GainCases(size, slot, sp);
    StoreByGain(scheme, size, slot, sp);
    if slot.Full(size) || (sp.isInd && sp.mappedIndex in slot.verified) ||
       (!sp.isInd && sp.ms.value.bits <= slot.Bits()) {
      GuardsAddNothing(size, slot, sp);
    }
    FullIffCard(size, slot);
    StoreKeeps(scheme, size, slot, sp);
    FullIffCard(size, StoreSlot(scheme, slot, sp));
  }

  lemma {:induction false} FullIffCard(size: nat, slot: Slot)
    requires SlotInv(size, slot)
    ensures slot.Full(size) <==> slot.best.Some? && |slot.Bits()| == size
  {
  }
}
