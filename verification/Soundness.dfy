/** Storing valid signatures keeps every stored multisignature valid. */
module Soundness {
  import opened Signatures
  import opened Sets
  import opened Slots

  /** The keys a level works with: bit i of the level belongs to node lo + i. */
  datatype Keys = Keys(scheme: Scheme, reg: Registry, lo: nat, size: nat) {

    ghost predicate Valid() {
      scheme.Lawful() && lo + size <= |reg.ids|
    }

    /** The one signature that verifies for exactly these local bits. */
    function Genuine(bits: set<nat>): Point {
      reg.KeySum(scheme, Shift(bits, lo))
    }

    ghost predicate Sound(ms: MultiSig) {
      ms.sig == Genuine(ms.bits)
    }

    /** The signature is that of the bits that verification looks at, those below the length announced. */
    ghost predicate Verified(ms: MultiSig) {
      ms.sig == Genuine(UptoOf(ms.bits, ms.len))
    }

    lemma {:induction false} VerifiedSound(ms: MultiSig)
      requires Below(ms.bits, ms.len)
      ensures Verified(ms) <==> Sound(ms)
    {
      assert UptoOf(ms.bits, ms.len) == ms.bits;
    }

    ghost predicate SoundSlot(slot: Slot) {
      && SlotInv(size, slot)
      && (slot.best.Some? ==> Sound(slot.best.value))
      && (forall i | i in slot.indiv :: Sound(slot.indiv[i]))
    }

    lemma {:induction false} GenuineUnion(a: set<nat>, b: set<nat>)
      requires Valid() && a !! b
      ensures Genuine(a + b) == scheme.add(Genuine(a), Genuine(b))
    {
      assert Shift(a + b, lo) == Shift(a, lo) + Shift(b, lo);
      scheme.SumUnion((i: nat) => reg.Key(scheme, i), Shift(a, lo), Shift(b, lo), |reg.ids|);
    }

    function UptoOf(s: set<nat>, k: nat): set<nat> {
      set i | i in s && i < k
    }

    lemma {:induction false} PatchSound(a: set<nat>, s: set<nat>, indiv: map<nat, MultiSig>, k: nat)
      requires Valid() && s <= indiv.Keys && a !! s
      requires forall i | i in s :: indiv[i].bits == {i} && Sound(indiv[i])
      ensures Patch(scheme, Genuine(a), s, indiv, k) == Genuine(a + UptoOf(s, k))
    {
      if k == 0 {
        assert a + UptoOf(s, 0) == a;
      } else {
        PatchSound(a, s, indiv, k - 1);
        var before := a + UptoOf(s, k - 1);
        if k - 1 in s {
          GenuineUnion({k - 1}, before);
          assert {k - 1} + before == a + UptoOf(s, k);
        } else {
          assert before == a + UptoOf(s, k);
        }
      }
    }

    /** Merging two valid signatures, or taking the new one, gives a valid signature. */
    lemma {:induction false} MergeBaseSound(ms2: MultiSig, ms: MultiSig)
      requires Valid() && Sound(ms) && Sound(ms2)
      ensures Sound(MergeBase(scheme, ms2, ms))
    {
      UnionCard(ms.bits, ms2.bits);
      if ms.bits !! ms2.bits {
        GenuineUnion(ms2.bits, ms.bits);
        assert ms2.bits + ms.bits == ms.bits + ms2.bits;
      }
    }

    /** Patching a valid signature with valid individual ones gives a valid signature. */
    lemma {:induction false} PatchedSound(base: MultiSig, slot: Slot, iS: set<nat>)
      requires Valid() && Sound(base) && Below(iS, base.len) && iS == slot.verified - base.bits && iS <= slot.indiv.Keys
      requires forall i | i in iS :: slot.indiv[i].bits == {i} && Sound(slot.indiv[i])
      ensures Patch(scheme, base.sig, iS, slot.indiv, base.len) == Genuine(base.bits + iS)
    {
      PatchSound(base.bits, iS, slot.indiv, base.len);
      assert UptoOf(iS, base.len) == iS;
    }

    lemma {:induction false} CheckMergeSound(slot: Slot, ms: MultiSig)
      requires Valid() && Sound(ms) && ms.Sized(size)
      requires slot.best.Some? ==> Sound(slot.best.value) && slot.best.value.width == size
      requires slot.verified <= slot.indiv.Keys && Below(slot.verified, size)
      requires forall i | i in slot.verified :: slot.indiv[i].bits == {i} && Sound(slot.indiv[i])
      ensures var n := CheckMerge(scheme, slot, ms); n.Some? ==> Sound(n.value)
    {
      if slot.best.Some? {
        var base := MergeBase(scheme, slot.best.value, ms);
        MergeBaseSound(slot.best.value, ms);
        PatchedSound(base, slot, slot.verified - base.bits);
      }
    }

    lemma {:induction false} StoreSound(slot: Slot, sp: Incoming)
      requires Valid() && SoundSlot(slot) && Fits(size, sp) && Sound(sp.ms.value)
      ensures SoundSlot(StoreSlot(scheme, slot, sp))
    {
      StoreKeeps(scheme, size, slot, sp);
      CheckMergeSound(Noted(slot, sp), sp.ms.value);
    }
  }
}
