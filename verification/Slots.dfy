/** store.go on values: what the store keeps for one level, how it merges and how it scores. */
module Slots {
  import opened Signatures
  import opened Sets

  /**
   * A multisignature: a bitset and the aggregate signature. The bitset wraps a bit vector: len is the
   * length it announces, width that of the vector. They differ only in what was read from the network.
   */
  datatype MultiSig = MultiSig(len: nat, width: nat, bits: set<nat>, sig: Point) {

    /** The bitset announces the length of its vector, which is n. */
    ghost predicate Sized(n: nat) {
      len == width == n && Below(bits, n)
    }
  }

  /** A multisignature whose bitset announces the length of its vector. */
  function Exact(len: nat, bits: set<nat>, sig: Point): MultiSig {
    MultiSig(len, len, bits, sig)
  }

  function Max(x: nat, y: nat): nat {
    if x < y then y else x
  }

  datatype Incoming = Incoming(origin: int, level: nat, ms: Option<MultiSig>, isInd: bool, mappedIndex: int)

  /** The best multisignature of one level, with the individual signatures verified there. */
  datatype Slot = Slot(best: Option<MultiSig>, verified: set<nat>, indiv: map<nat, MultiSig>) {

    function Bits(): set<nat> {
      if best.Some? then best.value.bits else {}
    }

    predicate Full(size: nat) {
      best.Some? && |best.value.bits| == size
    }
  }

  const EMPTY := Slot(None, {}, map[])

  /** A parsed packet entry for a level of the given size (handel.go:399-434). */
  ghost predicate Fits(size: nat, sp: Incoming) {
    && sp.ms.Some?
    && sp.ms.value.Sized(size) && sp.ms.value.bits != {}
    && (sp.isInd ==> sp.mappedIndex >= 0 && sp.ms.value.bits == {sp.mappedIndex})
  }

  ghost predicate SlotInv(size: nat, slot: Slot) {
    && (slot.best.Some? ==> slot.best.value.Sized(size) && slot.Bits() != {})
    && Below(slot.Bits(), size)
    && slot.verified <= slot.Bits()
    && slot.indiv.Keys == slot.verified
    && (forall i | i in slot.verified :: slot.indiv[i].Sized(size) && slot.indiv[i].bits == {i})
  }

  // ----- Store

  /** Adds the verified individual signatures at the positions of s below k to sig. */
  function Patch(scheme: Scheme, sig: Point, s: set<nat>, indiv: map<nat, MultiSig>, k: nat): Point
    requires s <= indiv.Keys
  {
    if k == 0 then sig
    else if k - 1 in s then scheme.add(indiv[k - 1].sig, Patch(scheme, sig, s, indiv, k - 1))
    else Patch(scheme, sig, s, indiv, k - 1)
  }

  /** Two signatures that share no contribution are merged, otherwise a clone of the new one is taken. */
  function MergeBase(scheme: Scheme, ms2: MultiSig, ms: MultiSig): MultiSig {
    var merged := ms.bits + ms2.bits;
    if |merged| == |ms2.bits| + |ms.bits| then Exact(Max(ms.width, ms2.width), merged, scheme.add(ms2.sig, ms.sig))
    else Exact(ms.width, ms.bits, ms.sig)
  }

  /** unsafeCheckMerge: the multisignature to keep, or None to keep the present one. */
  function CheckMerge(scheme: Scheme, slot: Slot, ms: MultiSig): Option<MultiSig>
    requires slot.verified <= slot.indiv.Keys
  {
    if slot.best.None? then Some(ms)
    else
      var ms2 := slot.best.value;
      var best := MergeBase(scheme, ms2, ms);
      var iS := slot.verified - best.bits;
      if |iS| + |best.bits| <= |ms2.bits| then None
      else Some(best.(bits := best.bits + iS, sig := Patch(scheme, best.sig, iS, slot.indiv, best.len)))
  }

  /** An individual signature is recorded before anything else is decided. */
  function Noted(slot: Slot, sp: Incoming): Slot
    requires sp.ms.Some? && (sp.isInd ==> sp.mappedIndex >= 0)
  {
    if sp.isInd
    then slot.(verified := slot.verified + {sp.mappedIndex}, indiv := slot.indiv[sp.mappedIndex := sp.ms.value])
    else slot
  }

  /** The best is replaced by the outcome of the merge, if there is one. */
  function Decided(scheme: Scheme, slot: Slot, ms: MultiSig): Slot
    requires slot.verified <= slot.indiv.Keys
  {
    var n := CheckMerge(scheme, slot, ms);
    if n.Some? then slot.(best := n) else slot
  }

  function StoreSlot(scheme: Scheme, slot: Slot, sp: Incoming): Slot
    requires sp.ms.Some? && (sp.isInd ==> sp.mappedIndex >= 0)
    requires slot.verified <= slot.indiv.Keys
  {
    Decided(scheme, Noted(slot, sp), sp.ms.value)
  }

  /**
   * Store does not panic: an individual signature has one bit and a position in the level, and
   * every verified one that is to be added is there, has one bit, and lies below the length of the outcome.
   */
  ghost predicate StoreSafe(scheme: Scheme, size: nat, slot: Slot, sp: Incoming)
    requires sp.ms.Some? && (sp.isInd ==> sp.mappedIndex >= 0)
  {
    && (sp.isInd ==> |sp.ms.value.bits| == 1 && sp.mappedIndex < size)
    && (slot.best.Some? ==> PatchSafe(MergeBase(scheme, slot.best.value, sp.ms.value), Noted(slot, sp)))
  }

  ghost predicate PatchSafe(best: MultiSig, noted: Slot) {
    var iS := noted.verified - best.bits;
    |iS| + |best.bits| <= |noted.Bits()| ||
    forall i | i in iS :: i in noted.indiv && |noted.indiv[i].bits| == 1 && i < best.len
  }

  // ----- Evaluate

  datatype Gain = Gain(newTotal: nat, addedSigs: int, combineCt: int)

  function GainOf(slot: Slot, ms: MultiSig): Gain {
    var withIndiv := ms.bits + slot.verified;
    if slot.best.None? then
      Gain(|withIndiv|, |withIndiv|, |withIndiv| - |ms.bits|)
    else
      var cur := slot.best.value.bits;
      if |ms.bits * cur| != 0 then
        Gain(|withIndiv|, |withIndiv| - |cur|, |withIndiv| - |ms.bits|)
      else
        var finalSet := withIndiv + cur;
        var both := cur + ms.bits;
        Gain(|finalSet|, |finalSet| - |cur|, |(finalSet - both) + (both - finalSet)|)
  }

  function Evaluate(toReceive: nat, slot: Slot, sp: Incoming): int
    requires sp.ms.Some?
  {
    var ms := sp.ms.value;
    if slot.best.Some? && toReceive == |slot.best.value.bits| then 0
    else if sp.isInd && sp.mappedIndex in slot.verified then 0
    else if slot.best.Some? && !sp.isInd && ms.bits <= slot.best.value.bits then 0
    else
      var g := GainOf(slot, ms);
      if g.addedSigs <= 0 then (if sp.isInd then 1 else 0)
      else if g.newTotal == toReceive then 1000000 - sp.level * 10 - g.combineCt
      else 100000 - sp.level * 100 + g.addedSigs * 10 - g.combineCt
  }

  /** Evaluate does not panic: an individual signature has a position in the level, and the score is not negative. */
  ghost predicate EvaluateSafe(size: nat, slot: Slot, sp: Incoming)
    requires sp.ms.Some?
  {
    (sp.isInd ==> 0 <= sp.mappedIndex < size) && Evaluate(size, slot, sp) >= 0
  }

  // ----- What Store keeps

  /** The contributions a best would hold after the merge or replacement. */
  function Candidate(cur: set<nat>, verified: set<nat>, ms: set<nat>): set<nat> {
    if ms !! cur then ms + cur + verified else ms + verified
  }

  lemma {:induction false} CandidateParts(cur: set<nat>, verified: set<nat>, ms: set<nat>)
    ensures |ms + cur| == |cur| + |ms| <==> ms !! cur
    ensures var base := if ms !! cur then ms + cur else ms;
            && |verified - base| + |base| == |Candidate(cur, verified, ms)|
            && base + (verified - base) == Candidate(cur, verified, ms)
  {
    UnionCard(ms, cur);
    var base := if ms !! cur then ms + cur else ms;
    DifferenceCard(verified, base);
    assert verified + base == Candidate(cur, verified, ms);
  }

  /** The length of the outcome is that of the vectors. */
  function MergedLen(slot: Slot, ms: MultiSig): nat {
    if slot.best.Some? && ms.bits !! slot.Bits() then Max(ms.width, slot.best.value.width) else ms.width
  }

  lemma {:induction false} CheckMergeCases(scheme: Scheme, slot: Slot, ms: MultiSig)
    requires slot.verified <= slot.indiv.Keys && slot.best.Some?
    ensures var c, n := Candidate(slot.Bits(), slot.verified, ms.bits), CheckMerge(scheme, slot, ms);
            if |c| <= |slot.Bits()| then n.None?
            else n.Some? && n.value.len == n.value.width == MergedLen(slot, ms) && n.value.bits == c
  {
    CandidateParts(slot.Bits(), slot.verified, ms.bits);
  }

  /** What a slot turns into when its noted form gets the outcome n of the merge. */
  ghost predicate Outcome(noted: Slot, ms: MultiSig, n: Option<MultiSig>) {
    if noted.best.None? then n == Some(ms)
    else
      var c := Candidate(noted.Bits(), noted.verified, ms.bits);
      if |c| <= |noted.Bits()| then n.None?
      else n.Some? && n.value.len == n.value.width == MergedLen(noted, ms) && n.value.bits == c
  }

  /** When a best is not replaced, every verified individual contribution is in it already. */
  lemma {:induction false} NotedInside(size: nat, slot: Slot, sp: Incoming)
    requires SlotInv(size, slot) && Fits(size, sp)
    requires |Candidate(slot.Bits(), Noted(slot, sp).verified, sp.ms.value.bits)| <= |slot.Bits()|
    ensures Noted(slot, sp).verified <= slot.Bits()
  {
    if sp.isInd && sp.mappedIndex !in slot.Bits() {
      SubsetCard(slot.Bits(), Candidate(slot.Bits(), Noted(slot, sp).verified, sp.ms.value.bits));
    }
  }

  lemma {:induction false} NotedIndiv(size: nat, slot: Slot, sp: Incoming)
    requires SlotInv(size, slot) && Fits(size, sp)
    ensures var noted := Noted(slot, sp);
            && noted.indiv.Keys == noted.verified && Below(noted.verified, size)
            && forall i | i in noted.verified :: noted.indiv[i].Sized(size) && noted.indiv[i].bits == {i}
  {
  }

  lemma {:induction false} CandidateFits(size: nat, cur: set<nat>, verified: set<nat>, ms: set<nat>, n: MultiSig)
    requires Below(cur, size) && Below(verified, size) && Below(ms, size) && ms != {}
    requires n.len == n.width == size && n.bits == Candidate(cur, verified, ms)
    ensures n.Sized(size) && n.bits != {} && verified <= n.bits
  {
    assert ms <= n.bits;
  }

  lemma {:induction false} OutcomeKeeps(size: nat, slot: Slot, sp: Incoming, n: Option<MultiSig>, next: Slot)
    requires SlotInv(size, slot) && Fits(size, sp)
    requires Outcome(Noted(slot, sp), sp.ms.value, n)
    requires next == if n.Some? then Noted(slot, sp).(best := n) else Noted(slot, sp)
    ensures SlotInv(size, next)
  {
    var noted := Noted(slot, sp);
    assert noted.best == slot.best;
    NotedIndiv(size, slot, sp);
    if n.None? {
      NotedInside(size, slot, sp);
    } else if slot.best.Some? {
      CandidateFits(size, slot.Bits(), noted.verified, sp.ms.value.bits, n.value);
    }
  }

  /** Storing what fits the level never panics. */
  lemma {:induction false} StoreIsSafe(scheme: Scheme, size: nat, slot: Slot, sp: Incoming)
    requires SlotInv(size, slot) && Fits(size, sp)
    ensures StoreSafe(scheme, size, slot, sp)
  {
    if slot.best.Some? {
      var best, noted := MergeBase(scheme, slot.best.value, sp.ms.value), Noted(slot, sp);
      forall i | i in noted.verified - best.bits
        ensures i in noted.indiv && |noted.indiv[i].bits| == 1 && i < best.len
      {
        assert noted.indiv[i].bits == {i};
      }
    }
  }

  /**
   * The invariant of a level is kept, so no verified individual contribution is ever lost;
   * verified contributions only grow, and a best is only replaced by a larger one.
   */
  lemma {:induction false} StoreKeeps(scheme: Scheme, size: nat, slot: Slot, sp: Incoming)
    requires SlotInv(size, slot) && Fits(size, sp)
    ensures var next := StoreSlot(scheme, slot, sp);
            && SlotInv(size, next)
            && slot.verified <= next.verified <= next.Bits()
            && (sp.isInd ==> sp.mappedIndex in next.verified)
            && next.best.Some?
            && (next.best == slot.best || |slot.Bits()| < |next.Bits()|)
  {
    var noted, ms := Noted(slot, sp), sp.ms.value;
    if slot.best.Some? { CheckMergeCases(scheme, noted, ms); }
    OutcomeKeeps(size, slot, sp, CheckMerge(scheme, noted, ms), StoreSlot(scheme, slot, sp));
  }
}
