/**
 * Score 0 makes the queue drop a signature for good: SigEvaluator documents it as "the
 * signature can be discarded definitively" (processing.go:38-40). This module says exactly
 * when that is right.
 */
module Discard {
  import opened Signatures
  import opened Sets
  import opened Slots
  import opened Scoring
  import opened Soundness

  ghost predicate Verified(keys: Keys, sp: Incoming) {
    Fits(keys.size, sp) && keys.Sound(sp.ms.value)
  }

  ghost predicate VerifiedRun(keys: Keys, run: seq<Incoming>) {
    forall i | 0 <= i < |run| :: Verified(keys, run[i])
  }

  /** The slot after storing a run of verified signatures. */
  ghost function After(keys: Keys, slot: Slot, run: seq<Incoming>): (next: Slot)
    requires SlotInv(keys.size, slot) && VerifiedRun(keys, run)
    ensures SlotInv(keys.size, next)
    decreases |run|
  {
    if run == [] then slot
    else
      StoreKeeps(keys.scheme, keys.size, slot, run[0]);
      After(keys, StoreSlot(keys.scheme, slot, run[0]), run[1..])
  }

  /** Whatever is stored later, the signature keeps scoring 0. */
  ghost predicate UselessForever(keys: Keys, slot: Slot, sp: Incoming)
    requires SlotInv(keys.size, slot) && sp.ms.Some?
  {
    forall run: seq<Incoming> | VerifiedRun(keys, run) :: Evaluate(keys.size, After(keys, slot, run), sp) == 0
  }

  /** The condition under which a multisignature that scores 0 will never be of use. */
  predicate Settled(size: nat, slot: Slot, bits: set<nat>) {
    || slot.Full(size)
    || bits <= slot.verified
    || (bits <= slot.Bits() && (|slot.Bits()| + 1 == size || size <= 3))
  }

  lemma {:induction false} SettledStays(keys: Keys, slot: Slot, bits: set<nat>, sp: Incoming)
    requires SlotInv(keys.size, slot) && Fits(keys.size, sp)
    requires Settled(keys.size, slot, bits) && slot.best.Some?
    ensures Settled(keys.size, StoreSlot(keys.scheme, slot, sp), bits)
  {
    var size := keys.size;
    var next := StoreSlot(keys.scheme, slot, sp);
    StoreKeeps(keys.scheme, size, slot, sp);
    BelowCard(next.Bits(), size);
    if next.best != slot.best && !(bits <= slot.verified) && !slot.Full(size) && |slot.Bits()| + 1 < size {
      // A level of three with one contribution held.
      SmallMerge(keys, slot, sp);
    }
  }

  lemma {:induction false} SmallCandidate(cur: set<nat>, verified: set<nat>, bits: set<nat>)
    requires |cur| == 1
    ensures cur <= Candidate(cur, verified, bits)
  {
    var x :| x in cur;
    SubsetCard({x}, cur);
    assert cur == {x};
  }

  /** In a level of three nodes the single contribution held is never lost. */
  lemma {:induction false} SmallMerge(keys: Keys, slot: Slot, sp: Incoming)
    requires SlotInv(keys.size, slot) && Fits(keys.size, sp) && slot.best.Some?
    requires |slot.Bits()| == 1
    ensures slot.Bits() <= StoreSlot(keys.scheme, slot, sp).Bits()
  {
    CheckMergeCases(keys.scheme, Noted(slot, sp), sp.ms.value);
    SmallCandidate(slot.Bits(), Noted(slot, sp).verified, sp.ms.value.bits);
  }

  lemma {:induction false} SettledForever(keys: Keys, slot: Slot, sp: Incoming, run: seq<Incoming>)
    requires SlotInv(keys.size, slot) && Fits(keys.size, sp) && !sp.isInd && slot.best.Some?
    requires Settled(keys.size, slot, sp.ms.value.bits) && VerifiedRun(keys, run)
    ensures Evaluate(keys.size, After(keys, slot, run), sp) == 0
    decreases |run|
  {
    if run != [] {
      SettledStays(keys, slot, sp.ms.value.bits, run[0]);
      StoreKeeps(keys.scheme, keys.size, slot, run[0]);
      SettledForever(keys, StoreSlot(keys.scheme, slot, run[0]), sp, run[1..]);
    }
  }

  lemma {:induction false} IndividualZero(size: nat, slot: Slot, sp: Incoming)
    requires SlotInv(size, slot) && Fits(size, sp) && sp.isInd && size <= 65535 && sp.level <= 16
    ensures Evaluate(size, slot, sp) == 0 <==> slot.Full(size) || sp.mappedIndex in slot.verified
  {
    GainCases(size, slot, sp);
  }

  lemma {:induction false} FullStays(keys: Keys, slot: Slot, sp: Incoming)
    requires SlotInv(keys.size, slot) && Fits(keys.size, sp) && slot.Full(keys.size)
    ensures StoreSlot(keys.scheme, slot, sp).Full(keys.size)
  {
    StoreKeeps(keys.scheme, keys.size, slot, sp);
    BelowCard(StoreSlot(keys.scheme, slot, sp).Bits(), keys.size);
  }

  /** An individual signature with score 0 is already held, or its level is full: that lasts. */
  lemma {:induction false} IndividualForever(keys: Keys, slot: Slot, sp: Incoming, run: seq<Incoming>)
    requires SlotInv(keys.size, slot) && Fits(keys.size, sp) && sp.isInd && VerifiedRun(keys, run)
    requires slot.Full(keys.size) || sp.mappedIndex in slot.verified
    ensures Evaluate(keys.size, After(keys, slot, run), sp) == 0
    decreases |run|
  {
    if run != [] {
      StoreKeeps(keys.scheme, keys.size, slot, run[0]);
      if slot.Full(keys.size) { FullStays(keys, slot, run[0]); }
      IndividualForever(keys, StoreSlot(keys.scheme, slot, run[0]), sp, run[1..]);
    }
  }

  // ----- Runs that make a discarded multisignature useful again

  function Genuine(keys: Keys, bits: set<nat>): MultiSig {
    Exact(keys.size, bits, keys.Genuine(bits))
  }

  function Multi(keys: Keys, bits: set<nat>): Incoming {
    Incoming(0, 1, Some(Genuine(keys, bits)), false, 0)
  }

  function Single(keys: Keys, i: nat): Incoming {
    Incoming(0, 1, Some(Genuine(keys, {i})), true, i)
  }

  lemma {:induction false} Prepend(keys: Keys, slot: Slot, sp: Incoming, rest: seq<Incoming>)
    requires SlotInv(keys.size, slot) && Verified(keys, sp) && VerifiedRun(keys, rest)
    ensures VerifiedRun(keys, [sp] + rest)
    ensures SlotInv(keys.size, StoreSlot(keys.scheme, slot, sp))
    ensures After(keys, slot, [sp] + rest) == After(keys, StoreSlot(keys.scheme, slot, sp), rest)
  {
    StoreKeeps(keys.scheme, keys.size, slot, sp);
    assert ([sp] + rest)[1..] == rest;
  }

  lemma {:induction false} HeldIndividual(keys: Keys, slot: Slot, i: nat)
    requires SlotInv(keys.size, slot) && i in slot.Bits() && i !in slot.verified
    ensures Verified(keys, Single(keys, i))
    ensures var next := StoreSlot(keys.scheme, slot, Single(keys, i));
            && SlotInv(keys.size, next)
            && next.best == slot.best
            && next.Bits() - next.verified < slot.Bits() - slot.verified
  {
    var noted := Noted(slot, Single(keys, i));
    CheckMergeCases(keys.scheme, noted, Genuine(keys, {i}));
    SubsetCard(Candidate(slot.Bits(), noted.verified, {i}), slot.Bits());
    var next := StoreSlot(keys.scheme, slot, Single(keys, i));
    assert next == noted;
    assert i in slot.Bits() - slot.verified;
  }

  /** Every contribution of the best may yet be verified on its own, without changing the best. */
  lemma {:induction false} VerifyHeld(keys: Keys, slot: Slot) returns (run: seq<Incoming>)
    requires SlotInv(keys.size, slot) && slot.best.Some?
    ensures VerifiedRun(keys, run)
    ensures After(keys, slot, run).best == slot.best && After(keys, slot, run).verified == slot.Bits()
    decreases slot.Bits() - slot.verified
  {
    if slot.Bits() <= slot.verified {
      run := [];
    } else {
      var i :| i in slot.Bits() && i !in slot.verified;
      HeldIndividual(keys, slot, i);
      var rest := VerifyHeld(keys, StoreSlot(keys.scheme, slot, Single(keys, i)));
      Prepend(keys, slot, Single(keys, i), rest);
      run := [Single(keys, i)] + rest;
    }
  }

  /** A signature with a contribution the best lacks becomes useful once the best is verified. */
  lemma {:induction false} LackingRevives(keys: Keys, slot: Slot, sp: Incoming) returns (run: seq<Incoming>)
    requires SlotInv(keys.size, slot) && slot.best.Some? && !slot.Full(keys.size)
    requires Fits(keys.size, sp) && !sp.isInd && keys.size <= 65535 && sp.level <= 16
    requires !(sp.ms.value.bits <= slot.Bits())
    ensures VerifiedRun(keys, run) && Evaluate(keys.size, After(keys, slot, run), sp) > 0
  {
    run := VerifyHeld(keys, slot);
    var next := After(keys, slot, run);
    GainCases(keys.size, next, sp);
    SubsetCard(slot.Bits(), Candidate(slot.Bits(), next.verified, sp.ms.value.bits));
  }

  lemma {:induction false} AllBut(cur: set<nat>, verified: set<nat>, size: nat, i: nat)
    requires Below(cur, size) && verified <= cur && i in cur && i !in verified && |cur| >= 2
    ensures var bits := Upto(size) - {i};
            Candidate(cur, verified, bits) == bits && |bits| == size - 1
  {
    UptoCard(size);
    if (Upto(size) - {i}) !! cur {
      SubsetCard(cur, {i});
    }
  }

  /** A contribution not verified on its own can be pushed out of a best that is two short of full. */
  lemma {:induction false} PushOut(keys: Keys, slot: Slot, i: nat)
    requires SlotInv(keys.size, slot) && slot.best.Some? && i in slot.Bits() && i !in slot.verified
    requires 2 <= |slot.Bits()| <= keys.size - 2
    ensures var push := Multi(keys, Upto(keys.size) - {i});
            && Verified(keys, push)
            && StoreSlot(keys.scheme, slot, push).Bits() == Upto(keys.size) - {i}
            && |Upto(keys.size) - {i}| == keys.size - 1
  {
    AllBut(slot.Bits(), slot.verified, keys.size, i);
    CheckMergeCases(keys.scheme, slot, Genuine(keys, Upto(keys.size) - {i}));
  }

  /** A best that holds a single contribution can first grow by another one. */
  lemma {:induction false} Join(keys: Keys, slot: Slot, i: nat, j: nat)
    requires SlotInv(keys.size, slot) && slot.best.Some? && slot.Bits() == {i} && slot.verified == {}
    requires i != j && j < keys.size
    ensures var join := Multi(keys, {j}); var next := StoreSlot(keys.scheme, slot, join);
            Verified(keys, join) && next.Bits() == {i, j} && next.verified == {}
  {
    CheckMergeCases(keys.scheme, slot, Genuine(keys, {j}));
    assert Candidate({i}, {}, {j}) == {i, j};
    assert |{i, j}| == 2;
  }

  lemma {:induction false} PushedRevives(keys: Keys, slot: Slot, sp: Incoming) returns (run: seq<Incoming>)
    requires SlotInv(keys.size, slot) && slot.best.Some? && 2 <= |slot.Bits()| <= keys.size - 2
    requires Fits(keys.size, sp) && !sp.isInd && keys.size <= 65535 && sp.level <= 16
    requires sp.ms.value.bits <= slot.Bits() && !(sp.ms.value.bits <= slot.verified)
    ensures VerifiedRun(keys, run) && Evaluate(keys.size, After(keys, slot, run), sp) > 0
  {
    var i :| i in sp.ms.value.bits && i !in slot.verified;
    var push := Multi(keys, Upto(keys.size) - {i});
    PushOut(keys, slot, i);
    var next := StoreSlot(keys.scheme, slot, push);
    StoreKeeps(keys.scheme, keys.size, slot, push);
    var rest := LackingRevives(keys, next, sp);
    Prepend(keys, slot, push, rest);
    run := [push] + rest;
  }

  lemma {:induction false} HeldRevives(keys: Keys, slot: Slot, sp: Incoming) returns (run: seq<Incoming>)
    requires SlotInv(keys.size, slot) && slot.best.Some? && |slot.Bits()| <= keys.size - 2 && keys.size >= 4
    requires Fits(keys.size, sp) && !sp.isInd && keys.size <= 65535 && sp.level <= 16
    requires sp.ms.value.bits <= slot.Bits() && !(sp.ms.value.bits <= slot.verified)
    ensures VerifiedRun(keys, run) && Evaluate(keys.size, After(keys, slot, run), sp) > 0
  {
    if |slot.Bits()| >= 2 {
      run := PushedRevives(keys, slot, sp);
    } else {
      var i :| i in sp.ms.value.bits && i !in slot.verified;
      SubsetCard({i}, slot.Bits());
      assert slot.Bits() == {i};
      var j := if i == 0 then 1 else 0;
      var join := Multi(keys, {j});
      Join(keys, slot, i, j);
      StoreKeeps(keys.scheme, keys.size, slot, join);
      assert |{i, j}| == 2;
      var rest := PushedRevives(keys, StoreSlot(keys.scheme, slot, join), sp);
      Prepend(keys, slot, join, rest);
      run := [join] + rest;
    }
  }

  /**
   * A multisignature that scores 0 may be discarded definitively if and only if its level is
   * full, or all it holds is individually verified, or the best holds all of it and is one
   * short of full or in a level of at most three nodes. Otherwise verified signatures may
   * arrive after which it would have been worth storing.
   */
  lemma {:induction false} DiscardIsFinal(keys: Keys, slot: Slot, sp: Incoming)
    requires SlotInv(keys.size, slot) && Fits(keys.size, sp) && !sp.isInd
    requires keys.size <= 65535 && sp.level <= 16
    requires Evaluate(keys.size, slot, sp) == 0
    ensures UselessForever(keys, slot, sp) <==> Settled(keys.size, slot, sp.ms.value.bits)
  {
    GainCases(keys.size, slot, sp);
    BelowCard(slot.Bits(), keys.size);
    assert slot.best.Some?;
    if Settled(keys.size, slot, sp.ms.value.bits) {
      forall run: seq<Incoming> | VerifiedRun(keys, run)
        ensures Evaluate(keys.size, After(keys, slot, run), sp) == 0
      {
        SettledForever(keys, slot, sp, run);
      }
    } else {
      ghost var run: seq<Incoming>;
      if sp.ms.value.bits <= slot.Bits() {
        run := HeldRevives(keys, slot, sp);
      } else {
        run := LackingRevives(keys, slot, sp);
      }
      assert VerifiedRun(keys, run) && Evaluate(keys.size, After(keys, slot, run), sp) != 0;
    }
  }

  /** For an individual signature score 0 is final. */
  lemma {:induction false} DiscardIndividualIsFinal(keys: Keys, slot: Slot, sp: Incoming)
    requires SlotInv(keys.size, slot) && Fits(keys.size, sp) && sp.isInd
    requires keys.size <= 65535 && sp.level <= 16
    requires Evaluate(keys.size, slot, sp) == 0
    ensures UselessForever(keys, slot, sp)
  {
    IndividualZero(keys.size, slot, sp);
    forall run: seq<Incoming> | VerifiedRun(keys, run)
      ensures Evaluate(keys.size, After(keys, slot, run), sp) == 0
    {
      IndividualForever(keys, slot, sp, run);
    }
  }

  /**
   * The documented promise fails: in a level of eight nodes holding {0, 1}, a signature for
   * {1} scores 0; once one for everyone but 1 has replaced the best, it would complete the level.
   */
  lemma {:induction false} DiscardCounterexample(keys: Keys, slot: Slot, push: Incoming)
    requires keys.size == 8 && slot == Slot(Some(Genuine(keys, {0, 1})), {}, map[])
    requires push == Multi(keys, Upto(keys.size) - {1})
    ensures SlotInv(keys.size, slot) && Evaluate(keys.size, slot, Multi(keys, {1})) == 0
    ensures Verified(keys, push) && Evaluate(keys.size, StoreSlot(keys.scheme, slot, push), Multi(keys, {1})) > 0
  {
    ExampleSlot(keys, slot);
    PushedOutReturns(keys, slot, 1);
  }

  lemma {:induction false} ExampleSlot(keys: Keys, slot: Slot)
    requires keys.size == 8 && slot == Slot(Some(Genuine(keys, {0, 1})), {}, map[])
    ensures SlotInv(keys.size, slot) && |slot.Bits()| == 2
  {
    assert |{0, 1}| == 2;
  }

  lemma {:induction false} PushedOutReturns(keys: Keys, slot: Slot, i: nat)
    requires SlotInv(keys.size, slot) && slot.best.Some? && i in slot.Bits() && i !in slot.verified
    requires 2 <= |slot.Bits()| <= keys.size - 2 && keys.size <= 65535
    ensures Evaluate(keys.size, slot, Multi(keys, {i})) == 0
    ensures var push := Multi(keys, Upto(keys.size) - {i});
            Verified(keys, push) && Evaluate(keys.size, StoreSlot(keys.scheme, slot, push), Multi(keys, {i})) > 0
  {
    var push := Multi(keys, Upto(keys.size) - {i});
    PushOut(keys, slot, i);
    StoreKeeps(keys.scheme, keys.size, slot, push);
    LastOne(keys, StoreSlot(keys.scheme, slot, push), i);
  }

  lemma {:induction false} AllButOne(cur: set<nat>, n: nat, i: nat)
    requires i < n && cur == Upto(n) - {i}
    ensures i !in cur && |cur| == n - 1
  {
    UptoCard(n);
  }

  lemma {:induction false} LastGain(slot: Slot, ms: MultiSig, i: nat)
    requires slot.verified <= slot.Bits() && ms.bits == {i} && i !in slot.Bits()
    ensures GainOf(slot, ms) == Gain(|slot.Bits()| + 1, 1, 0)
  {
    GainMerging(slot, ms);
    assert Candidate(slot.Bits(), slot.verified, ms.bits) == slot.Bits() + {i};
  }

  lemma {:induction false} LastOne(keys: Keys, slot: Slot, i: nat)
    requires SlotInv(keys.size, slot) && i < keys.size <= 65535 && slot.best.Some?
    requires slot.Bits() == Upto(keys.size) - {i}
    ensures Evaluate(keys.size, slot, Multi(keys, {i})) > 0
  {
    AllButOne(slot.Bits(), keys.size, i);
    LastGain(slot, Genuine(keys, {i}), i);
    assert i in {i};
  }
}
