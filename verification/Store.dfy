/** store.go: the signature store with its maps of multisignatures and bitsets. */
module SignatureStore {
  import opened Numbers
  import opened Signatures
  import opened Sets
  import opened Partition
  import opened Slots
  import opened Combining
  import opened BitSets
  import opened Assembly

  lemma {:induction false} PatchSkip(scheme: Scheme, sig: Point, s: set<nat>, indiv: map<nat, MultiSig>, j: nat, k: nat)
    requires s <= indiv.Keys && j <= k && forall i | j <= i < k :: i !in s
    ensures Patch(scheme, sig, s, indiv, k) == Patch(scheme, sig, s, indiv, j)
  {
    if j < k { PatchSkip(scheme, sig, s, indiv, j, k - 1); }
  }

  function Before(s: set<nat>, k: nat): set<nat> {
    set i | i in s && i < k
  }

  method Merge(scheme: Scheme, ms2: MultiSignature, ms: MultiSignature) returns (best: MultiSignature)
    ensures fresh(best.bs) && best.bs.len == best.bs.width && best.View() == MergeBase(scheme, ms2.View(), ms.View())
  {
    var clone := ms.bs.Clone();
    best := MultiSignature(clone, ms.sig);
    var merged := ms.bs.Or(ms2.bs);
    if merged.Cardinality() == ms2.bs.Cardinality() + ms.bs.Cardinality() {
      best := MultiSignature(merged, scheme.add(ms2.sig, ms.sig));
    }
  }

  /** The verified individual signatures that best lacks. */
  method Lacking(best: BitSet, vl: BitSet) returns (iS: BitSet)
    requires vl.Valid()
    ensures fresh(iS) && iS.bits == vl.bits - best.bits && iS.Valid()
  {
    var both := best.And(vl);
    iS := both.Xor(vl);
  }

  /** unsafeCheckMerge: merges or replaces, then complements with verified individual signatures. */
  method CheckMergeSigs(scheme: Scheme, ms2: Option<MultiSignature>, vl: BitSet, individual: map<nat, MultiSignature>,
                        ms: MultiSignature, ghost slot: Slot) returns (n: Option<MultiSignature>)
    requires vl.Valid()
    requires slot.best == if ms2.Some? then Some(ms2.value.View()) else None
    requires slot.verified == vl.bits <= individual.Keys == slot.indiv.Keys
    requires forall i | i in individual :: slot.indiv[i] == individual[i].View()
    requires ms2.Some? ==> PatchSafe(MergeBase(scheme, ms2.value.View(), ms.View()), slot)
    ensures n.None? <==> CheckMerge(scheme, slot, ms.View()).None?
    ensures n.Some? ==> n.value.View() == CheckMerge(scheme, slot, ms.View()).value
    ensures n.Some? ==> if ms2.None? then n.value == ms else fresh(n.value.bs)
  {
    if ms2.None? {
      return Some(ms);
    }
    var best := Merge(scheme, ms2.value, ms);
    ghost var base := best.View();
    var iS := Lacking(best.bs, vl);
    if iS.Cardinality() + best.bs.Cardinality() <= ms2.value.bs.Cardinality() {
      return None;
    }
    var sig := Complement(scheme, best.bs, best.sig, iS, individual, slot);
    assert best.bs.bits == base.bits + (slot.verified - base.bits);
    return Some(MultiSignature(best.bs, sig));
  }

  method GainOfSig(cur: Option<MultiSignature>, vl: BitSet, ms: MultiSignature, ghost slot: Slot) returns (g: Gain)
    requires slot.best == (if cur.Some? then Some(cur.value.View()) else None) && slot.verified == vl.bits
    ensures g == GainOf(slot, ms.View())
  {
    var withIndiv := ms.bs.Or(vl);
    if cur.None? {
      var newTotal := withIndiv.Cardinality();
      return Gain(newTotal, newTotal, newTotal - ms.bs.Cardinality());
    }
    var best := cur.value.bs;
    if ms.bs.IntersectionCardinality(best) != 0 {
      var newTotal := withIndiv.Cardinality();
      return Gain(newTotal, newTotal - best.Cardinality(), newTotal - ms.bs.Cardinality());
    }
    var finalSet := withIndiv.Or(best);
    var both := best.Or(ms.bs);
    var combined := finalSet.Xor(both);
    var newTotal := finalSet.Cardinality();
    return Gain(newTotal, newTotal - best.Cardinality(), combined.Cardinality());
  }

  /** Sets every bit of iS and adds its individual signature. */
  method Complement(scheme: Scheme, bitset: BitSet, sig0: Point, iS: BitSet, individual: map<nat, MultiSignature>,
                    ghost slot: Slot) returns (sig: Point)
    requires bitset.len == bitset.width && iS.Valid() && Below(iS.bits, bitset.len) && iS != bitset
    requires iS.bits <= individual.Keys == slot.indiv.Keys
    requires forall i | i in individual :: slot.indiv[i] == individual[i].View()
    requires forall i | i in iS.bits :: |slot.indiv[i].bits| == 1
    requires forall i | i in individual :: individual[i].bs != bitset
    modifies bitset
    ensures bitset.bits == old(bitset.bits) + iS.bits && bitset.width == bitset.len
    ensures sig == Patch(scheme, sig0, iS.bits, slot.indiv, bitset.len)
  {
    sig := sig0;
    var pos, cont := iS.NextSet(0);
    PatchSkip(scheme, sig0, iS.bits, slot.indiv, 0, if cont then pos else bitset.len);
    while cont
      invariant cont ==> pos < iS.width && pos in iS.bits
      invariant bitset.width == bitset.len && (!cont ==> Before(iS.bits, bitset.len) == iS.bits)
      invariant bitset.bits == old(bitset.bits) + Before(iS.bits, if cont then pos else bitset.len)
      invariant sig == Patch(scheme, sig0, iS.bits, slot.indiv, if cont then pos else bitset.len)
      decreases if cont then iS.width - pos else 0
    {
      var one := individual[pos];
      assert one.bs.Cardinality() == 1;
      bitset.Set(pos, true);
      sig := scheme.add(one.sig, sig);
      ghost var was := pos;
      pos, cont := iS.NextSet(pos + 1);
      PatchSkip(scheme, sig0, iS.bits, slot.indiv, was + 1, if cont then pos else bitset.len);
    }
  }

  /**
   * The struct store. slots is its abstract value, and frozen the set of bitsets it has been
   * given or has handed out: those are never updated in place.
   */
  class SigStore {
    const p: Partitioner
    const scheme: Scheme
    var m: map<nat, MultiSignature>
    var highest: nat
    const indivSigsVerified: map<nat, BitSet>
    var individualSigs: map<nat, map<nat, MultiSignature>>
    ghost var slots: SlotMap
    ghost var frozen: set<BitSet>

    /** The bitsets updated in place are one for each level. */
    ghost predicate Apart() {
      forall j, k | j in indivSigsVerified && k in indivSigsVerified && j != k ::
        indivSigsVerified[j] != indivSigsVerified[k]
    }

    /** The fields of level k denote its slot, and share no bitset with the ones updated in place. */
    ghost predicate Denotes(k: nat)
      reads this, frozen, indivSigsVerified.Values
    {
      && k in slots && k in indivSigsVerified && k in individualSigs
      && indivSigsVerified[k] !in frozen && slots[k].verified == indivSigsVerified[k].bits
      && indivSigsVerified[k].Sized(indivSigsVerified[k].len)
      && (k in m ==> m[k].bs in frozen)
      && slots[k].best == (if k in m then Some(m[k].View()) else None)
      && slots[k].indiv.Keys == individualSigs[k].Keys
      && (forall i | i in individualSigs[k] ::
            individualSigs[k][i].bs in frozen && slots[k].indiv[i] == individualSigs[k][i].View())
    }

    /** A bitset that the store does not update in place. */
    ghost predicate Foreign(bs: BitSet) {
      forall k | k in indivSigsVerified :: indivSigsVerified[k] != bs
    }

    ghost predicate Shape()
      reads this, frozen, indivSigsVerified.Values
    {
      && Apart()
      && slots.Keys == indivSigsVerified.Keys && m.Keys <= slots.Keys
      && (forall k | k in slots :: Denotes(k))
    }

    ghost predicate Sized()
      requires p.Valid()
    {
      forall k | k in indivSigsVerified :: indivSigsVerified[k].len == p.SizeOf(k)
    }

    ghost predicate Valid()
      reads this, frozen, indivSigsVerified.Values
    {
      Shape() && p.Valid() && Sized() && SlotsInv(p, slots)
    }

    /** newStore */
    constructor (p: Partitioner, scheme: Scheme)
      requires p.Valid()
      ensures Valid() && fresh(indivSigsVerified.Values) && frozen == {}
      ensures this.p == p && this.scheme == scheme
      ensures slots == map k | k in indivSigsVerified :: EMPTY
    {
      var verified := NewVerified(p);
      this.p, this.scheme := p, scheme;
      m := map[];
      indivSigsVerified := verified;
      individualSigs := map k | k in verified :: map[];
      slots := map k | k in verified :: EMPTY;
      frozen := {};
      highest := 0;
      new;
      forall k | k in slots ensures Denotes(k) {
      }
      EmptySlots(p, slots);
    }

    /** Marks a position as individually verified. */
    method MarkVerified(level: nat, index: nat)
      requires Shape() && level in slots && index < indivSigsVerified[level].len
      modifies `slots, indivSigsVerified[level]
      ensures Shape()
      ensures slots == old(slots)[level := old(slots)[level].(verified := old(slots)[level].verified + {index})]
    {
      indivSigsVerified[level].Set(index, true);
      slots := slots[level := slots[level].(verified := slots[level].verified + {index})];
      forall k | k in slots ensures Denotes(k) {
        assert k != level ==> old(Denotes(k));
      }
    }

    /** Keeps a verified individual signature. */
    method KeepIndividual(level: nat, index: nat, ms: MultiSignature)
      requires Shape() && level in slots && ms.bs in frozen
      modifies `individualSigs, `slots
      ensures Shape()
      ensures slots == old(slots)[level := old(slots)[level].(indiv := old(slots)[level].indiv[index := ms.View()])]
    {
      ghost var slot := slots[level].(indiv := slots[level].indiv[index := ms.View()]);
      var held: map<nat, MultiSignature> := individualSigs[level] + map[index := ms];
      individualSigs, slots := individualSigs[level := held], slots[level := slot];
      forall k | k in slots ensures Denotes(k) {
        assert k != level ==> old(Denotes(k));
      }
    }

    /** From here on the bitset must not be updated. */
    ghost method Freeze(bs: BitSet)
      requires Shape() && Foreign(bs)
      modifies `frozen
      ensures Shape() && frozen == old(frozen) + {bs}
    {
      frozen := frozen + {bs};
      forall k | k in slots ensures Denotes(k) {
        assert old(Denotes(k));
      }
    }

    /** store */
    method SetBest(level: nat, ms: MultiSignature)
      requires Shape() && level in slots && Foreign(ms.bs)
      modifies `m, `highest, `frozen, `slots
      ensures m == old(m)[level := ms]
      ensures Shape() && frozen == old(frozen) + {ms.bs}
      ensures slots == old(slots)[level := old(slots)[level].(best := Some(ms.View()))]
    {
      ghost var slot := slots[level].(best := Some(ms.View()));
      m, frozen, slots := m[level := ms], frozen + {ms.bs}, slots[level := slot];
      if level > highest {
        highest := level;
      }
      forall k | k in slots ensures Denotes(k) {
        assert k != level ==> old(Denotes(k));
      }
    }

    /** The first part of Store: the bitset is kept, and an individual signature is recorded. */
    method Note(sp: IncomingSig)
      requires Shape() && sp.level in slots && Foreign(sp.ms.bs)
      requires sp.isInd ==> 0 <= sp.mappedIndex < indivSigsVerified[sp.level].len && |sp.ms.bs.bits| == 1
      modifies `individualSigs, `frozen, `slots, indivSigsVerified[sp.level]
      ensures Shape() && frozen == old(frozen) + {sp.ms.bs}
      ensures slots == old(slots)[sp.level := Noted(old(slots)[sp.level], old(sp.View()))]
    {
      Freeze(sp.ms.bs);
      if sp.isInd {
        assert sp.ms.bs.Cardinality() == 1;
        MarkVerified(sp.level, sp.mappedIndex);
        KeepIndividual(sp.level, sp.mappedIndex, sp.ms);
      }
    }

    /** The second part of Store: merge or replace, and keep the outcome. */
    method Decide(sp: IncomingSig) returns (n: Option<MultiSignature>)
      requires Shape() && sp.level in slots && Foreign(sp.ms.bs) && sp.ms.bs in frozen
      requires MergeSafe(scheme, slots[sp.level], sp.ms.View())
      modifies `m, `highest, `frozen, `slots
      ensures Shape() && old(frozen) <= frozen
      ensures slots == old(slots)[sp.level := Decided(scheme, old(slots)[sp.level], sp.ms.View())]
      ensures n.Some? ==> n.value.bs in frozen && slots[sp.level].best == Some(n.value.View())
      ensures n.None? ==> slots[sp.level].best == old(slots)[sp.level].best
    {
      ghost var slot := slots[sp.level];
      var ms2 := if sp.level in m then Some(m[sp.level]) else None;
      assert Denotes(sp.level);
      n := CheckMergeSigs(scheme, ms2, indivSigsVerified[sp.level], individualSigs[sp.level], sp.ms, slot);
      DecidedCases(scheme, slot, sp.ms.View(), slots, sp.level);
      if n.Some? {
        SetBest(sp.level, n.value);
      }
    }

    /** The signature is for a slot, fits it, and does not refer to a bitset of the store. */
    ghost predicate Accepts(sp: IncomingSig)
      requires p.Valid()
      reads this, sp.ms.bs
    {
      && sp.level in slots && Foreign(sp.ms.bs)
      && SlotInv(p.SizeOf(sp.level), slots[sp.level]) && Fits(p.SizeOf(sp.level), sp.View())
    }

    /**
     * Store. Only the bitset of the individual signatures of the level is updated in place, so
     * a multisignature stored or handed out before keeps its value.
     */
    method Store(sp: IncomingSig) returns (n: Option<MultiSignature>)
      requires Valid() && Accepts(sp)
      modifies this, indivSigsVerified[sp.level]
      ensures Valid() && old(frozen) + {sp.ms.bs} <= frozen
      ensures slots == old(slots)[sp.level := StoreSlot(scheme, old(slots)[sp.level], old(sp.View()))]
      ensures n.Some? ==> n.value.bs in frozen && slots[sp.level].best == Some(n.value.View())
      ensures n.None? ==> slots[sp.level].best == old(slots)[sp.level].best
    {
      ghost var before, v := slots, sp.View();
      NotedSafe(scheme, p.SizeOf(sp.level), slots[sp.level], v);
      StoreKeeps(scheme, p.SizeOf(sp.level), slots[sp.level], v);
      Note(sp);
      ghost var noted := slots;
      assert noted[sp.level] == Noted(before[sp.level], v);
      n := Decide(sp);
      NotedThenDecided(scheme, before, sp.level, v, noted, slots);
      SlotsKept(p, before, sp.level, StoreSlot(scheme, before[sp.level], v));
    }

    /** Best */
    method BestAt(level: nat) returns (ms: Option<MultiSignature>)
      requires Shape()
      ensures (if ms.Some? then Some(ms.value.View()) else None) == Best(slots, level)
    {
      assert level in slots ==> Denotes(level);
      return if level in m then Some(m[level]) else None;
    }

    /** views are the values of sigs, which the store will not update. */
    ghost predicate Paired(sigs: seq<LevelSig>, views: seq<LevelView>)
      reads this, frozen
    {
      && |views| == |sigs|
      && (forall i | 0 <= i < |sigs| :: sigs[i].ms.bs in frozen && views[i] == LevelView(sigs[i].level, sigs[i].ms.View()))
    }

    method Append(sigs: seq<LevelSig>, ghost views: seq<LevelView>, k: nat)
      returns (next: seq<LevelSig>, ghost nextViews: seq<LevelView>)
      requires Paired(sigs, views) && k in m && Denotes(k)
      ensures Paired(next, nextViews) && nextViews == views + [LevelView(k, slots[k].best.value)]
    {
      next := sigs + [LevelSig(k, m[k])];
      nextViews := views + [LevelView(k, m[k].View())];
    }

    /** The signatures of the levels below top, in the arbitrary order of the map. */
    method Signatures(top: nat) returns (sigs: seq<LevelSig>, ghost views: seq<LevelView>)
      requires Shape()
      ensures Paired(sigs, views) && Listed(slots, top, views, m.Keys)
      ensures forall k: nat :: Best(slots, k).Some? ==> k in m.Keys
    {
      sigs, views := [], [];
      var keys := m.Keys;
      ghost var done: set<nat> := {};
      while keys != {}
        invariant keys <= m.Keys <= done + keys && done !! keys
        invariant Paired(sigs, views) && Listed(slots, top, views, done)
        decreases |keys|
      {
        var k: nat :| k in keys;
        assert Denotes(k);
        if k < top {
          ListOne(slots, top, views, done, k, slots[k].best.value);
          sigs, views := Append(sigs, views, k);
        } else {
          ListNone(slots, top, views, done, k);
        }
        var one: set<nat> := {k};
        keys, done := keys - one, done + one;
      }
      forall k: nat | Best(slots, k).Some? ensures k in m.Keys {
        assert Denotes(k);
      }
    }

    /** The level that Combined asks the partitioner for. */
    function Top(level: nat): nat
      requires p.Valid()
    {
      if level < p.MaxLevel() then level + 1 else level
    }

    /**
     * Combined, once the own signature is stored. For the highest level it would panic when that
     * level has a best, which has no place in what it asks for.
     */
    method Combined(level: nat) returns (r: Option<MultiSignature>)
      requires Valid() && scheme.Lawful() && Best(slots, 0).Some?
      requires level == p.MaxLevel() ==> Best(slots, level).None?
      ensures r.None? <==> level > p.MaxLevel() + 1
      ensures r.Some? ==> fresh(r.value.bs) && r.value.View() == Combining.Combined(p, scheme, slots, Top(level))
    {
      ghost var views;
      var sigs;
      sigs, views := Signatures(level + 1);
      var top := level;
      if top < p.MaxLevel() {
        top := top + 1;
      }
      ListedBelow(p, slots, m.Keys, level, top, views);
      r := Combine(p, scheme, sigs, views, top);
      if r.Some? {
        CombinedIs(p, scheme, slots, top, views, r.value.View());
      }
    }

    method FullSignature() returns (r: Option<MultiSignature>)
      requires Valid() && scheme.Lawful() && Best(slots, 0).Some?
      ensures r.Some? && fresh(r.value.bs) && r.value.View() == Full(p, scheme, slots)
    {
      ghost var views, top := [], p.MaxLevel() + 1;
      var sigs;
      sigs, views := Signatures(p.MaxLevel() + 1);
      ListedLists(p, slots, m.Keys, top, views);
      p.TopInverse();
      r := CombineFull(p, scheme, sigs, views);
      CombinedIs(p, scheme, slots, top, views, r.value.View());
    }

    /** Evaluate, with the computation of unsafeEvaluate. */
    method EvaluateSig(sp: IncomingSig) returns (score: int)
      requires Valid() && sp.level in slots
      requires sp.isInd ==> 0 <= sp.mappedIndex < p.SizeOf(sp.level)
      ensures score == Evaluate(p.SizeOf(sp.level), slots[sp.level], sp.View())
    {
      assert Denotes(sp.level) && SlotAt(p, slots, sp.level);
      var toReceive := p.Size(sp.level);
      var cur := if sp.level in m then Some(m[sp.level]) else None;
      var vl := indivSigsVerified[sp.level];
      if cur.Some? && toReceive == cur.value.bs.Cardinality() {
        return 0;
      }
      if sp.isInd && vl.Get(sp.mappedIndex) {
        return 0;
      }
      if cur.Some? && !sp.isInd && cur.value.bs.IsSuperSet(sp.ms.bs) {
        return 0;
      }
      var gain := GainOfSig(cur, vl, sp.ms, slots[sp.level]);
      if gain.addedSigs <= 0 {
        return if sp.isInd then 1 else 0;
      }
      if gain.newTotal == toReceive {
        return 1000000 - sp.level * 10 - gain.combineCt;
      }
      return 100000 - sp.level * 100 + gain.addedSigs * 10 - gain.combineCt;
    }
  }

  lemma {:induction false} EmptySlots(p: Partitioner, slots: SlotMap)
    requires p.Valid() && (forall k :: k in slots <==> k == 0 || p.IsLevel(k)) && forall k | k in slots :: slots[k] == EMPTY
    ensures SlotsInv(p, slots)
  {
    forall k ensures SlotAt(p, slots, k) {
    }
  }

  // ----- Combined signatures

  /** views lists the bests of the levels below top, in any order. */
  ghost predicate Lists(slots: SlotMap, top: nat, views: seq<LevelView>) {
    && (forall i | 0 <= i < |views| :: views[i].level < top && Best(slots, views[i].level) == Some(views[i].ms))
    && (forall i, j | 0 <= i < j < |views| :: views[i].level != views[j].level)
    && (forall k: nat | k < top && Best(slots, k).Some? :: exists i :: 0 <= i < |views| && views[i].level == k)
  }

  /** views lists the bests of those levels below top that are in done. */
  ghost predicate Listed(slots: SlotMap, top: nat, views: seq<LevelView>, done: set<nat>) {
    && (forall i | 0 <= i < |views| :: views[i].level < top && Best(slots, views[i].level) == Some(views[i].ms))
    && (forall i | 0 <= i < |views| :: views[i].level in done)
    && (forall i, j | 0 <= i < j < |views| :: views[i].level != views[j].level)
    && (forall k | k in done && k < top :: exists i :: 0 <= i < |views| && views[i].level == k)
  }

  lemma {:induction false} ListOne(slots: SlotMap, top: nat, views: seq<LevelView>, done: set<nat>, k: nat, ms: MultiSig)
    requires Listed(slots, top, views, done) && k !in done && k < top && Best(slots, k) == Some(ms)
    ensures Listed(slots, top, views + [LevelView(k, ms)], done + {k})
  {
    var next := views + [LevelView(k, ms)];
    assert next[|views|].level == k;
    forall l | l in done + {k} && l < top ensures exists i :: 0 <= i < |next| && next[i].level == l {
      if l != k {
        var i :| 0 <= i < |views| && views[i].level == l;
        assert next[i] == views[i];
      }
    }
  }

  lemma {:induction false} ListNone(slots: SlotMap, top: nat, views: seq<LevelView>, done: set<nat>, k: nat)
    requires Listed(slots, top, views, done) && k >= top
    ensures Listed(slots, top, views, done + {k})
  {
  }

  /** All levels with a best are in the map. */
  lemma {:induction false} ListedLists(p: Partitioner, slots: SlotMap, keys: set<nat>, top: nat, views: seq<LevelView>)
    requires p.Valid() && SlotsInv(p, slots) && Listed(slots, top, views, keys) && top >= 1 && Best(slots, 0).Some?
    requires forall k: nat :: Best(slots, k).Some? ==> k in keys
    ensures Lists(slots, top, views) && views != []
    ensures top <= p.MaxLevel() + 1 ==> Accepted(p, views, top)
  {
    forall k: nat | k < top && Best(slots, k).Some? ensures exists i :: 0 <= i < |views| && views[i].level == k {
      assert k in keys;
    }
    var i :| 0 <= i < |views| && views[i].level == 0;
    if top <= p.MaxLevel() + 1 {
      ListsCombinable(p, slots, top, views);
      CombinableInside(p, views, top);
    }
  }

  /** The partitioner combines the signatures without a panic. */
  ghost predicate Accepted(p: Partitioner, views: seq<LevelView>, top: nat)
    requires p.Valid() && top <= p.MaxLevel() + 1
  {
    && Combinable(p, views, top)
    && AllInside(p, views, p.InverseOf(top).min, p.InverseOf(top).max - p.InverseOf(top).min)
  }

  /** Nothing is listed between the level asked for and the one that Combined goes up to. */
  lemma {:induction false} ListedBelow(p: Partitioner, slots: SlotMap, keys: set<nat>, level: nat, top: nat, views: seq<LevelView>)
    requires p.Valid() && SlotsInv(p, slots) && Listed(slots, level + 1, views, keys) && Best(slots, 0).Some?
    requires forall k: nat :: Best(slots, k).Some? ==> k in keys
    requires level == p.MaxLevel() ==> Best(slots, level).None?
    requires top == if level < p.MaxLevel() then level + 1 else level
    ensures Lists(slots, top, views) && views != [] && top >= 1
    ensures if top <= p.MaxLevel() + 1 then Accepted(p, views, top) && !Refused(p, views, top) else Refused(p, views, top)
  {
    forall i | 0 <= i < |views| ensures views[i].level < top {
      assert SlotAt(p, slots, views[i].level);
    }
    ListedLists(p, slots, keys, top, views);
  }

  lemma {:induction false} ListsCombinable(p: Partitioner, slots: SlotMap, top: nat, views: seq<LevelView>)
    requires p.Valid() && SlotsInv(p, slots) && Lists(slots, top, views)
    ensures Combinable(p, views, top)
  {
    forall i | 0 <= i < |views|
      ensures p.RangeOf(views[i].level).Range?
      ensures Below(views[i].ms.bits, views[i].ms.len) && views[i].ms.len == p.SizeOf(views[i].level)
    {
      assert SlotAt(p, slots, views[i].level);
    }
  }

  /** The nodes marked are those whose contributions are held, whatever the order of the levels. */
  lemma {:induction false} MarkedHeld(p: Partitioner, slots: SlotMap, top: nat, views: seq<LevelView>, g: nat)
    requires p.Valid() && SlotsInv(p, slots) && Lists(slots, top, views) && top <= p.MaxLevel() + 1
    ensures SomeMarks(p, views, |views|, g) <==> g in Held(p, slots, top)
  {
    if SomeMarks(p, views, |views|, g) {
      var i :| 0 <= i < |views| && Marks(p, views[i], g);
      assert SlotAt(p, slots, views[i].level);
      p.RangeBounds(views[i].level);
      p.RangeMembers(views[i].level, g);
    }
    if g in Held(p, slots, top) {
      var k := LevelOf(p.id, g);
      var i :| 0 <= i < |views| && views[i].level == k;
      assert Marks(p, views[i], g);
    }
  }

  lemma {:induction false} FoldIsSigBelow(scheme: Scheme, slots: SlotMap, top: nat, views: seq<LevelView>)
    requires scheme.Lawful() && Lists(slots, top, views) && views != []
    ensures Fold(scheme, views) == SigBelow(scheme, slots, top)
  {
    var f := (k: nat) => BestSig(scheme, slots, k);
    FoldIsSum(scheme, views, f, top);
    forall k | 0 <= k < top ensures k in LevelsIn(views) <==> k in BestLevels(slots) {
      if k in BestLevels(slots) {
        var l: nat := k;
        assert Best(slots, l).Some?;
      }
    }
    scheme.SumLocal(f, f, LevelsIn(views), BestLevels(slots), top);
  }

  /** The combined multisignature does not depend on the order in which the levels are taken. */
  lemma {:induction false} CombinedIs(p: Partitioner, scheme: Scheme, slots: SlotMap, top: nat, views: seq<LevelView>, ms: MultiSig)
    requires p.Valid() && SlotsInv(p, slots) && Lists(slots, top, views) && 1 <= top <= p.MaxLevel() + 1
    requires scheme.Lawful() && views != []
    requires ms.len == ms.width == p.InverseOf(top).max - p.InverseOf(top).min && ms.sig == Fold(scheme, views)
    requires forall j: nat :: j in ms.bits <==> Written(p, views, |views|, p.InverseOf(top).min, j)
    ensures ms == Combined(p, scheme, slots, top)
  {
    FoldIsSigBelow(scheme, slots, top, views);
    var min := p.InverseOf(top).min;
    ListsCombinable(p, slots, top, views);
    forall j: nat ensures j in ms.bits <==> j in Unshift(Held(p, slots, top), min) {
      WrittenMarks(p, views, |views|, top, min, j);
      MarkedHeld(p, slots, top, views, j + min);
    }
  }

  lemma {:induction false} DecidedCases(scheme: Scheme, slot: Slot, ms: MultiSig, slots: SlotMap, level: nat)
    requires level in slots && slots[level] == slot && slot.verified <= slot.indiv.Keys
    ensures var n := CheckMerge(scheme, slot, ms);
            slots[level := Decided(scheme, slot, ms)] == if n.Some? then slots[level := slot.(best := n)] else slots
  {
  }

  lemma {:induction false} NotedThenDecided(scheme: Scheme, before: SlotMap, level: nat, v: Incoming, noted: SlotMap, after: SlotMap)
    requires v.ms.Some? && (v.isInd ==> v.mappedIndex >= 0)
    requires level in before && before[level].verified <= before[level].indiv.Keys
    requires noted == before[level := Noted(before[level], v)]
    requires after == noted[level := Decided(scheme, noted[level], v.ms.value)]
    ensures after == before[level := StoreSlot(scheme, before[level], v)]
  {
    assert noted[level] == Noted(before[level], v);
    assert after[level] == StoreSlot(scheme, before[level], v);
  }

  lemma {:induction false} SlotsKept(p: Partitioner, slots: SlotMap, level: nat, next: Slot)
    requires p.Valid() && SlotsInv(p, slots) && level in slots && SlotInv(p.SizeOf(level), next)
    ensures SlotsInv(p, slots[level := next])
  {
    var after := slots[level := next];
    forall k ensures SlotAt(p, after, k) {
      assert SlotAt(p, slots, k);
    }
  }

  /** unsafeCheckMerge does not panic. */
  ghost predicate MergeSafe(scheme: Scheme, slot: Slot, ms: MultiSig) {
    && slot.verified <= slot.indiv.Keys
    && (slot.best.Some? ==> PatchSafe(MergeBase(scheme, slot.best.value, ms), slot))
  }

  lemma {:induction false} NotedSafe(scheme: Scheme, size: nat, slot: Slot, v: Incoming)
    requires SlotInv(size, slot) && Fits(size, v)
    ensures MergeSafe(scheme, Noted(slot, v), v.ms.value)
  {
    StoreIsSafe(scheme, size, slot, v);
  }

  /** The empty bitsets of newStore, one for the node itself and one for each level. */
  method NewVerified(p: Partitioner) returns (verified: map<nat, BitSet>)
    requires p.Valid()
    ensures forall k :: k in verified <==> k == 0 || p.IsLevel(k)
    ensures forall k | k in verified :: fresh(verified[k]) && verified[k].bits == {} && verified[k].Sized(p.SizeOf(k))
    ensures forall j, k | j in verified && k in verified && j != k :: verified[j] != verified[k]
  {
    var own := new BitSet(1);
    verified := map[0 := own];
    var levels := p.Levels();
    for i := 0 to |levels|
      invariant forall k :: k in verified <==> k == 0 || k in levels[..i]
      invariant forall k | k in verified :: fresh(verified[k]) && verified[k].bits == {} && verified[k].Sized(p.SizeOf(k))
      invariant forall j, k | j in verified && k in verified && j != k :: verified[j] != verified[k]
    {
      assert levels[i] in levels;
      var size := p.Size(levels[i]);
      var bs := new BitSet(size);
      verified := verified[levels[i] := bs];
    }
    assert levels[..|levels|] == levels;
  }
}
