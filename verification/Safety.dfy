/** Invariants of the protocol: what every step keeps. */
module Safety {
  import opened Slots
  import opened Soundness
  import opened Combining
  import opened Wire
  import opened Processing
  import opened Protocol

  // ----- What is stored, and what waits to be stored

  ghost predicate SlotData(env: Env, slots: SlotMap)
    requires env.Valid()
  {
    && env.scheme.Lawful()
    && SlotsInv(env.p, slots) && SoundSlots(env.p, env.scheme, slots) && BestBits(slots, 0) == {0}
  }

  /** An entry of the queue fits the level it was sent for. */
  ghost predicate GoodEntry(env: Env, sp: Incoming)
    requires env.Valid()
  {
    sp.ms.Some? ==> sp.level in env.peers && Fits(env.p.SizeOf(sp.level), sp)
  }

  /** A signature that has passed verification. */
  ghost predicate Checked(env: Env, sp: Incoming)
    requires env.Valid()
  {
    sp.ms.Some? && GoodEntry(env, sp) && KeysAt(env.p, env.scheme, sp.level).Sound(sp.ms.value)
  }

  ghost predicate GoodQueue(env: Env, todos: seq<Incoming>)
    requires env.Valid()
  {
    forall i | 0 <= i < |todos| :: GoodEntry(env, todos[i])
  }

  ghost predicate AllChecked(env: Env, verified: seq<Incoming>)
    requires env.Valid()
  {
    forall i | 0 <= i < |verified| :: Checked(env, verified[i])
  }

  /** slots came from before by storing v. */
  ghost predicate StoredFrom(env: Env, slots: SlotMap, pending: Pending)
    requires env.Valid()
  {
    && Checked(env, pending.v) && SlotData(env, pending.before) && Storable(pending.before, pending.v)
    && slots == StoreAt(env, pending.before, pending.v)
  }

  ghost predicate DataInv(env: Env, st: State)
    requires env.Valid()
  {
    && SlotData(env, st.slots)
    && GoodQueue(env, st.queue.todos)
    && AllChecked(env, st.verified)
    && (st.pending.Some? ==> StoredFrom(env, st.slots, st.pending.value))
  }

  lemma {:induction false} KeysValid(env: Env, level: nat)
    requires env.Valid() && env.scheme.Lawful()
    ensures KeysAt(env.p, env.scheme, level).Valid()
  {
    env.p.RangeBounds(level);
  }

  /** A verified signature for a slot keeps it sound, and its contributions only grow. */
  lemma {:induction false} SlotKeeps(keys: Keys, slot: Slot, v: Incoming)
    requires keys.Valid() && keys.SoundSlot(slot) && Fits(keys.size, v) && keys.Sound(v.ms.value)
    ensures var next := StoreSlot(keys.scheme, slot, v);
            && SlotInv(keys.size, next) && keys.SoundSlot(next) && next.best.Some?
            && |slot.Bits()| <= |next.Bits()|
            && (slot.best != next.best ==> |slot.Bits()| < |next.Bits()|)
  {
    StoreKeeps(keys.scheme, keys.size, slot, v);
    keys.StoreSound(slot, v);
  }

  lemma {:induction false} CheckedStorable(env: Env, slots: SlotMap, v: Incoming)
    requires env.Valid() && SlotData(env, slots) && Checked(env, v)
    ensures Storable(slots, v)
  {
    assert env.PeersAt(v.level) && SlotAt(env.p, slots, v.level);
  }

  /** Storing a verified signature keeps the whole store sound. */
  lemma {:induction false} StoreAtKeeps(env: Env, slots: SlotMap, v: Incoming)
    requires env.Valid() && SlotData(env, slots) && Checked(env, v) && Storable(slots, v)
    ensures SlotData(env, StoreAt(env, slots, v))
  {
    KeysValid(env, v.level);
    assert env.PeersAt(v.level);
    assert KeysAt(env.p, env.scheme, v.level).SoundSlot(slots[v.level]);
    SlotKeeps(KeysAt(env.p, env.scheme, v.level), slots[v.level], v);
    var next := StoreAt(env, slots, v);
    forall k ensures SlotAt(env.p, next, k) {
      assert SlotAt(env.p, slots, k);
    }
  }

  lemma {:induction false} ReplaceSlot(slots: SlotMap, level: nat, next: Slot)
    requires level in slots && |slots[level].Bits()| <= |next.Bits()|
    ensures forall k :: |BestBits(slots, k)| <= |BestBits(slots[level := next], k)|
    ensures BestBits(slots, level) == slots[level].Bits() && BestBits(slots[level := next], level) == next.Bits()
    ensures Best(slots[level := next], level) == next.best
  {
  }

  /** No level ever loses contributions, and a best is only replaced by a larger one. */
  lemma {:induction false} StoreAtGrows(env: Env, slots: SlotMap, v: Incoming)
    requires env.Valid() && SlotData(env, slots) && Checked(env, v) && Storable(slots, v)
    ensures var next := StoreAt(env, slots, v);
            && (forall k :: |BestBits(slots, k)| <= |BestBits(next, k)|)
            && Best(next, v.level).Some?
            && (Best(slots, v.level) == Best(next, v.level) ||
                |BestBits(slots, v.level)| < |BestBits(next, v.level)|)
  {
    assert SlotAt(env.p, slots, v.level);
    StoreKeeps(env.scheme, env.p.SizeOf(v.level), slots[v.level], v);
    ReplaceSlot(slots, v.level, StoreSlot(env.scheme, slots[v.level], v));
  }

  lemma {:induction false} CardGrows(a: SlotMap, b: SlotMap, top: nat)
    requires forall k :: |BestBits(a, k)| <= |BestBits(b, k)|
    ensures CardBelow(a, top) <= CardBelow(b, top)
  {
    if top > 0 { CardGrows(a, b, top - 1); }
  }

  lemma {:induction false} CardSame(a: SlotMap, b: SlotMap, top: nat)
    requires forall k: nat | k < top :: |BestBits(a, k)| == |BestBits(b, k)|
    ensures CardBelow(a, top) == CardBelow(b, top)
  {
    if top > 0 { CardSame(a, b, top - 1); }
  }

  lemma {:induction false} CardMonotone(slots: SlotMap, j: nat, k: nat)
    requires j <= k
    ensures CardBelow(slots, j) <= CardBelow(slots, k)
  {
    if j < k { CardMonotone(slots, j, k - 1); }
  }

  lemma {:induction false} OwnHeld(env: Env, slots: SlotMap, id: nat)
    requires BestBits(slots, 0) == {0} && id >= 1
    ensures CardBelow(slots, id) >= 1
  {
    CardMonotone(slots, 1, id);
    assert CardBelow(slots, 1) == CardBelow(slots, 0) + |BestBits(slots, 0)|;
  }

  /** The cardinality of what a node sends at a level. */
  lemma {:induction false} ToSendCard(env: Env, slots: SlotMap, id: nat)
    requires env.Valid() && SlotData(env, slots) && id in env.peers
    ensures |ToSend(env, slots, id).bits| == CardBelow(slots, id) <= env.p.SizeBelow(id)
    ensures CardBelow(slots, id) >= 1
  {
    assert env.PeersAt(id);
    OwnHeld(env, slots, id);
    CombinedExact(env.p, env.scheme, slots, id);
  }

  /** A bitset as the peers at level id expect it from this node. */
  ghost predicate SizedForPeers(env: Env, id: nat, ms: MultiSig)
    requires env.Valid() && id in env.peers
  {
    var inv := env.p.InverseOf(id);
    inv.Range? && inv.min <= inv.max && ms.Sized(inv.max - inv.min)
  }

  /** The signature is valid for the nodes that the peers at level id take the bits to denote. */
  ghost predicate SoundForPeers(env: Env, id: nat, ms: MultiSig)
    requires env.Valid() && id in env.peers && SizedForPeers(env, id, ms)
  {
    Keys(env.scheme, env.p.reg, env.p.InverseOf(id).min, ms.len).Sound(ms)
  }

  /** A multisignature as the peers at level id expect it from this node. */
  ghost predicate FitsPeers(env: Env, id: nat, ms: MultiSig)
    requires env.Valid() && id in env.peers
  {
    ms.bits != {} && SizedForPeers(env, id, ms) && SoundForPeers(env, id, ms)
  }

  lemma {:induction false} ToSendSized(env: Env, slots: SlotMap, id: nat)
    requires env.Valid() && id in env.peers
    ensures SizedForPeers(env, id, ToSend(env, slots, id))
  {
    assert env.PeersAt(id);
    CombinedSized(env.p, env.scheme, slots, id);
  }

  lemma {:induction false} ToSendSound(env: Env, slots: SlotMap, id: nat)
    requires env.Valid() && SlotData(env, slots) && id in env.peers && SizedForPeers(env, id, ToSend(env, slots, id))
    ensures SoundForPeers(env, id, ToSend(env, slots, id))
  {
    assert env.PeersAt(id);
    CombinedSound(env.p, env.scheme, slots, id);
  }

  /** What a node sends at a level is never empty, fits its peers, and is valid. */
  lemma {:induction false} ToSendFits(env: Env, slots: SlotMap, id: nat)
    requires env.Valid() && SlotData(env, slots) && id in env.peers
    ensures FitsPeers(env, id, ToSend(env, slots, id))
  {
    ToSendSized(env, slots, id);
    ToSendSound(env, slots, id);
    ToSendCard(env, slots, id);
  }

  // ----- Receiving

  /**
   * Whatever the packet, the multisignature parsed from it fits its level if and only if the packet
   * announces the length of its vector; an individual signature always does, and has just its own bit.
   */
  lemma {:induction false} ParseGood(env: Env, packet: Packet)
    requires env.Valid() && env.codec.Trusted() && packet.level in env.peers
    ensures Parse(env, packet).Some? ==>
              var (ms, ind) := Parse(env, packet).value;
              && (GoodEntry(env, ms) <==> Announced(env.codec, packet.multiSig))
              && (ind.Some? ==> GoodEntry(env, ind.value))
  {
    assert env.PeersAt(packet.level);
    DecodeBelow(env.codec, packet.multiSig);
  }

  lemma {:induction false} AddGood(env: Env, q: Queue, sp: Incoming)
    requires env.Valid() && GoodQueue(env, q.todos) && GoodEntry(env, sp)
    ensures GoodQueue(env, q.Add(sp).todos)
  {
  }

  lemma {:induction false} ReceiveData(env: Env, st: State, packet: Packet)
    requires env.Valid() && env.codec.Trusted() && LevelsOk(env, st.lvls) && GoodQueue(env, st.queue.todos)
    requires Announced(env.codec, packet.multiSig)
    ensures GoodQueue(env, Receive(env, st, packet).queue.todos)
    ensures Receive(env, st, packet) == st.(queue := Receive(env, st, packet).queue)
  {
    if packet.level in env.peers && Parse(env, packet).Some? {
      var (ms, ind) := Parse(env, packet).value;
      ParseGood(env, packet);
      AddGood(env, st.queue, ms);
      if ind.Some? { AddGood(env, st.queue.Add(ms), ind.value); }
    }
  }

  lemma {:induction false} ProcessData(env: Env, st: State, marks: seq<int>)
    requires env.Valid() && |marks| == |st.queue.todos|
    requires GoodQueue(env, st.queue.todos) && AllChecked(env, st.verified)
    ensures GoodQueue(env, ProcessStep(env, st, marks).queue.todos)
    ensures AllChecked(env, ProcessStep(env, st, marks).verified)
  {
    var at := ScanSelects(st.queue.todos, marks, |marks|);
    KeptFrom(st.queue.todos, marks);
    var best := ScanTo(st.queue.todos, marks, |marks|).best;
    if best.Some? && best.value.ms.Some? {
      assert GoodEntry(env, st.queue.todos[at]);
      KeysAt(env.p, env.scheme, best.value.level).VerifiedSound(best.value.ms.value);
    }
  }

  /** The entries kept for later were in the queue before. */
  lemma {:induction false} KeptFrom(todos: seq<Incoming>, marks: seq<int>)
    requires |marks| == |todos|
    ensures forall i | 0 <= i < |ScanTo(todos, marks, |todos|).newTodos| ::
              ScanTo(todos, marks, |todos|).newTodos[i] in todos
  {
    var s := ScanTo(todos, marks, |todos|);
    ScanConserves(todos, marks, |todos|);
    LiveSubset(todos, marks, |todos|);
    assert todos[..|todos|] == todos;
    forall i | 0 <= i < |s.newTodos| ensures s.newTodos[i] in todos {
      assert s.newTodos[i] in multiset(s.newTodos);
      assert s.newTodos[i] in multiset(todos);
    }
  }
}
