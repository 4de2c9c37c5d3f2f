/** Progress across two nodes: an update that holds more than its receiver raises the receiver's best. */
module Progress {
  import opened Signatures
  import opened Sets
  import opened Slots
  import opened Scoring
  import opened Combining
  import opened Wire
  import opened Processing
  import opened Protocol
  import opened Safety
  import opened Sending
  import opened Runs
  import opened Theorems

  /** The score that the store gives an entry for one of its levels. */
  function Score(env: Env, slots: SlotMap, sp: Incoming): int
    requires env.Valid() && sp.ms.Some? && sp.level in slots
  {
    Evaluate(env.p.SizeOf(sp.level), slots[sp.level], sp)
  }

  lemma {:induction false} EntryKnown(env: Env, slots: SlotMap, sp: Incoming)
    requires env.Valid() && SlotData(env, slots) && GoodEntry(env, sp) && sp.ms.Some?
    ensures sp.level in slots && SlotInv(env.p.SizeOf(sp.level), slots[sp.level])
    ensures env.p.SizeOf(sp.level) <= 65535 && sp.level <= 16
    ensures BestBits(slots, sp.level) == slots[sp.level].Bits()
  {
    assert env.PeersAt(sp.level) && SlotAt(env.p, slots, sp.level);
    env.p.RangeBounds(sp.level);
    FewLevels(env.p.size);
  }

  /** A multisignature with more contributions than the best of its level is not discarded. */
  lemma {:induction false} LargerScores(env: Env, slots: SlotMap, sp: Incoming)
    requires env.Valid() && SlotData(env, slots) && GoodEntry(env, sp) && sp.ms.Some?
    requires |BestBits(slots, sp.level)| < |sp.ms.value.bits|
    ensures sp.level in slots && Score(env, slots, sp) > 1
  {
    EntryKnown(env, slots, sp);
    var size, slot := env.p.SizeOf(sp.level), slots[sp.level];
    ScorePredictsStore(env.scheme, size, slot, sp);
    GainCases(size, slot, sp);
    StoreByGain(env.scheme, size, slot, sp);
    SubsetCard(sp.ms.value.bits, Candidate(slot.Bits(), slot.verified, sp.ms.value.bits));
  }

  /** Storing an entry with such a score raises the best of its level. */
  lemma {:induction false} ScoredRaises(env: Env, slots: SlotMap, v: Incoming)
    requires env.Valid() && SlotData(env, slots) && Checked(env, v) && v.level in slots && Score(env, slots, v) > 1
    ensures Storable(slots, v) && |BestBits(slots, v.level)| < |BestBits(StoreAt(env, slots, v), v.level)|
  {
    EntryKnown(env, slots, v);
    CheckedStorable(env, slots, v);
    ScorePredictsStore(env.scheme, env.p.SizeOf(v.level), slots[v.level], v);
  }

  /** Whatever is selected scores at least as much as the first entry. */
  lemma {:induction false} SelectedScores(todos: seq<Incoming>, marks: seq<int>) returns (at: nat)
    requires 0 < |todos| == |marks| && todos[0].ms.Some? && marks[0] > 0
    ensures at < |todos| && todos[at].ms.Some? && marks[at] >= marks[0]
    ensures ScanTo(todos, marks, |todos|).best == Some(todos[at])
  {
    at := ScanSelects(todos, marks, |todos|);
    assert Live(todos, marks, 0);
  }

  /** The receiver has nothing else to do. */
  ghost predicate Quiet(st: State) {
    st.queue.todos == [] && st.verified == [] && st.pending.None? && !st.stopped && !st.done
  }

  /** The scores are those of the store. */
  ghost predicate Scored(env: Env, st: State, marks: seq<int>)
    requires env.Valid()
  {
    && |marks| == |st.queue.todos|
    && forall i | 0 <= i < |marks| && st.queue.todos[i].ms.Some? && st.queue.todos[i].level in st.slots ::
         marks[i] == Score(env, st.slots, st.queue.todos[i])
  }

  /** What is in the queue after an accepted packet has arrived in a quiet state. */
  lemma {:induction false} Arrived(env: Env, st: State, packet: Packet)
    requires env.Valid() && LevelsOk(env, st.lvls) && Quiet(st) && Accepted(env, packet)
    requires !st.lvls[packet.level].rcvCompleted
    ensures var next, (ms, ind) := Receive(env, st, packet), Parse(env, packet).value;
            && next == st.(queue := next.queue)
            && (next.queue.todos == [ms] || (ind.Some? && next.queue.todos == [ms, ind.value]))
  {
    var (ms, ind) := Parse(env, packet).value;
  }

  lemma {:induction false} AcceptedChecked(env: Env, packet: Packet, sp: Incoming)
    requires env.Valid() && env.codec.Trusted() && Accepted(env, packet) && Announced(env.codec, packet.multiSig)
    requires var (ms, ind) := Parse(env, packet).value; sp == ms || ind == Some(sp)
    ensures sp.ms.Some? && sp.level == packet.level && Checked(env, sp)
  {
    ParseGood(env, packet);
    KeysAt(env.p, env.scheme, packet.level).VerifiedSound(sp.ms.value);
  }

  /** Receiving the packet, processing the queue with these scores, and storing raises the best of the level. */
  ghost predicate Raises(env: Env, st: State, packet: Packet, marks: seq<int>)
    requires env.Valid() && LevelsOk(env, st.lvls) && |marks| == |Receive(env, st, packet).queue.todos|
  {
    var processed := ProcessStep(env, Receive(env, st, packet), marks);
    && packet.level >= 0 && processed.verified != [] && Storable(processed.slots, processed.verified[0])
    && |BestBits(st.slots, packet.level)| < |BestBits(StoreStep(env, processed).slots, packet.level)|
  }

  /**
   * A packet with more contributions than the best of its level, for a level not yet complete,
   * arrives at a node with nothing else to do: the score of the store lets one of its signatures
   * through, it verifies, and storing it raises the best of the level.
   */
  lemma {:induction false} PacketRaises(env: Env, st: State, packet: Packet, marks: seq<int>)
    requires env.Valid() && env.codec.Trusted() && LevelsOk(env, st.lvls) && SlotData(env, st.slots)
    requires Quiet(st) && Accepted(env, packet) && Announced(env.codec, packet.multiSig)
    requires !st.lvls[packet.level].rcvCompleted
    requires |BestBits(st.slots, packet.level)| < |Parse(env, packet).value.0.ms.value.bits|
    requires Scored(env, Receive(env, st, packet), marks)
    ensures Raises(env, st, packet, marks)
  {
    var (ms, ind) := Parse(env, packet).value;
    var arrived := Receive(env, st, packet);
    Arrived(env, st, packet);
    AcceptedChecked(env, packet, ms);
    LargerScores(env, st.slots, ms);
    var at := SelectedScores(arrived.queue.todos, marks);
    SelectedRaises(env, st, packet, arrived.queue.todos[at], marks[at]);
    Published(env, arrived, marks, arrived.queue.todos[at]);
  }

  lemma {:induction false} SelectedRaises(env: Env, st: State, packet: Packet, v: Incoming, mark: int)
    requires env.Valid() && env.codec.Trusted() && SlotData(env, st.slots) && Accepted(env, packet) && Announced(env.codec, packet.multiSig)
    requires var (ms, ind) := Parse(env, packet).value; v == ms || ind == Some(v)
    requires mark > 1 && (v.ms.Some? && v.level in st.slots ==> mark == Score(env, st.slots, v))
    ensures v.ms.Some? && v.level == packet.level && Verifies(env.p, env.scheme, v) && Storable(st.slots, v)
    ensures |BestBits(st.slots, v.level)| < |BestBits(StoreAt(env, st.slots, v), v.level)|
  {
    AcceptedChecked(env, packet, v);
    EntryKnown(env, st.slots, v);
    ScoredRaises(env, st.slots, v);
  }

  /** The selected signature is passed on when it verifies. */
  lemma {:induction false} Published(env: Env, st: State, marks: seq<int>, v: Incoming)
    requires env.Valid() && |marks| == |st.queue.todos| && st.verified == []
    requires forall i | 0 <= i < |st.queue.todos| :: st.queue.todos[i].ms.Some?
    requires ScanTo(st.queue.todos, marks, |marks|).best == Some(v) && v.ms.Some? && Verifies(env.p, env.scheme, v)
    ensures ProcessStep(env, st, marks).verified == [v] && ProcessStep(env, st, marks).slots == st.slots
  {
  }

  /** How many contributions the packet carries. */
  function Carried(codec: Codec, packet: Packet): nat {
    var m := Decode(codec, packet.multiSig);
    if m.Some? then |m.value.bits| else 0
  }

  /** What an honest node sends announces the length of its vectors. */
  lemma {:induction false} SentAnnounced(env: Env, m: Sent)
    requires env.Valid() && env.codec.Trusted() && GoodMessage(env, m)
    ensures Announced(env.codec, m.packet.multiSig)
  {
    var ms :| FitsPeers(env, m.packet.level, ms) && m.packet.multiSig == Encode(env.codec, ms);
    assert env.PeersAt(m.packet.level);
    RoundTrip(env.codec, ms);
  }

  /**
   * Progress across two nodes: whatever a has sent in any run, if it holds more than the best that b
   * has, in any run of its own, at a level not yet complete, then at b it arrives, is given a chance
   * by the score of the store, verifies, and raises that best.
   */
  lemma {:induction false} UpdateRaises(a: Env, b: Env, sa: State, n: nat, sb: State, k: nat, m: Sent)
    requires a.Valid() && b.Valid() && SameNetwork(a, b) && a.Trusted()
    requires Reachable(a, sa, n) && m in sa.sent && b.p.id in m.to
    requires Reachable(b, sb, k) && Quiet(sb) && m.packet.level in sb.lvls && !sb.lvls[m.packet.level].rcvCompleted
    requires |BestBits(sb.slots, m.packet.level)| < Carried(b.codec, m.packet)
    ensures LevelsOk(b, sb.lvls)
    ensures forall marks | Scored(b, Receive(b, sb, m.packet), marks) :: Raises(b, sb, m.packet, marks)
  {
    Always(a, sa, n);
    Always(b, sb, k);
    Understood(a, b, sa, n, m);
    var i :| 0 <= i < |sa.sent| && sa.sent[i] == m;
    SentAnnounced(a, sa.sent[i]);
    forall marks | Scored(b, Receive(b, sb, m.packet), marks) ensures Raises(b, sb, m.packet, marks) {
      PacketRaises(b, sb, m.packet, marks);
    }
  }
}
