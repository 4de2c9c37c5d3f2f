/** What holds in every state of every run. */
module Theorems {
  import opened Numbers
  import opened Signatures
  import opened Sets
  import opened Partition
  import opened Slots
  import opened Scoring
  import opened Combining
  import opened Wire
  import opened Processing
  import opened Protocol
  import opened Safety
  import opened Pace
  import opened Sending
  import opened Serving
  import opened Outputs
  import opened Runs

  lemma {:induction false} ScoresSafe(env: Env, slots: SlotMap, sp: Incoming)
    requires env.Valid() && SlotData(env, slots) && GoodEntry(env, sp)
    ensures ScoreSafe(env, slots, sp)
  {
    if sp.ms.Some? {
      assert env.PeersAt(sp.level) && SlotAt(env.p, slots, sp.level);
      FewLevels(env.p.size);
      ScorePredictsStore(env.scheme, env.p.SizeOf(sp.level), slots[sp.level], sp);
    }
  }

  lemma {:induction false} CombinesSafe(env: Env, slots: SlotMap, top: nat)
    requires env.Valid() && SlotData(env, slots) && 1 <= top <= env.p.MaxLevel() + 1
    ensures CombineSafe(env, slots, top)
  {
    SlotsFitting(env.p, slots, top);
    assert Best(slots, 0).Some?;
  }

  lemma {:induction false} SendsSafe(env: Env, slots: SlotMap)
    requires env.Valid() && SlotData(env, slots)
    ensures SendSafe(env, slots)
  {
    forall id | id in env.peers ensures id <= env.p.MaxLevel() && CombineSafe(env, slots, id) {
      assert env.PeersAt(id);
      CombinesSafe(env, slots, id);
    }
  }

  lemma {:induction false} StoresSafe(env: Env, slots: SlotMap, v: Incoming)
    requires env.Valid() && SlotData(env, slots) && Checked(env, v)
    ensures StoreNextSafe(env, slots, v)
  {
    CheckedStorable(env, slots, v);
    assert SlotAt(env.p, slots, v.level);
    StoreIsSafe(env.scheme, env.p.SizeOf(v.level), slots[v.level], v);
  }

  lemma {:induction false} StoredKnown(env: Env, slots: SlotMap, pending: Pending)
    requires env.Valid() && StoredFrom(env, slots, pending)
    ensures pending.v.level in env.peers && Best(slots, pending.v.level).Some?
  {
    Grown(env, pending.before, pending.v);
  }

  lemma {:induction false} ActorsAreSafe(env: Env, st: State, level: nat)
    requires env.Valid() && SlotData(env, st.slots) && level in st.lvls && Best(st.slots, level).Some?
    ensures ActorsSafe(env, st, level)
  {
    SendsSafe(env, st.slots);
    CombinesSafe(env, st.slots, env.p.MaxLevel() + 1);
  }

  lemma {:induction false} QueueSafe(env: Env, st: State)
    requires env.Valid() && SlotData(env, st.slots) && GoodQueue(env, st.queue.todos)
    ensures ProcessSafe(env, st)
  {
    forall i | 0 <= i < |st.queue.todos| ensures ScoreSafe(env, st.slots, st.queue.todos[i]) {
      ScoresSafe(env, st.slots, st.queue.todos[i]);
    }
  }

  lemma {:induction false} PacketSafe(env: Env, packet: Packet)
    requires env.Valid() && env.Trusted()
    ensures ReceiveSafe(env, packet)
  {
    if packet.level in env.peers { ParseGood(env, packet); }
  }

  /**
   * No step of any run panics: no level, best or full signature is missing, no bit is read or set
   * out of bounds, and no score is negative.
   */
  lemma {:induction false} NoPanic(env: Env, st: State, n: nat, e: Event)
    requires env.Valid() && env.Trusted() && Reachable(env, st, n) && Enabled(env, st, e) && Arrives(env, e)
    ensures PanicFree(env, st, e)
  {
    Always(env, st, n);
    match e {
      case Recv(packet) => PacketSafe(env, packet);
      case Process(_) => QueueSafe(env, st);
      case StoreNext => StoresSafe(env, st.slots, st.verified[0]);
      case Actors(_) =>
        StoredKnown(env, st.slots, st.pending.value);
        ActorsAreSafe(env, st, st.pending.value.v.level);
      case Tick(_) => SendsSafe(env, st.slots);
      case Timeout(_) => SendsSafe(env, st.slots);
      case Stop =>
    }
  }

  /**
   * End-to-end soundness: every stored best, every combined multisignature, and everything
   * sent to the user is the sum of exactly the keys its bitset denotes, each counted once.
   */
  lemma {:induction false} AllSound(env: Env, st: State, n: nat)
    requires env.Valid() && env.Trusted() && Reachable(env, st, n)
    ensures forall k | k in st.slots && st.slots[k].best.Some? ::
              KeysAt(env.p, env.scheme, k).Sound(st.slots[k].best.value)
    ensures forall id | id in env.peers :: FitsPeers(env, id, ToSend(env, st.slots, id))
    ensures VerifiesFull(env.p.reg, env.scheme, Full(env.p, env.scheme, st.slots))
    ensures forall i | 0 <= i < |st.out| :: VerifiesFull(env.p.reg, env.scheme, st.out[i])
  {
    Always(env, st, n);
    FullGood(env, st.slots);
    forall id | id in env.peers ensures FitsPeers(env, id, ToSend(env, st.slots, id)) {
      ToSendFits(env, st.slots, id);
    }
    forall k | k in st.slots && st.slots[k].best.Some?
      ensures KeysAt(env.p, env.scheme, k).Sound(st.slots[k].best.value)
    {
      assert KeysAt(env.p, env.scheme, k).SoundSlot(st.slots[k]);
    }
  }

  /** No verified individual contribution is ever missing from the best of its level. */
  lemma {:induction false} NoContributionLost(env: Env, st: State, n: nat, k: nat)
    requires env.Valid() && env.Trusted() && Reachable(env, st, n) && k in st.slots
    ensures st.slots[k].verified <= BestBits(st.slots, k)
    ensures st.slots[k].best.None? ==> st.slots[k].verified == {}
  {
    Always(env, st, n);
    assert SlotAt(env.p, st.slots, k);
  }

  /** A whole run replaces a best at most once for each node of the registry. */
  lemma {:induction false} FewReplacements(env: Env, st: State, n: nat)
    requires env.Valid() && env.Trusted() && Reachable(env, st, n)
    ensures st.replaced <= |Full(env.p, env.scheme, st.slots).bits| <= env.p.size
  {
    Always(env, st, n);
    FullGood(env, st.slots);
  }

  // ----- Sending

  /** Once the actors have run, the sending state of every level is in step with the store. */
  lemma {:induction false} InStep(env: Env, st: State, n: nat, id: nat)
    requires env.Valid() && env.Trusted() && Reachable(env, st, n) && st.pending.None? && id in env.peers
    ensures id in st.lvls
    ensures var l := st.lvls[id];
            && (l.rcvCompleted <==> |BestBits(st.slots, id)| == |env.peers[id]|)
            && l.sendSigSize == (if Touched(st.slots, id) then |ToSend(env, st.slots, id).bits| else 0)
  {
    Always(env, st, n);
    ToSendCard(env, st.slots, id);
    assert env.PeersAt(id) && LevelInv(env.p, st.slots, st.lvls[id]);
  }

  /** A level whose lower levels are all complete has been started. */
  lemma {:induction false} CompleteStarts(env: Env, st: State, n: nat, id: nat)
    requires env.Valid() && env.Trusted() && Reachable(env, st, n) && st.pending.None? && id in env.peers
    requires forall k | k in st.lvls && k < id :: st.lvls[k].rcvCompleted
    ensures id in st.lvls && st.lvls[id].sendStarted
  {
    Always(env, st, n);
    assert LevelInv(env.p, st.slots, st.lvls[id]);
    forall k: nat | k < id ensures |BestBits(st.slots, k)| == env.p.SizeOf(k) {
      assert env.PeersAt(k);
      BestBitsBound(env.p, st.slots, k);
      assert env.PeersAt(id);
      env.p.RangeBounds(k);
      if k in env.peers { assert LevelInv(env.p, st.slots, st.lvls[k]); }
    }
    AllBelow(env.p, st.slots, id);
  }

  lemma {:induction false} AllBelow(p: Partitioner, slots: SlotMap, top: nat)
    requires p.Valid() && forall k: nat | k < top :: |BestBits(slots, k)| == p.SizeOf(k)
    ensures CardBelow(slots, top) == p.SizeBelow(top)
  {
    if top > 0 { AllBelow(p, slots, top - 1); }
  }

  /**
   * The fast path is taken at most once per level in a whole run, and exactly when it has been
   * taken everything below the level was announced; the size to wait for is that of the inverse range.
   */
  lemma {:induction false} FastPathOnce(env: Env, st: State, n: nat, id: nat)
    requires env.Valid() && env.Trusted() && Reachable(env, st, n) && id in env.peers
    ensures id in st.lvls
    ensures var l, inv := st.lvls[id], env.p.InverseOf(id);
            && inv.Range? && l.sendExpectedFullSize == inv.max - inv.min
            && l.completions <= 1
            && (l.completions == 1 <==> l.sendSigSize == inv.max - inv.min)
  {
    Always(env, st, n);
    assert env.PeersAt(id) && LevelInv(env.p, Synced(st), st.lvls[id]);
    env.p.InverseSize(id);
  }

  /** The count of peers contacted stays below twice their number, and unstarted levels have sent nothing. */
  lemma {:induction false} ContactsBounded(env: Env, st: State, n: nat, id: nat)
    requires env.Valid() && env.Trusted() && Reachable(env, st, n) && id in env.peers
    ensures id in st.lvls
    ensures var l := st.lvls[id]; l.sendPeersCt < 2 * |l.nodes| && (!l.sendStarted ==> l.sendPeersCt == 0)
  {
    Always(env, st, n);
    assert LevelInv(env.p, Synced(st), st.lvls[id]);
  }

  /**
   * Round-robin coverage: a level that has stopped sending has sent every one of its peers a packet
   * that reads as a multisignature at least as large as the current one.
   */
  lemma {:induction false} EveryPeerServed(env: Env, st: State, n: nat, id: nat, peer: nat)
    requires env.Valid() && env.Trusted() && Reachable(env, st, n) && id in env.peers && peer in env.peers[id]
    ensures id in st.lvls
    ensures var l := st.lvls[id];
            l.sendStarted && !l.Active() ==> Reads(env, st.sent, id, peer, l.sendSigSize)
  {
    Always(env, st, n);
    var l := st.lvls[id];
    assert LevelInv(env.p, Synced(st), l) && Backed(env, st.sent, l);
    if l.sendStarted && !l.Active() {
      l.Covers(peer);
      var c :| c in l.contacts && c.peer == peer && c.card >= l.sendSigSize;
      ContactRead(env, st.sent, l, c, l.sendSigSize);
    }
  }

  // ----- Interoperability

  /** Two nodes of the same network. */
  ghost predicate SameNetwork(a: Env, b: Env)
    requires a.Valid() && b.Valid()
  {
    a.p.reg == b.p.reg && a.scheme == b.scheme && a.codec == b.codec
  }

  /** The receiver finds the sender in its own level, and expects the range the sender covers. */
  lemma {:induction false} ReceiverLevel(a: Env, b: Env, id: nat)
    requires a.Valid() && b.Valid() && SameNetwork(a, b)
    requires id in a.peers && b.p.id in a.peers[id]
    ensures id in b.peers && |b.peers[id]| == b.p.SizeOf(id)
    ensures b.p.RangeOf(id) == a.p.InverseOf(id) && b.p.RangeOf(id).Has(a.p.id)
  {
    assert a.PeersAt(id) && b.PeersAt(id);
    a.p.PeerExpects(b.p, id);
    a.p.Symmetric(b.p, id);
  }

  lemma {:induction false} ParsedMulti(a: Env, b: Env, id: nat, ms: MultiSig)
    requires a.Valid() && a.Trusted() && b.Valid() && SameNetwork(a, b)
    requires id in a.peers && b.p.id in a.peers[id] && FitsPeers(a, id, ms)
    ensures Decode(b.codec, Encode(a.codec, ms)) == Some(ms)
    ensures id in b.peers && ms.len == |b.peers[id]| && ms.bits != {}
    ensures Verifies(b.p, b.scheme, Incoming(a.p.id, id, Some(ms), false, 0))
  {
    ReceiverLevel(a, b, id);
    RoundTrip(a.codec, ms);
    assert b.PeersAt(id);
    KeysAt(b.p, b.scheme, id).VerifiedSound(ms);
  }

  lemma {:induction false} ParsedOwn(a: Env, b: Env, id: nat)
    requires a.Valid() && a.Trusted() && b.Valid() && SameNetwork(a, b)
    requires id in a.peers && b.p.id in a.peers[id] && id in b.peers && b.p.RangeOf(id).Has(a.p.id)
    ensures b.codec.decSig(a.codec.encSig(a.Own())) == Some(a.Own())
    ensures var index := a.p.id - b.p.Lo(id);
            Verifies(b.p, b.scheme,
                     Incoming(a.p.id, id, Some(Exact(|b.peers[id]|, {index}, a.Own())), true, index))
  {
    assert a.codec.RestoresSig(a.Own());
    assert b.PeersAt(id);
    OwnSound(a);
    KeysAt(b.p, b.scheme, id).VerifiedSound(Exact(|b.peers[id]|, {a.p.id - b.p.Lo(id)}, a.Own()));
    assert Shift({a.p.id - b.p.Lo(id)}, b.p.Lo(id)) == {a.p.id} == Shift({0}, a.p.id);
  }

  /** The receiver accepts the packet, and both signatures in it verify. */
  ghost predicate Accepted(b: Env, packet: Packet)
    requires b.Valid()
  {
    && 0 <= packet.origin < b.p.size && packet.level in b.peers
    && Parse(b, packet).Some?
    && var (ms, ind) := Parse(b, packet).value;
       && ms.ms.Some? && Verifies(b.p, b.scheme, ms)
       && (ind.Some? <==> packet.individualSig.Some?)
       && (ind.Some? ==> ind.value.ms.Some? && Verifies(b.p, b.scheme, ind.value))
  }

  lemma {:induction false} HonestAccepted(a: Env, b: Env, packet: Packet, ms: MultiSig)
    requires a.Valid() && a.Trusted() && b.Valid() && SameNetwork(a, b)
    requires packet.level in a.peers && b.p.id in a.peers[packet.level] && packet.origin == a.p.id
    requires FitsPeers(a, packet.level, ms) && packet.multiSig == Encode(a.codec, ms)
    requires packet.individualSig in {None, Some(a.codec.encSig(a.Own()))}
    ensures Accepted(b, packet)
  {
    ReceiverLevel(a, b, packet.level);
    ParsedMulti(a, b, packet.level, ms);
    ParsedOwn(a, b, packet.level);
  }

  /**
   * Honest interoperability: whatever a node has sent in any run, every receiver accepts: the
   * origin and the level are valid, the packet parses, and both signatures in it verify.
   */
  lemma {:induction false} Understood(a: Env, b: Env, st: State, n: nat, m: Sent)
    requires a.Valid() && b.Valid() && SameNetwork(a, b)
    requires a.Trusted() && Reachable(a, st, n) && m in st.sent && b.p.id in m.to
    ensures Accepted(b, m.packet)
  {
    Always(a, st, n);
    var i :| 0 <= i < |st.sent| && st.sent[i] == m;
    assert GoodMessage(a, m);
    var ms :| FitsPeers(a, m.packet.level, ms) && m.packet.multiSig == Encode(a.codec, ms);
    var j :| 0 <= j < |m.to| && m.to[j] == b.p.id;
    HonestAccepted(a, b, m.packet, ms);
  }

  // ----- The queue and the scores

  /**
   * In every run each accepted entry waits, was selected for verification, or was dropped; the two
   * counters count the latter; and no origin has had two individual signatures accepted.
   */
  lemma {:induction false} LedgerBalances(env: Env, st: State, n: nat)
    requires env.Valid() && env.Trusted() && Reachable(env, st, n)
    ensures st.queue.Balanced()
    ensures |st.queue.taken| == st.queue.sigCheckedCt + st.queue.sigSuppressed + |st.queue.todos|
  {
    Always(env, st, n);
    st.queue.BalancedCounts();
  }

  lemma {:induction false} FewLevels(size: nat)
    requires 1 <= size <= 65535
    ensures Log2(size) <= 16
  {
    assert Pow2(4) == 16 && Pow2(8) == 256 && Pow2(12) == 4096 && Pow2(16) == 65536;
    if Log2(size) > 16 {
      Pow2Monotone(16, Log2(size) - 1);
    }
  }

  /** In every run the score of a waiting signature predicts what storing it would do. */
  lemma {:induction false} ScoresPredict(env: Env, st: State, n: nat, sp: Incoming)
    requires env.Valid() && env.Trusted() && Reachable(env, st, n) && sp in st.queue.todos && sp.ms.Some?
    ensures Storable(st.slots, sp)
    ensures var slot, next := st.slots[sp.level], StoreAt(env, st.slots, sp)[sp.level];
            var score := Evaluate(env.p.SizeOf(sp.level), slot, sp);
            && score >= 0
            && (score > (if sp.isInd then 1 else 0) <==> next.best != slot.best)
            && (next.Full(env.p.SizeOf(sp.level)) && !slot.Full(env.p.SizeOf(sp.level)) <==> score > 755450)
  {
    Always(env, st, n);
    var i :| 0 <= i < |st.queue.todos| && st.queue.todos[i] == sp;
    assert GoodEntry(env, sp) && env.PeersAt(sp.level) && SlotAt(env.p, st.slots, sp.level);
    FewLevels(env.p.size);
    env.p.RangeBounds(sp.level);
    ScorePredictsStore(env.scheme, env.p.SizeOf(sp.level), st.slots[sp.level], sp);
  }

  // ----- Final signatures

  /**
   * The multisignatures sent to the user reach the threshold, cover the registry, grow
   * strictly, and so are no more than the cardinalities from the threshold up.
   */
  lemma {:induction false} FinalsGrow(env: Env, st: State, n: nat)
    requires env.Valid() && env.Trusted() && Reachable(env, st, n)
    ensures forall i | 0 <= i < |st.out| :: Final(env, st.out[i])
    ensures forall i, j | 0 <= i < j < |st.out| :: |st.out[i].bits| < |st.out[j].bits|
    ensures st.out != [] ==> |st.out| <= env.p.size - env.threshold + 1
  {
    Always(env, st, n);
    OutBound(env, st.out);
    forall i, j | 0 <= i < j < |st.out| ensures |st.out[i].bits| < |st.out[j].bits| {
      Increasing(env, st.out, i, j);
    }
  }

  lemma {:induction false} Increasing(env: Env, out: seq<MultiSig>, i: nat, j: nat)
    requires env.Valid() && OutOk(env, out) && i < j < |out|
    ensures |out[i].bits| < |out[j].bits|
  {
    if i < j - 1 { Increasing(env, out, i, j - 1); }
  }

  /**
   * Once the actors have run, and unless stopped, the user has been sent the best there is
   * exactly when that is below the threshold or a signature from a peer has been stored: the
   * own signature alone is never sent, even when it reaches the threshold.
   */
  lemma {:induction false} FinalIsCurrent(env: Env, st: State, n: nat)
    requires env.Valid() && env.Trusted() && Reachable(env, st, n) && st.pending.None? && !st.done
    ensures var full := Full(env.p, env.scheme, st.slots);
            (|full.bits| >= env.threshold ==> st.out != [] && |st.out[|st.out| - 1].bits| == |full.bits|)
            <==> (|full.bits| < env.threshold || Started(env, st.slots))
  {
    Always(env, st, n);
    FullGood(env, st.slots);
  }

  /** With threshold 1 the own signature alone is enough, but it is not sent. */
  lemma {:induction false} OwnAloneNotSent(env: Env)
    requires env.Valid() && env.Trusted() && env.threshold == 1
    ensures Reachable(env, Initial(env), 0) && Initial(env).pending.None? && !Initial(env).done
    ensures |Full(env.p, env.scheme, Initial(env).slots).bits| >= env.threshold && Initial(env).out == []
  {
    InitialSlots(env);
    FullGood(env, Initial(env).slots);
    OnlyOwn(Initial(env).slots, env.p.MaxLevel() + 1);
  }
}
