/** What an arriving packet puts into the queue, and what becomes of its individual signature. */
module Queueing {
  import opened Signatures
  import opened Slots
  import opened Combining
  import opened Wire
  import opened Processing
  import opened Protocol
  import opened Safety
  import opened Sending
  import opened Runs
  import opened Theorems

  /** Both signatures of the packet can be read, and are for the level. */
  ghost predicate Readable(env: Env, packet: Packet)
    requires env.Valid() && packet.level in env.peers
  {
    && Decode(env.codec, packet.multiSig).Some?
    && Decode(env.codec, packet.multiSig).value.len == |env.peers[packet.level]|
    && Decode(env.codec, packet.multiSig).value.bits != {}
    && (packet.individualSig.Some? ==>
         packet.origin in env.peers[packet.level] && env.codec.decSig(packet.individualSig.value).Some?)
  }

  /** The node is not done, and the packet is valid, readable and for a level not yet complete. */
  ghost predicate Welcome(env: Env, st: State, packet: Packet)
    requires env.Valid()
  {
    && !st.done && 0 <= packet.origin < env.p.size
    && packet.level in env.peers && packet.level in st.lvls && !st.lvls[packet.level].rcvCompleted
    && Readable(env, packet)
  }

  /** The entry of the multisignature. */
  function MultiEntry(env: Env, packet: Packet): Incoming
    requires env.Valid() && packet.level in env.peers
  {
    Incoming(packet.origin, packet.level, Decode(env.codec, packet.multiSig), false, 0)
  }

  /** The entry of an individual signature: one bit, at the position of the origin in the level. */
  function SingleEntry(env: Env, origin: nat, level: nat, sig: Point): Incoming
    requires env.Valid() && level in env.peers && env.p.RangeOf(level).Has(origin)
  {
    Incoming(origin, level, Some(Exact(|env.peers[level]|, {origin - env.p.Lo(level)}, sig)), true, origin - env.p.Lo(level))
  }

  lemma {:induction false} OriginInLevel(env: Env, packet: Packet)
    requires env.Valid() && packet.level in env.peers && packet.origin >= 0
    ensures packet.origin in env.peers[packet.level] <==> env.p.RangeOf(packet.level).Has(packet.origin)
  {
    assert env.PeersAt(packet.level);
  }

  /** Packets that are not welcome leave everything as it was. */
  lemma {:induction false} ReceiveIgnores(env: Env, st: State, packet: Packet)
    requires env.Valid() && LevelsOk(env, st.lvls) && !Welcome(env, st, packet)
    ensures Receive(env, st, packet) == st
  {
    if packet.level in env.peers && packet.origin >= 0 { OriginInLevel(env, packet); }
  }

  /**
   * A welcome packet appends its multisignature, and after it its individual signature if it carries
   * one of an origin that none was accepted of before; nothing else changes but that origin being seen.
   */
  lemma {:induction false} ReceiveQueues(env: Env, st: State, packet: Packet)
    requires env.Valid() && LevelsOk(env, st.lvls) && Welcome(env, st, packet)
    ensures packet.individualSig.None? || packet.origin in st.queue.seen ==>
              Receive(env, st, packet).queue.todos == st.queue.todos + [MultiEntry(env, packet)] &&
              Receive(env, st, packet).queue.seen == st.queue.seen
    ensures packet.individualSig.Some? && packet.origin !in st.queue.seen ==>
              && env.p.RangeOf(packet.level).Has(packet.origin)
              && Receive(env, st, packet).queue.todos ==
                 st.queue.todos + [MultiEntry(env, packet),
                   SingleEntry(env, packet.origin, packet.level, env.codec.decSig(packet.individualSig.value).value)]
              && Receive(env, st, packet).queue.seen == st.queue.seen + {packet.origin}
    ensures Receive(env, st, packet) == st.(queue := Receive(env, st, packet).queue)
  {
    OriginInLevel(env, packet);
  }

  // ----- Across two nodes

  /** What an honest node sends is welcome at a receiver that is not done and has not completed the level. */
  lemma {:induction false} HonestWelcome(a: Env, b: Env, sa: State, n: nat, sb: State, m: Sent)
    requires a.Valid() && b.Valid() && SameNetwork(a, b) && a.Trusted()
    requires Reachable(a, sa, n) && m in sa.sent && b.p.id in m.to
    requires LevelsOk(b, sb.lvls) && !sb.done && m.packet.level in sb.lvls && !sb.lvls[m.packet.level].rcvCompleted
    ensures Welcome(b, sb, m.packet) && m.packet.origin == a.p.id && b.p.RangeOf(m.packet.level).Has(a.p.id)
    ensures m.packet.individualSig.Some? ==> b.codec.decSig(m.packet.individualSig.value) == Some(a.Own())
  {
    Understood(a, b, sa, n, m);
    SentKnown(a, sa, n, m);
    ReceiverLevel(a, b, m.packet.level);
    OriginInLevel(b, m.packet);
    assert a.codec.RestoresSig(a.Own());
  }

  lemma {:induction false} SentKnown(env: Env, st: State, n: nat, m: Sent)
    requires env.Valid() && env.Trusted() && Reachable(env, st, n) && m in st.sent
    ensures m.packet.level in env.peers && m.packet.origin == env.p.id
    ensures m.packet.individualSig in {None, Some(env.codec.encSig(env.Own()))}
    ensures forall peer | peer in m.to :: peer in env.peers[m.packet.level]
  {
    Always(env, st, n);
    var i :| 0 <= i < |st.sent| && st.sent[i] == m;
    assert GoodMessage(env, st.sent[i]);
  }

  /** The individual signature of an honest node verifies at its receivers. */
  lemma {:induction false} SingleVerifies(a: Env, b: Env, level: nat)
    requires a.Valid() && b.Valid() && SameNetwork(a, b) && a.Trusted()
    requires level in a.peers && b.p.id in a.peers[level] && level in b.peers && b.p.RangeOf(level).Has(a.p.id)
    ensures Verifies(b.p, b.scheme, SingleEntry(b, a.p.id, level, a.Own()))
  {
    ParsedOwn(a, b, level);
  }

  /** A verified individual signature, once stored, is recorded, and is in the best of its level. */
  ghost predicate Recorded(env: Env, slots: SlotMap, v: Incoming) {
    && Storable(slots, v) && v.level in StoreAt(env, slots, v)
    && v.mappedIndex in StoreAt(env, slots, v)[v.level].verified
    && v.mappedIndex in BestBits(StoreAt(env, slots, v), v.level)
  }

  lemma {:induction false} SingleStored(env: Env, slots: SlotMap, v: Incoming)
    requires env.Valid() && SlotData(env, slots) && Checked(env, v) && v.isInd
    ensures Recorded(env, slots, v)
  {
    CheckedStorable(env, slots, v);
    assert SlotAt(env.p, slots, v.level);
    StoreKeeps(env.scheme, env.p.SizeOf(v.level), slots[v.level], v);
  }

  /** Whenever the entry is next to be stored, in any run, it is recorded. */
  ghost predicate RecordedWhenStored(env: Env, v: Incoming)
    requires env.Valid()
  {
    forall st: State, n: nat | Reachable(env, st, n) && st.verified != [] && st.verified[0] == v :: Recorded(env, st.slots, v)
  }

  lemma {:induction false} FirstRecorded(env: Env, st: State, n: nat, v: Incoming)
    requires env.Valid() && env.Trusted() && Reachable(env, st, n) && st.verified != [] && st.verified[0] == v && v.isInd
    ensures Recorded(env, st.slots, v)
  {
    Always(env, st, n);
    assert Checked(env, st.verified[0]);
    SingleStored(env, st.slots, v);
  }

  lemma {:induction false} EverRecorded(env: Env, v: Incoming)
    requires env.Valid() && env.Trusted() && v.isInd
    ensures RecordedWhenStored(env, v)
  {
    forall st: State, n: nat | Reachable(env, st, n) && st.verified != [] && st.verified[0] == v
      ensures Recorded(env, st.slots, v)
    {
      FirstRecorded(env, st, n, v);
    }
  }

  /** The entry selected is passed on when it verifies. */
  lemma {:induction false} SelectedPublished(env: Env, st: State, marks: seq<int>, v: Incoming)
    requires env.Valid() && |marks| == |st.queue.todos| && PILL !in st.queue.todos
    requires ScanTo(st.queue.todos, marks, |marks|).best == Some(v) && v.ms.Some? && Verifies(env.p, env.scheme, v)
    ensures ProcessStep(env, st, marks).verified == st.verified + [v]
  {
  }

  /** Whenever the entry is selected, from whatever queue, it is passed on. */
  ghost predicate PublishedWhenSelected(env: Env, v: Incoming)
    requires env.Valid()
  {
    forall st: State, marks: seq<int> |
      |marks| == |st.queue.todos| && PILL !in st.queue.todos && ScanTo(st.queue.todos, marks, |marks|).best == Some(v) ::
      ProcessStep(env, st, marks).verified == st.verified + [v]
  }

  lemma {:induction false} EverPublished(env: Env, v: Incoming)
    requires env.Valid() && v.ms.Some? && Verifies(env.p, env.scheme, v)
    ensures PublishedWhenSelected(env, v)
  {
    forall st: State, marks: seq<int> | |marks| == |st.queue.todos| && PILL !in st.queue.todos &&
                                        ScanTo(st.queue.todos, marks, |marks|).best == Some(v)
      ensures ProcessStep(env, st, marks).verified == st.verified + [v]
    {
      SelectedPublished(env, st, marks, v);
    }
  }

  lemma {:induction false} SingleQueued(env: Env, st: State, packet: Packet, v: Incoming)
    requires env.Valid() && LevelsOk(env, st.lvls) && Welcome(env, st, packet)
    requires packet.individualSig.Some? && packet.origin !in st.queue.seen && env.p.RangeOf(packet.level).Has(packet.origin)
    requires v == SingleEntry(env, packet.origin, packet.level, env.codec.decSig(packet.individualSig.value).value)
    ensures v in Receive(env, st, packet).queue.todos
  {
    ReceiveQueues(env, st, packet);
    var todos := st.queue.todos + [MultiEntry(env, packet), v];
    assert todos[|st.queue.todos| + 1] == v;
  }

  /**
   * Across two nodes: the individual signature in whatever a has sent reaches the queue of b, unless b
   * is done, has completed the level, or has accepted one of a before; when it is selected it verifies
   * and is passed on; and when it is stored, in any run of b, the position of a is recorded as verified.
   */
  lemma {:induction false} IndividualRecorded(a: Env, b: Env, sa: State, n: nat, sb: State, k: nat, m: Sent)
    requires a.Valid() && b.Valid() && SameNetwork(a, b) && a.Trusted()
    requires Reachable(a, sa, n) && m in sa.sent && b.p.id in m.to && m.packet.individualSig.Some?
    requires Reachable(b, sb, k) && !sb.done && m.packet.level in sb.lvls && !sb.lvls[m.packet.level].rcvCompleted
    requires a.p.id !in sb.queue.seen
    ensures LevelsOk(b, sb.lvls) && m.packet.level in b.peers && b.p.RangeOf(m.packet.level).Has(a.p.id)
    ensures var v := SingleEntry(b, a.p.id, m.packet.level, a.Own());
            && v in Receive(b, sb, m.packet).queue.todos && Verifies(b.p, b.scheme, v)
            && PublishedWhenSelected(b, v) && RecordedWhenStored(b, v)
  {
    LevelsKnown(b, sb, k);
    HonestWelcome(a, b, sa, n, sb, m);
    SentKnown(a, sa, n, m);
    var v := SingleEntry(b, a.p.id, m.packet.level, a.Own());
    SingleQueued(b, sb, m.packet, v);
    SingleVerifies(a, b, m.packet.level);
    EverPublished(b, v);
    EverRecorded(b, v);
  }

  lemma {:induction false} LevelsKnown(env: Env, st: State, n: nat)
    requires env.Valid() && env.Trusted() && Reachable(env, st, n)
    ensures LevelsOk(env, st.lvls)
  {
    Always(env, st, n);
  }

  // ----- Once stopped

  /** Once the node is done nothing is queued by packets and nothing is sent to the user, whatever happens. */
  lemma {:induction false} DoneStaysQuiet(env: Env, st: State, e: Event, next: State)
    requires env.Valid() && Step(env, st, e, next) && st.done
    ensures next.done && next.out == st.out && (e.Recv? ==> next == st)
  {
  }

  /** Stopping marks the node done; the next processing step then ends the processing for good. */
  lemma {:induction false} StopEnds(env: Env, st: State, next: State, marks: seq<int>)
    requires env.Valid() && Step(env, st, Stop, next) && |marks| == |next.queue.todos|
    ensures next.done && ProcessStep(env, next, marks) == next.(stopped := true)
  {
    assert next.queue.todos == st.queue.todos + [PILL];
    assert next.queue.todos[|st.queue.todos|] == PILL;
  }

  lemma {:induction false} StoppedStays(env: Env, st: State, e: Event, next: State)
    requires env.Valid() && Step(env, st, e, next) && st.stopped
    ensures !e.Process? && next.stopped && (e.StoreNext? || next.verified == st.verified)
  {
  }

  // ----- At the start

  /** At first exactly the lowest non-empty level is started. */
  lemma {:induction false} FirstStarted(env: Env, id: nat)
    requires env.Valid() && id in env.peers
    ensures id in Initial(env).lvls && Initial(env).lvls[id].nodes == env.peers[id] && Initial(env).lvls[id].sendPos == 0
    ensures Initial(env).lvls[id].sendStarted <==> forall k: nat | 1 <= k < id :: env.p.SizeOf(k) == 0
  {
    assert env.PeersAt(id);
    if IsLowest(env, id) {
      forall k: nat | 1 <= k < id ensures env.p.SizeOf(k) == 0 {
        assert env.PeersAt(k);
        env.p.RangeBounds(k);
      }
    } else {
      var k :| k in env.peers && k < id;
      assert env.PeersAt(k);
      env.p.RangeBounds(k);
      assert env.p.SizeOf(k) > 0;
    }
  }
}
