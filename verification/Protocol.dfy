/** handel.go as a state machine: each locked region is one step, taken in any order. */
module Protocol {
  import opened Numbers
  import opened Signatures
  import opened Partition
  import opened Slots
  import opened Combining
  import opened Wire
  import opened Processing
  import opened Levels

  datatype Packet = Packet(origin: int, level: nat, multiSig: seq<Byte>, individualSig: Option<seq<Byte>>)

  datatype Sent = Sent(to: seq<nat>, packet: Packet)

  /** What does not change during a run; peers lists the nodes of each level in contact order. */
  datatype Env = Env(p: Partitioner, scheme: Scheme, codec: Codec, threshold: int, updateCount: nat, fastPath: nat,
                     peers: map<nat, seq<nat>>)
  {
    ghost predicate Valid() {
      p.Valid() && p.size <= 65535 && forall l :: PeersAt(l)
    }

    /** The group obeys its laws, and what is encoded can be read back. */
    ghost predicate Trusted() {
      scheme.Lawful() && codec.Trusted()
    }

    /** There are peers at the non-empty levels, in any order, each once. */
    ghost predicate PeersAt(l: nat)
      requires p.Valid()
    {
      && (l in peers <==> p.IsLevel(l))
      && (l in peers ==> |peers[l]| == p.SizeOf(l) && forall b: nat :: b in peers[l] <==> p.RangeOf(l).Has(b))
    }

    /** The node's own, valid, signature. */
    function Own(): Point {
      p.reg.Key(scheme, p.id)
    }
  }

  /** A verified signature that has been stored, on which the actors have not yet run. */
  datatype Pending = Pending(v: Incoming, before: SlotMap)

  /** stopped, sent, out and replaced record what the processing routine, the network and the store did. */
  datatype State = State(
    slots: SlotMap,
    lvls: map<nat, LevelState>,
    queue: Queue,
    stopped: bool,
    verified: seq<Incoming>,
    pending: Option<Pending>,
    best: Option<MultiSig>,
    done: bool,
    out: seq<MultiSig>,
    sent: seq<Sent>,
    replaced: nat)

  /** The levels are those of the partition, and their positions are in range. */
  ghost predicate LevelsOk(env: Env, lvls: map<nat, LevelState>) {
    && (forall l :: l in lvls <==> l in env.peers)
    && (forall l | l in lvls :: lvls[l].id == l && lvls[l].nodes == env.peers[l] && lvls[l].sendPos < |lvls[l].nodes|)
  }

  // ----- Sending

  function ToSend(env: Env, slots: SlotMap, id: nat): MultiSig
    requires env.Valid() && id in env.peers
  {
    assert env.PeersAt(id);
    Combined(env.p, env.scheme, slots, id)
  }

  /** The message of sendUpdate for a level that has just selected its next peers. */
  function Message(env: Env, slots: SlotMap, l: LevelState, count: nat): Sent
    requires env.Valid() && l.id in env.peers && Min(count, |l.nodes|) <= |l.contacts|
  {
    var ind := if l.rcvCompleted then None else Some(env.codec.encSig(env.Own()));
    Sent(l.LastPeers(Min(count, |l.nodes|)),
         Packet(env.p.id, l.id, Encode(env.codec, ToSend(env, slots, l.id)), ind))
  }

  /** sendUpdate */
  function SendUpdate(env: Env, st: State, id: nat, count: nat): (next: State)
    requires env.Valid() && LevelsOk(env, st.lvls) && id in st.lvls
    ensures LevelsOk(env, next.lvls)
    ensures next == st.(lvls := next.lvls, sent := next.sent)
  {
    var l := st.lvls[id].SelectNext(count, |ToSend(env, st.slots, id).bits|);
    st.(lvls := st.lvls[id := l], sent := st.sent + [Message(env, st.slots, l, count)])
  }

  function SetLevel(st: State, l: LevelState): State {
    st.(lvls := st.lvls[l.id := l])
  }

  function TickLevel(env: Env, st: State, id: nat): (next: State)
    requires env.Valid() && LevelsOk(env, st.lvls) && id in st.lvls
    ensures LevelsOk(env, next.lvls)
    ensures next == st.(lvls := next.lvls, sent := next.sent)
  {
    if st.lvls[id].Active() then SendUpdate(env, st, id, env.updateCount) else st
  }

  /** periodicUpdate, visiting the levels in the given order. */
  function Periodic(env: Env, st: State, order: seq<nat>): (next: State)
    requires env.Valid() && LevelsOk(env, st.lvls)
    requires forall i | 0 <= i < |order| :: order[i] in env.peers
    ensures LevelsOk(env, next.lvls)
    ensures next == st.(lvls := next.lvls, sent := next.sent)
    decreases |order|
  {
    if order == [] then st else Periodic(env, TickLevel(env, st, order[0]), order[1..])
  }

  /** unsafeStartLevel */
  function StartLevel(env: Env, st: State, id: nat): (next: State)
    requires env.Valid() && LevelsOk(env, st.lvls) && id in st.lvls
    ensures LevelsOk(env, next.lvls)
    ensures next == st.(lvls := next.lvls, sent := next.sent)
  {
    if st.lvls[id].sendStarted then st
    else SendUpdate(env, SetLevel(st, st.lvls[id].(sendStarted := true)), id, env.updateCount)
  }

  // ----- The actors

  /** What one round of the loop over the upper levels makes of a level. */
  function Raised(env: Env, slots: SlotMap, l: LevelState): LevelState
    requires env.Valid() && l.id in env.peers && l.sendPos < |l.nodes|
  {
    var card := |ToSend(env, slots, l.id).bits|;
    var u := l.UpdateSig(card);
    if l.Completes(card) then u.SelectNext(env.fastPath, card) else u
  }

  /** The body of the loop over the upper levels in checkCompletedLevel. */
  function Raise(env: Env, st: State, id: nat): (next: State)
    requires env.Valid() && LevelsOk(env, st.lvls) && id in st.lvls
    ensures LevelsOk(env, next.lvls)
    ensures next == st.(lvls := next.lvls, sent := next.sent)
  {
    var l := Raised(env, st.slots, st.lvls[id]);
    var sent := if st.lvls[id].Completes(|ToSend(env, st.slots, id).bits|)
                then [Message(env, st.slots, l, env.fastPath)] else [];
    st.(lvls := st.lvls[id := l], sent := st.sent + sent)
  }

  function RaiseAll(env: Env, st: State, level: nat, order: seq<nat>): (next: State)
    requires env.Valid() && LevelsOk(env, st.lvls)
    requires forall i | 0 <= i < |order| :: order[i] in env.peers
    ensures LevelsOk(env, next.lvls)
    ensures next == st.(lvls := next.lvls, sent := next.sent)
    decreases |order|
  {
    if order == [] then st
    else
      var st1 := if order[0] < level + 1 then st else Raise(env, st, order[0]);
      RaiseAll(env, st1, level, order[1..])
  }

  /** The receiving phase of checkCompletedLevel. */
  function MarkCompleted(env: Env, st: State, level: nat): (next: State)
    requires env.Valid() && LevelsOk(env, st.lvls) && level in st.lvls
    ensures LevelsOk(env, next.lvls)
    ensures next == st.(lvls := next.lvls)
  {
    var lvl := st.lvls[level];
    if |BestBits(st.slots, level)| == |lvl.nodes| then SetLevel(st, lvl.(rcvCompleted := true)) else st
  }

  /** checkCompletedLevel, visiting the levels in the given order. */
  function CheckCompleted(env: Env, st: State, level: nat, order: seq<nat>): (next: State)
    requires env.Valid() && LevelsOk(env, st.lvls) && level in st.lvls
    requires forall i | 0 <= i < |order| :: order[i] in env.peers
    ensures LevelsOk(env, next.lvls)
    ensures next == st.(lvls := next.lvls, sent := next.sent)
  {
    if st.lvls[level].rcvCompleted then st
    else RaiseAll(env, MarkCompleted(env, st, level), level, order)
  }

  /** checkFinalSignature */
  function CheckFinal(env: Env, st: State): State
    requires env.Valid()
  {
    var sig := Full(env.p, env.scheme, st.slots);
    if |sig.bits| < env.threshold then st
    else if st.best.Some? && |sig.bits| <= |st.best.value.bits| then st
    else if st.done then st
    else st.(best := Some(sig), out := st.out + [sig])
  }

  // ----- Receiving

  /** parseSignatures, for a packet whose origin and level have been validated. */
  function Parse(env: Env, packet: Packet): Option<(Incoming, Option<Incoming>)>
    requires env.Valid() && packet.level in env.peers
  {
    var size := |env.peers[packet.level]|;
    var m := Decode(env.codec, packet.multiSig);
    if m.None? || m.value.len != size || m.value.bits == {} then None
    else
      var ms := Incoming(packet.origin, packet.level, m, false, 0);
      if packet.individualSig.None? then Some((ms, None))
      else
        var individual := env.codec.decSig(packet.individualSig.value);
        if individual.None? || packet.origin < 0 || !env.p.RangeOf(packet.level).Has(packet.origin) then None
        else
          var index := packet.origin - env.p.Lo(packet.level);
          var msind := Exact(size, {index}, individual.value);
          Some((ms, Some(Incoming(packet.origin, packet.level, Some(msind), true, index))))
  }

  /** NewPacket */
  function Receive(env: Env, st: State, packet: Packet): State
    requires env.Valid() && LevelsOk(env, st.lvls)
  {
    if st.done then st
    else if packet.origin < 0 || packet.origin >= env.p.size || packet.level !in st.lvls then st
    else
      var parsed := Parse(env, packet);
      if parsed.None? || st.lvls[packet.level].rcvCompleted then st
      else
        var (ms, ind) := parsed.value;
        var q := st.queue.Add(ms);
        st.(queue := if ind.Some? then q.Add(ind.value) else q)
  }

  // ----- Steps and runs

  datatype Event =
    | Recv(packet: Packet)
    | Process(marks: seq<int>)    // processStep; marks are the evaluator's answers
    | StoreNext                   // rangeOnVerified takes the next verified signature and stores it
    | Actors(order: seq<nat>)     // rangeOnVerified runs the actors on it
    | Tick(order: seq<nat>)       // periodicUpdate
    | Timeout(level: nat)         // StartLevel
    | Stop

  ghost predicate IsOrder(order: seq<nat>, lvls: map<nat, LevelState>) {
    && (forall id :: id in order <==> id in lvls)
    && (forall i, j | 0 <= i < j < |order| :: order[i] != order[j])
  }

  ghost predicate Enabled(env: Env, st: State, e: Event) {
    match e
    case Recv(_) => true
    case Process(marks) => !st.stopped && |marks| == |st.queue.todos| > 0
    case StoreNext => st.pending.None? && st.verified != []
    case Actors(order) => st.pending.Some? && IsOrder(order, st.lvls)
    case Tick(order) => IsOrder(order, st.lvls)
    case Timeout(level) => level in st.lvls
    case Stop => !st.done
  }

  /** One processing step: select, verify, publish. */
  ghost function ProcessStep(env: Env, st: State, marks: seq<int>): State
    requires env.Valid() && |marks| == |st.queue.todos|
  {
    if PILL in st.queue.todos then st.(stopped := true)
    else
      var best := ScanTo(st.queue.todos, marks, |marks|).best;
      var st1 := st.(queue := st.queue.Read(marks));
      if best.Some? && best.value.ms.Some? && Verifies(env.p, env.scheme, best.value)
      then st1.(verified := st1.verified + [best.value])
      else st1
  }

  /** Storing v, which must be for a level of this node. */
  function StoreAt(env: Env, slots: SlotMap, v: Incoming): SlotMap
    requires v.ms.Some? && (v.isInd ==> v.mappedIndex >= 0)
    requires v.level in slots && slots[v.level].verified <= slots[v.level].indiv.Keys
  {
    slots[v.level := StoreSlot(env.scheme, slots[v.level], v)]
  }

  ghost predicate Storable(slots: SlotMap, v: Incoming) {
    && v.ms.Some? && (v.isInd ==> v.mappedIndex >= 0)
    && v.level in slots && slots[v.level].verified <= slots[v.level].indiv.Keys
  }

  ghost function StoreStep(env: Env, st: State): State
    requires st.verified != [] && Storable(st.slots, st.verified[0])
  {
    var v := st.verified[0];
    var slots := StoreAt(env, st.slots, v);
    var changed := Best(slots, v.level) != Best(st.slots, v.level);
    st.(slots := slots, verified := st.verified[1..], pending := Some(Pending(v, st.slots)),
        replaced := if changed then st.replaced + 1 else st.replaced)
  }

  ghost function ActorsStep(env: Env, st: State, order: seq<nat>): State
    requires env.Valid() && LevelsOk(env, st.lvls)
    requires st.pending.Some? && st.pending.value.v.level in st.lvls && IsOrder(order, st.lvls)
  {
    assert forall i | 0 <= i < |order| :: order[i] in order;
    var st1 := CheckCompleted(env, st, st.pending.value.v.level, order);
    CheckFinal(env, st1).(pending := None)
  }

  /** Evaluating a waiting signature does not panic. */
  ghost predicate ScoreSafe(env: Env, slots: SlotMap, sp: Incoming)
    requires env.Valid()
  {
    sp.ms.Some? ==> sp.level in slots && EvaluateSafe(env.p.SizeOf(sp.level), slots[sp.level], sp)
  }

  /** Combining for a level does not panic, and gives a signature. */
  ghost predicate CombineSafe(env: Env, slots: SlotMap, top: nat)
    requires env.Valid() && top <= env.p.MaxLevel() + 1
  {
    Fitting(env.p, slots, top) && exists k: nat :: k < top && Best(slots, k).Some?
  }

  /** So for all levels that a node may send at. */
  ghost predicate SendSafe(env: Env, slots: SlotMap)
    requires env.Valid()
  {
    forall id | id in env.peers :: id <= env.p.MaxLevel() && CombineSafe(env, slots, id)
  }

  /** The index of an individual signature lies in the bitset made for it. */
  ghost predicate ReceiveSafe(env: Env, packet: Packet)
    requires env.Valid()
  {
    packet.level in env.peers && Parse(env, packet).Some? && Parse(env, packet).value.1.Some? ==>
      0 <= Parse(env, packet).value.1.value.mappedIndex < |env.peers[packet.level]|
  }

  ghost predicate ProcessSafe(env: Env, st: State)
    requires env.Valid()
  {
    forall i | 0 <= i < |st.queue.todos| :: ScoreSafe(env, st.slots, st.queue.todos[i])
  }

  ghost predicate StoreNextSafe(env: Env, slots: SlotMap, v: Incoming)
    requires env.Valid()
  {
    Storable(slots, v) && StoreSafe(env.scheme, env.p.SizeOf(v.level), slots[v.level], v)
  }

  ghost predicate ActorsSafe(env: Env, st: State, level: nat)
    requires env.Valid()
  {
    && level in st.lvls && Best(st.slots, level).Some?
    && SendSafe(env, st.slots) && CombineSafe(env, st.slots, env.p.MaxLevel() + 1)
  }

  /**
   * The step does not panic: levels, signatures and bests that the code takes for granted are there,
   * no bit is read or set out of bounds, no score is negative, and the output is not closed twice.
   */
  ghost predicate PanicFree(env: Env, st: State, e: Event)
    requires env.Valid() && Enabled(env, st, e)
  {
    match e
    case Recv(packet) => ReceiveSafe(env, packet)
    case Process(_) => ProcessSafe(env, st)
    case StoreNext => StoreNextSafe(env, st.slots, st.verified[0])
    case Actors(_) => ActorsSafe(env, st, st.pending.value.v.level)
    case Tick(_) => SendSafe(env, st.slots)
    case Timeout(_) => SendSafe(env, st.slots)
    case Stop => !st.done
  }

  ghost function Next(env: Env, st: State, e: Event): State
    requires env.Valid() && LevelsOk(env, st.lvls) && Enabled(env, st, e) && PanicFree(env, st, e)
  {
    match e
    case Recv(packet) => Receive(env, st, packet)
    case Process(marks) => ProcessStep(env, st, marks)
    case StoreNext => StoreStep(env, st)
    case Actors(order) => ActorsStep(env, st, order)
    case Tick(order) =>
      assert forall i | 0 <= i < |order| :: order[i] in order;
      Periodic(env, st, order)
    case Timeout(level) => StartLevel(env, st, level)
    case Stop => st.(done := true, queue := st.queue.Add(PILL))
  }

  // ----- The initial state

  ghost predicate IsLowest(env: Env, l: nat) {
    l in env.peers && forall k | k in env.peers :: l <= k
  }

  ghost function InitialLevel(env: Env, l: nat): LevelState
    requires env.Valid() && l in env.peers
  {
    LevelState(l, env.peers[l], IsLowest(env, l), false, 0, 0, env.p.SizeBelow(l), 0, [], 0)
  }

  /** NewHandel: the own signature is stored as an individual signature at level 0. */
  function OwnIncoming(env: Env): Incoming {
    Incoming(env.p.id, 0, Some(Exact(1, {0}, env.Own())), true, 0)
  }

  ghost function Initial(env: Env): State
    requires env.Valid()
  {
    var empty := map l | l in {0} + env.peers.Keys :: EMPTY;
    State(StoreAt(env, empty, OwnIncoming(env)), map l | l in env.peers :: InitialLevel(env, l),
          EMPTY_QUEUE, false, [], None, None, false, [], [], 1)
  }

  /**
   * A packet that arrives announces the length of the bit vector it carries. The code does not check
   * that, but whoever hands over the packet can, from its bytes alone; Mismatch shows what happens otherwise.
   */
  ghost predicate Arrives(env: Env, e: Event) {
    e.Recv? ==> Announced(env.codec, e.packet.multiSig)
  }

  /** st is the state after a run of n steps. */
  ghost predicate Reachable(env: Env, st: State, n: nat)
    requires env.Valid()
    decreases n
  {
    if n == 0 then st == Initial(env)
    else exists before: State, e: Event :: Reachable(env, before, n - 1) && Step(env, before, e, st)
  }

  ghost predicate Step(env: Env, st: State, e: Event, next: State)
    requires env.Valid()
  {
    && LevelsOk(env, st.lvls) && Enabled(env, st, e) && Arrives(env, e)
    && PanicFree(env, st, e) && next == Next(env, st, e)
  }
}
