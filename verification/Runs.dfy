/** Every state of every run satisfies the invariants, and no step panics. */
module Runs {
  import opened Signatures
  import opened Sets
  import opened Partition
  import opened Slots
  import opened Combining
  import opened Wire
  import opened Processing
  import opened Levels
  import opened Protocol
  import opened Safety
  import opened Pace
  import opened Sending
  import opened Serving
  import opened Outputs

  /** The store as the actors last saw it. */
  function Synced(st: State): SlotMap {
    if st.pending.Some? then st.pending.value.before else st.slots
  }

  ghost predicate CountsOk(env: Env, st: State)
    requires env.Valid()
  {
    st.queue.Balanced() && st.replaced <= Total(env, st.slots)
  }

  ghost predicate Inv(env: Env, st: State)
    requires env.Valid()
  {
    && env.Trusted() && LevelsOk(env, st.lvls)
    && DataInv(env, st)
    && LevelsInv(env.p, Synced(st), st.lvls) && SentOk(env, st.sent) && AllBacked(env, st.sent, st.lvls)
    && OutInv(env, Synced(st), st)
    && CountsOk(env, st)
  }

  lemma {:induction false} Grown(env: Env, slots: SlotMap, v: Incoming)
    requires env.Valid() && SlotData(env, slots) && Checked(env, v) && Storable(slots, v)
    ensures GrownAt(slots, StoreAt(env, slots, v), v.level)
  {
    assert env.PeersAt(v.level);
    StoreAtGrows(env, slots, v);
  }

  lemma {:induction false} GrownBehind(before: SlotMap, slots: SlotMap, level: nat)
    requires GrownAt(before, slots, level)
    ensures Behind(before, slots)
  {
    forall id: nat ensures CardBelow(before, id) <= CardBelow(slots, id) {
      if id <= level { LowSame(before, slots, level, id); } else { HighGrows(before, slots, level, id); }
    }
  }

  lemma {:induction false} SyncedBehind(env: Env, st: State)
    requires env.Valid() && DataInv(env, st)
    ensures Behind(Synced(st), st.slots)
  {
    if st.pending.Some? {
      var pending := st.pending.value;
      Grown(env, pending.before, pending.v);
      GrownBehind(pending.before, st.slots, pending.v.level);
    }
  }

  // ----- Receiving and verifying

  lemma {:induction false} ReceiveBalanced(env: Env, st: State, packet: Packet)
    requires env.Valid() && LevelsOk(env, st.lvls) && st.queue.Balanced()
    ensures Receive(env, st, packet).queue.Balanced()
  {
    if packet.level in env.peers && Parse(env, packet).Some? {
      var (ms, ind) := Parse(env, packet).value;
      st.queue.AddBalanced(ms);
      if ind.Some? { st.queue.Add(ms).AddBalanced(ind.value); }
    }
  }

  lemma {:induction false} RecvKeeps(env: Env, st: State, packet: Packet)
    requires env.Valid() && Inv(env, st) && Announced(env.codec, packet.multiSig)
    ensures Inv(env, Receive(env, st, packet))
  {
    ReceiveData(env, st, packet);
    ReceiveBalanced(env, st, packet);
    var next := Receive(env, st, packet);
    assert next == st.(queue := next.queue);
  }

  lemma {:induction false} ProcessKeeps(env: Env, st: State, marks: seq<int>)
    requires env.Valid() && Inv(env, st) && |marks| == |st.queue.todos|
    ensures Inv(env, ProcessStep(env, st, marks))
  {
    ProcessData(env, st, marks);
    st.queue.ReadBalanced(marks);
    var next := ProcessStep(env, st, marks);
    assert next == st.(queue := next.queue, verified := next.verified, stopped := next.stopped);
  }

  // ----- Storing

  lemma {:induction false} StoreStepData(env: Env, st: State)
    requires env.Valid() && DataInv(env, st) && st.verified != []
    ensures Storable(st.slots, st.verified[0]) && DataInv(env, StoreStep(env, st))
  {
    var v := st.verified[0];
    CheckedStorable(env, st.slots, v);
    StoreAtKeeps(env, st.slots, v);
    assert AllChecked(env, st.verified[1..]);
  }

  lemma {:induction false} StoreStepKeeps(env: Env, st: State)
    requires env.Valid() && Inv(env, st) && st.pending.None? && st.verified != []
    ensures Storable(st.slots, st.verified[0]) && Inv(env, StoreStep(env, st))
  {
    StoreStepData(env, st);
    Replaced(env, st.slots, st.verified[0]);
  }

  lemma {:induction false} StoreOutcome(env: Env, slots: SlotMap, v: Incoming) returns (next: SlotMap)
    requires env.Valid() && SlotData(env, slots) && Checked(env, v) && Storable(slots, v)
    ensures next == StoreAt(env, slots, v) && GrownAt(slots, next, v.level)
    ensures Best(slots, v.level) == Best(next, v.level) || |BestBits(slots, v.level)| < |BestBits(next, v.level)|
    ensures v.level <= env.p.MaxLevel()
  {
    next := StoreAt(env, slots, v);
    Grown(env, slots, v);
    StoreAtGrows(env, slots, v);
    assert env.PeersAt(v.level);
  }

  /** A replacement adds at least one contribution to the total. */
  lemma {:induction false} Replaced(env: Env, slots: SlotMap, v: Incoming)
    requires env.Valid() && SlotData(env, slots) && Checked(env, v) && Storable(slots, v)
    ensures Total(env, slots) <= Total(env, StoreAt(env, slots, v))
    ensures Best(StoreAt(env, slots, v), v.level) != Best(slots, v.level) ==>
              Total(env, slots) < Total(env, StoreAt(env, slots, v))
  {
    var next := StoreOutcome(env, slots, v);
    TotalGrows(env, slots, next, v.level);
  }

  lemma {:induction false} TotalGrows(env: Env, before: SlotMap, slots: SlotMap, level: nat)
    requires env.Valid() && GrownAt(before, slots, level) && level <= env.p.MaxLevel()
    requires Best(before, level) == Best(slots, level) || |BestBits(before, level)| < |BestBits(slots, level)|
    ensures Total(env, before) <= Total(env, slots)
    ensures Best(slots, level) != Best(before, level) ==> Total(env, before) < Total(env, slots)
  {
    CardGain(before, slots, level, env.p.MaxLevel() + 1);
  }

  lemma {:induction false} CardGain(before: SlotMap, slots: SlotMap, level: nat, top: nat)
    requires GrownAt(before, slots, level) && level < top
    requires Best(before, level) == Best(slots, level) || |BestBits(before, level)| < |BestBits(slots, level)|
    ensures CardBelow(before, top) <= CardBelow(slots, top)
    ensures Best(slots, level) != Best(before, level) ==> CardBelow(before, top) < CardBelow(slots, top)
  {
    LowSame(before, slots, level, level);
    CardRest(before, slots, level + 1, top);
  }

  /** What is gained below j is gained in total. */
  lemma {:induction false} CardRest(a: SlotMap, b: SlotMap, j: nat, k: nat)
    requires j <= k && forall l: nat | j <= l :: Best(a, l) == Best(b, l)
    ensures CardBelow(b, k) - CardBelow(a, k) == CardBelow(b, j) - CardBelow(a, j)
  {
    if j < k { CardRest(a, b, j, k - 1); }
  }

  // ----- The actors

  /** What checkCompletedLevel makes of each level. */
  function ActorLevel(env: Env, slots: SlotMap, level: nat, l: LevelState): LevelState
    requires env.Valid() && l.id in env.peers && l.sendPos < |l.nodes|
  {
    if l.id < level then l
    else if l.id == level then l.(rcvCompleted := |BestBits(slots, level)| == |l.nodes|)
    else Raised(env, slots, l)
  }

  /** The outcome for the levels is the same for every order in which they are visited. */
  lemma {:induction false} CheckCompletedLevels(env: Env, st: State, level: nat, order: seq<nat>)
    requires env.Valid() && LevelsOk(env, st.lvls) && level in st.lvls && IsOrder(order, st.lvls)
    requires forall i | 0 <= i < |order| :: order[i] in env.peers
    requires !st.lvls[level].rcvCompleted
    ensures forall id | id in st.lvls ::
              CheckCompleted(env, st, level, order).lvls[id] == ActorLevel(env, st.slots, level, st.lvls[id])
  {
    RaiseAllLevels(env, MarkCompleted(env, st, level), level, order);
  }

  lemma {:induction false} ActorLevelInv(env: Env, before: SlotMap, slots: SlotMap, level: nat, l: LevelState)
    requires env.Valid() && SlotData(env, slots) && GrownAt(before, slots, level)
    requires l.id in env.peers && l.nodes == env.peers[l.id] && LevelInv(env.p, before, l)
    ensures LevelInv(env.p, slots, ActorLevel(env, slots, level, l))
  {
    assert env.PeersAt(l.id);
    if l.id <= level {
      LowPace(env.p, before, slots, level, l);
    } else {
      HighPace(env, before, slots, level, l);
    }
  }

  lemma {:induction false} CompletedSame(env: Env, before: SlotMap, v: Incoming, l: LevelState)
    requires env.Valid() && SlotData(env, before) && Checked(env, v) && Storable(before, v)
    requires |BestBits(before, v.level)| == env.p.SizeOf(v.level) && LevelInv(env.p, before, l)
    ensures LevelInv(env.p, StoreAt(env, before, v), l)
  {
    var slots := StoreAt(env, before, v);
    StoreAtKeeps(env, before, v);
    Grown(env, before, v);
    assert env.PeersAt(v.level);
    env.p.RangeBounds(v.level);
    BestBitsBound(env.p, slots, v.level);
    CompletePace(env.p, before, slots, v.level, l);
  }

  lemma {:induction false} ActorsLevels(env: Env, st: State, order: seq<nat>)
    requires env.Valid() && LevelsOk(env, st.lvls) && DataInv(env, st) && st.pending.Some?
    requires LevelsInv(env.p, st.pending.value.before, st.lvls)
    requires IsOrder(order, st.lvls) && forall i | 0 <= i < |order| :: order[i] in env.peers
    requires st.pending.value.v.level in st.lvls
    ensures LevelsInv(env.p, st.slots, CheckCompleted(env, st, st.pending.value.v.level, order).lvls)
  {
    var v, before := st.pending.value.v, st.pending.value.before;
    Grown(env, before, v);
    assert LevelInv(env.p, before, st.lvls[v.level]);
    if st.lvls[v.level].rcvCompleted {
      forall id | id in st.lvls ensures LevelInv(env.p, st.slots, st.lvls[id]) {
        CompletedSame(env, before, v, st.lvls[id]);
      }
    } else {
      CheckCompletedLevels(env, st, v.level, order);
      forall id | id in st.lvls ensures LevelInv(env.p, st.slots, ActorLevel(env, st.slots, v.level, st.lvls[id])) {
        ActorLevelInv(env, before, st.slots, v.level, st.lvls[id]);
      }
    }
  }

  lemma {:induction false} MarkedWaiting(env: Env, before: SlotMap, st: State, level: nat, order: seq<nat>)
    requires env.Valid() && LevelsOk(env, st.lvls) && LevelsInv(env.p, before, st.lvls) && level in st.lvls
    ensures Waiting(env.p, before, MarkCompleted(env, st, level).lvls, level, order)
  {
    forall id | id in order && id > level && id in st.lvls
      ensures LevelInv(env.p, before, MarkCompleted(env, st, level).lvls[id])
    {
      assert MarkCompleted(env, st, level).lvls[id] == st.lvls[id];
      assert LevelInv(env.p, before, st.lvls[id]);
    }
  }

  lemma {:induction false} ActorsSent(env: Env, st: State, order: seq<nat>)
    requires env.Valid() && LevelsOk(env, st.lvls) && DataInv(env, st) && st.pending.Some?
    requires LevelsInv(env.p, st.pending.value.before, st.lvls) && SentOk(env, st.sent)
    requires Distinct(order) && forall i | 0 <= i < |order| :: order[i] in env.peers
    requires st.pending.value.v.level in st.lvls
    ensures SentOk(env, CheckCompleted(env, st, st.pending.value.v.level, order).sent)
  {
    var v, before := st.pending.value.v, st.pending.value.before;
    Grown(env, before, v);
    if !st.lvls[v.level].rcvCompleted {
      MarkedWaiting(env, before, st, v.level, order);
      RaiseAllSent(env, before, MarkCompleted(env, st, v.level), v.level, order);
    }
  }

  lemma {:induction false} ActorsOut(env: Env, st: State, st1: State)
    requires env.Valid() && DataInv(env, st) && st.pending.Some? && OutInv(env, st.pending.value.before, st)
    requires st1 == st.(lvls := st1.lvls, sent := st1.sent)
    ensures OutInv(env, st.slots, CheckFinal(env, st1))
  {
    var v, before := st.pending.value.v, st.pending.value.before;
    Replaced(env, before, v);
    Grown(env, before, v);
    assert env.PeersAt(v.level);
    CheckFinalOut(env, before, st1);
  }

  lemma {:induction false} OrderInPeers(env: Env, st: State, order: seq<nat>)
    requires env.Valid() && LevelsOk(env, st.lvls) && IsOrder(order, st.lvls)
    ensures Distinct(order) && forall i | 0 <= i < |order| :: order[i] in env.peers
  {
    forall i | 0 <= i < |order| ensures order[i] in env.peers {
      assert order[i] in order;
    }
  }

  lemma {:induction false} Assemble(env: Env, st: State, next: State)
    requires env.Valid() && env.Trusted() && DataInv(env, st) && CountsOk(env, st)
    requires next == st.(lvls := next.lvls, sent := next.sent, best := next.best, out := next.out, pending := None)
    requires LevelsOk(env, next.lvls) && LevelsInv(env.p, st.slots, next.lvls)
    requires SentOk(env, next.sent) && AllBacked(env, next.sent, next.lvls) && OutInv(env, st.slots, next)
    ensures Inv(env, next)
  {
  }

  lemma {:induction false} ActorsShape(env: Env, st: State, order: seq<nat>, c: State)
    requires env.Valid() && LevelsOk(env, st.lvls) && Enabled(env, st, Actors(order)) && PanicFree(env, st, Actors(order))
    requires forall i | 0 <= i < |order| :: order[i] in env.peers
    requires c == CheckCompleted(env, st, st.pending.value.v.level, order)
    requires OutInv(env, st.slots, CheckFinal(env, c))
    ensures var next := ActorsStep(env, st, order);
            && next == st.(lvls := c.lvls, sent := c.sent, best := next.best, out := next.out, pending := None)
            && OutInv(env, st.slots, next)
  {
  }

  lemma {:induction false} ActorsKeeps(env: Env, st: State, order: seq<nat>)
    requires env.Valid() && Inv(env, st) && Enabled(env, st, Actors(order)) && PanicFree(env, st, Actors(order))
    ensures Inv(env, ActorsStep(env, st, order))
  {
    OrderInPeers(env, st, order);
    ActorsLevels(env, st, order);
    ActorsSent(env, st, order);
    var c := CheckCompleted(env, st, st.pending.value.v.level, order);
    CheckBacked(env, st, st.pending.value.v.level, order);
    ActorsOut(env, st, c);
    ActorsShape(env, st, order, c);
    Assemble(env, st, ActorsStep(env, st, order));
  }

  // ----- Sending

  lemma {:induction false} TickStepKeeps(env: Env, st: State, order: seq<nat>)
    requires env.Valid() && Inv(env, st) && forall i | 0 <= i < |order| :: order[i] in env.peers
    ensures Inv(env, Periodic(env, st, order))
  {
    SyncedBehind(env, st);
    PeriodicKeeps(env, Synced(st), st, order);
    PeriodicBacked(env, st, order);
  }

  lemma {:induction false} TimeoutKeeps(env: Env, st: State, level: nat)
    requires env.Valid() && Inv(env, st) && level in st.lvls
    ensures Inv(env, StartLevel(env, st, level))
  {
    SyncedBehind(env, st);
    StartKeeps(env, Synced(st), st, level);
    StartBacked(env, st, level);
  }

  lemma {:induction false} StopKeeps(env: Env, st: State)
    requires env.Valid() && Inv(env, st)
    ensures Inv(env, st.(done := true, queue := st.queue.Add(PILL)))
  {
    AddGood(env, st.queue, PILL);
  }

  // ----- The initial state

  lemma {:induction false} InitialSlots(env: Env)
    requires env.Valid() && env.scheme.Lawful()
    ensures SlotData(env, Initial(env).slots)
    ensures forall k: nat | k > 0 :: BestBits(Initial(env).slots, k) == {} && Best(Initial(env).slots, k).None?
  {
    var slots := Initial(env).slots;
    forall k ensures SlotAt(env.p, slots, k) {
      assert env.PeersAt(k);
    }
    OwnSound(env);
  }

  /** The own signature is valid at level 0. */
  lemma {:induction false} OwnSound(env: Env)
    requires env.Valid() && env.scheme.Lawful()
    ensures KeysAt(env.p, env.scheme, 0).Sound(Exact(1, {0}, env.Own()))
  {
    var key := (i: nat) => env.p.reg.Key(env.scheme, i);
    assert Shift({0}, env.p.id) == {} + {env.p.id};
    env.scheme.SumInsert(key, {}, env.p.id, env.p.size);
    env.scheme.SumExtend(key, {}, 0, env.p.size);
    assert env.scheme.Laws(env.Own(), env.scheme.zero, env.scheme.zero);
  }

  lemma {:induction false} InitialLevels(env: Env)
    requires env.Valid() && env.scheme.Lawful()
    ensures LevelsOk(env, Initial(env).lvls) && LevelsInv(env.p, Initial(env).slots, Initial(env).lvls)
  {
    var st := Initial(env);
    InitialSlots(env);
    forall id | id in st.lvls ensures LevelInv(env.p, st.slots, st.lvls[id]) && |st.lvls[id].nodes| > 0 {
      InitialLevelInv(env, st.slots, id);
    }
  }

  /** At the start nothing has been announced, and only the lowest level has all it needs. */
  lemma {:induction false} InitialLevelInv(env: Env, slots: SlotMap, id: nat)
    requires env.Valid() && id in env.peers && BestBits(slots, 0) == {0}
    requires forall k: nat | k > 0 :: BestBits(slots, k) == {} && Best(slots, k).None?
    ensures LevelInv(env.p, slots, InitialLevel(env, id)) && |env.peers[id]| > 0
  {
    assert env.PeersAt(id);
    env.p.RangeBounds(id);
    OnlyOwn(slots, id);
    if !IsLowest(env, id) {
      var k :| k in env.peers && k < id;
      assert env.PeersAt(k);
      env.p.RangeBounds(k);
      SizeBelowMore(env.p, k, id);
    }
    SizeBelowOne(env.p, id);
  }

  lemma {:induction false} OnlyOwn(slots: SlotMap, top: nat)
    requires BestBits(slots, 0) == {0} && forall k: nat | k > 0 :: BestBits(slots, k) == {}
    ensures CardBelow(slots, top) == if top > 0 then 1 else 0
  {
    if top > 0 { OnlyOwn(slots, top - 1); }
  }

  lemma {:induction false} SizeBelowOne(p: Partitioner, top: nat)
    requires p.Valid() && top >= 1
    ensures p.SizeBelow(top) >= 1
  {
    if top > 1 { SizeBelowOne(p, top - 1); } else { assert p.SizeBelow(1) == p.SizeBelow(0) + p.SizeOf(0); }
  }

  /** A non-empty level between makes the levels below more than the node itself. */
  lemma {:induction false} SizeBelowMore(p: Partitioner, k: nat, top: nat)
    requires p.Valid() && 1 <= k < top && p.SizeOf(k) > 0
    ensures p.SizeBelow(top) > 1
  {
    if k < top - 1 {
      SizeBelowMore(p, k, top - 1);
    } else {
      SizeBelowOne(p, k);
    }
  }

  lemma {:induction false} InitialOut(env: Env)
    requires env.Valid() && env.scheme.Lawful()
    ensures OutInv(env, Initial(env).slots, Initial(env)) && SentOk(env, Initial(env).sent)
  {
    InitialSlots(env);
  }

  lemma {:induction false} InitialCounts(env: Env)
    requires env.Valid() && env.scheme.Lawful()
    ensures CountsOk(env, Initial(env))
  {
    InitialSlots(env);
    OnlyOwn(Initial(env).slots, env.p.MaxLevel() + 1);
  }

  lemma {:induction false} InitialBacked(env: Env)
    requires env.Valid()
    ensures AllBacked(env, Initial(env).sent, Initial(env).lvls)
  {
  }

  lemma {:induction false} InitialInv(env: Env)
    requires env.Valid() && env.Trusted()
    ensures Inv(env, Initial(env))
  {
    InitialSlots(env);
    InitialLevels(env);
    InitialOut(env);
    InitialCounts(env);
    InitialBacked(env);
  }

  // ----- Runs

  lemma {:induction false} StepKeeps(env: Env, st: State, e: Event)
    requires env.Valid() && Inv(env, st) && Enabled(env, st, e) && Arrives(env, e) && PanicFree(env, st, e)
    ensures Inv(env, Next(env, st, e))
  {
    match e {
      case Recv(packet) => RecvKeeps(env, st, packet);
      case Process(marks) => ProcessKeeps(env, st, marks);
      case StoreNext => StoreStepKeeps(env, st);
      case Actors(order) => ActorsKeeps(env, st, order);
      case Tick(order) => OrderInPeers(env, st, order); TickStepKeeps(env, st, order);
      case Timeout(level) => TimeoutKeeps(env, st, level);
      case Stop => StopKeeps(env, st);
    }
  }

  lemma {:induction false} StepInv(env: Env, st: State, e: Event, next: State)
    requires env.Valid() && Inv(env, st) && Step(env, st, e, next)
    ensures Inv(env, next)
  {
    StepKeeps(env, st, e);
  }

  /** Every state of every run satisfies the invariants. */
  lemma {:induction false} Always(env: Env, st: State, n: nat)
    requires env.Valid() && env.Trusted() && Reachable(env, st, n)
    ensures Inv(env, st)
    decreases n
  {
    if n == 0 {
      InitialInv(env);
    } else {
      var before: State, e: Event :| Reachable(env, before, n - 1) && Step(env, before, e, st);
      Always(env, before, n - 1);
      StepInv(env, before, e, st);
    }
  }
}
