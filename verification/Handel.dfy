/** handel.go: the node itself. Its methods carry out the steps of the protocol. */
module Node {
  import opened Numbers
  import opened Signatures
  import opened Partition
  import opened Slots
  import opened Combining
  import opened Wire
  import opened BitSets
  import opened SignatureStore
  import opened Levels
  import opened Processing
  import opened Protocol
  import opened Runs

  /** Empty levels add nothing. */
  lemma {:induction false} SkipEmpty(p: Partitioner, j: nat, k: nat)
    requires p.Valid() && j <= k && forall l | j <= l < k :: p.SizeOf(l) == 0
    ensures p.SizeBelow(k) == p.SizeBelow(j)
  {
    if j < k { SkipEmpty(p, j, k - 1); }
  }

  lemma {:induction false} Between(levels: seq<nat>, i: nat, l: nat)
    requires i < |levels| && forall a, b | 0 <= a < b < |levels| :: levels[a] < levels[b]
    requires l < levels[i] && (i > 0 ==> levels[i - 1] < l)
    ensures l !in levels
  {
    forall a | 0 <= a < |levels| ensures levels[a] != l {
      assert i < a ==> levels[i] < levels[a];
      assert a + 1 < i ==> levels[a] < levels[i - 1];
    }
  }

  /** Between two consecutive levels of the list there are only empty ones. */
  lemma {:induction false} Gap(env: Env, levels: seq<nat>, i: nat)
    requires env.Valid() && i < |levels|
    requires forall a, b | 0 <= a < b < |levels| :: levels[a] < levels[b]
    requires forall l: int :: l in levels <==> env.p.IsLevel(l)
    ensures levels[i] in levels && levels[i] >= 1
    ensures env.p.SizeBelow(levels[i]) == env.p.SizeBelow(if i == 0 then 1 else levels[i - 1] + 1)
    ensures IsLowest(env, levels[i]) <==> i == 0
  {
    var j := if i == 0 then 1 else levels[i - 1] + 1;
    assert levels[i] in levels && env.PeersAt(levels[i]);
    forall l | j <= l < levels[i] ensures env.p.SizeOf(l) == 0 {
      env.p.RangeBounds(l);
      Between(levels, i, l);
    }
    SkipEmpty(env.p, j, levels[i]);
    if i > 0 {
      assert levels[0] in levels && env.PeersAt(levels[0]) && levels[0] < levels[i];
    } else {
      forall k | k in env.peers ensures levels[0] <= k {
        assert env.PeersAt(k);
        var a :| 0 <= a < |levels| && levels[a] == k;
      }
    }
  }

  /** The loop body of createLevels: the i-th level of the list. */
  method CreateLevel(env: Env, levels: seq<nat>, i: nat, sendExpectedFullSize: nat, firstActive: bool) returns (l: Level)
    requires env.Valid() && i < |levels| && (firstActive <==> i > 0)
    requires forall a, b | 0 <= a < b < |levels| :: levels[a] < levels[b]
    requires forall k: int :: k in levels <==> env.p.IsLevel(k)
    requires sendExpectedFullSize == env.p.SizeBelow(if i == 0 then 1 else levels[i - 1] + 1)
    ensures levels[i] in env.peers && fresh(l) && l.View() == InitialLevel(env, levels[i])
    ensures sendExpectedFullSize + |env.peers[levels[i]]| == env.p.SizeBelow(levels[i] + 1)
  {
    Gap(env, levels, i);
    assert env.PeersAt(levels[i]);
    l := new Level(levels[i], env.peers[levels[i]], sendExpectedFullSize);
    if !firstActive {
      l.SetStarted();
    }
  }

  /** createLevels; the order of the peers of each level is that of env. */
  method CreateLevels(env: Env) returns (lvls: map<nat, Level>)
    requires env.Valid()
    ensures forall l :: l in lvls <==> l in env.peers
    ensures forall l | l in lvls :: fresh(lvls[l]) && lvls[l].View() == InitialLevel(env, l)
  {
    lvls := map[];
    var firstActive := false;
    var sendExpectedFullSize := 1;
    var levels := env.p.Levels();
    for i := 0 to |levels|
      invariant forall l :: l in lvls <==> l in levels[..i]
      invariant forall l | l in lvls :: fresh(lvls[l]) && l in env.peers && lvls[l].View() == InitialLevel(env, l)
      invariant firstActive <==> i > 0
      invariant sendExpectedFullSize == env.p.SizeBelow(if i == 0 then 1 else levels[i - 1] + 1)
    {
      var level := levels[i];
      var l := CreateLevel(env, levels, i, sendExpectedFullSize, firstActive);
      sendExpectedFullSize := sendExpectedFullSize + |env.peers[level]|;
      firstActive := true;
      lvls := lvls[level := l];
    }
    forall l ensures l in lvls <==> l in env.peers {
      assert levels[..|levels|] == levels && env.PeersAt(l);
    }
  }

  /** A new store holds the empty slots that the own signature is stored into. */
  lemma {:induction false} EmptyInitial(env: Env, slots: SlotMap)
    requires env.Valid() && SlotsInv(env.p, slots) && forall k | k in slots :: slots[k] == EMPTY
    ensures slots == map l | l in {0} + env.peers.Keys :: EMPTY
    ensures 0 in slots && env.p.SizeOf(0) == 1 && SlotInv(1, EMPTY) && Fits(1, OwnIncoming(env))
    ensures Initial(env).slots == slots[0 := StoreSlot(env.scheme, EMPTY, OwnIncoming(env))]
    ensures Best(Initial(env).slots, 0).Some?
  {
    forall k: nat ensures k in slots <==> k == 0 || k in env.peers {
      assert env.PeersAt(k) && SlotAt(env.p, slots, k);
    }
  }

  lemma {:induction false} UpdateOk(env: Env, lvls: map<nat, LevelState>, id: nat, card: nat)
    requires LevelsOk(env, lvls) && id in lvls
    ensures LevelsOk(env, lvls[id := lvls[id].UpdateSig(card)])
  {
  }

  function Packed(env: Env, lvl: nat, ids: seq<nat>, ms: MultiSig, ind: Option<Point>): Sent {
    Sent(ids, Packet(env.p.id, lvl, Encode(env.codec, ms), if ind.Some? then Some(env.codec.encSig(ind.value)) else None))
  }

  /** Selecting the peers and sending to them is what sendUpdate is specified to do. */
  lemma {:induction false} Sends(env: Env, before: State, after: State, id: nat, count: nat, ids: seq<nat>, ms: MultiSig,
                                 ind: Option<Point>, l: LevelState)
    requires env.Valid() && LevelsOk(env, before.lvls) && id in before.lvls && ms == ToSend(env, before.slots, id)
    requires l == before.lvls[id].SelectNext(count, |ms.bits|) && ids == l.LastPeers(Min(count, |l.nodes|))
    requires ind == if l.rcvCompleted then None else Some(env.Own())
    requires after == before.(lvls := before.lvls[id := l], sent := before.sent + [Packed(env, id, ids, ms, ind)])
    ensures after == SendUpdate(env, before, id, count)
  {
  }

  /** order lists the keys visited so far, each once; the keys in left are still to come. */
  ghost predicate Visited(order: seq<nat>, keys: set<nat>, left: set<nat>) {
    && left <= keys
    && (forall id :: id in order <==> id in keys && id !in left)
    && (forall i | 0 <= i < |order| :: order[i] in order)
    && (forall i, j | 0 <= i < j < |order| :: order[i] != order[j])
  }

  lemma {:induction false} Visit(order: seq<nat>, keys: set<nat>, left: set<nat>, id: nat, one: set<nat>)
    requires Visited(order, keys, left) && id in left && one == {id}
    ensures Visited(order + [id], keys, left - one)
  {
  }

  lemma {:induction false} PeriodicSnoc(env: Env, st: State, order: seq<nat>, id: nat)
    requires env.Valid() && LevelsOk(env, st.lvls) && id in env.peers
    requires forall i | 0 <= i < |order| :: order[i] in env.peers
    ensures Periodic(env, st, order + [id]) == TickLevel(env, Periodic(env, st, order), id)
    decreases |order|
  {
    if order == [] {
      assert ([] + [id])[1..] == [];
    } else {
      assert (order + [id])[1..] == order[1..] + [id];
      PeriodicSnoc(env, TickLevel(env, st, order[0]), order[1..], id);
    }
  }

  /** now is what periodicUpdate has made of before once only the levels in left are to come. */
  ghost predicate Ticked(env: Env, before: State, now: State, order: seq<nat>, left: set<nat>) {
    && env.Valid() && LevelsOk(env, before.lvls) && LevelsOk(env, now.lvls)
    && Visited(order, env.peers.Keys, left) && now == Periodic(env, before, order)
  }

  lemma {:induction false} TickedStart(env: Env, before: State)
    requires env.Valid() && LevelsOk(env, before.lvls)
    ensures Ticked(env, before, before, [], env.peers.Keys)
  {
  }

  lemma {:induction false} TickedNext(env: Env, before: State, was: State, now: State, order: seq<nat>, left: set<nat>,
                                      id: nat, one: set<nat>)
    requires Ticked(env, before, was, order, left) && id in left && one == {id} && now == TickLevel(env, was, id)
    ensures Ticked(env, before, now, order + [id], left - one)
  {
    PeriodicSnoc(env, before, order, id);
    Visit(order, env.peers.Keys, left, id, one);
  }

  lemma {:induction false} RaiseAllSnoc(env: Env, st: State, level: nat, order: seq<nat>, id: nat)
    requires env.Valid() && LevelsOk(env, st.lvls) && id in env.peers
    requires forall i | 0 <= i < |order| :: order[i] in env.peers
    ensures RaiseAll(env, st, level, order + [id]) ==
            var st1 := RaiseAll(env, st, level, order);
            if id < level + 1 then st1 else Raise(env, st1, id)
    decreases |order|
  {
    if order == [] {
      assert ([] + [id])[1..] == [];
    } else {
      assert (order + [id])[1..] == order[1..] + [id];
      RaiseAllSnoc(env, if order[0] < level + 1 then st else Raise(env, st, order[0]), level, order[1..], id);
    }
  }

  /** now is what checkCompletedLevel has made of before once only the levels in left are to come. */
  ghost predicate AllRaised(env: Env, level: nat, before: State, now: State, order: seq<nat>, left: set<nat>) {
    && env.Valid() && LevelsOk(env, before.lvls) && LevelsOk(env, now.lvls)
    && Visited(order, env.peers.Keys, left) && now == RaiseAll(env, before, level, order)
  }

  lemma {:induction false} RaisedStart(env: Env, level: nat, before: State)
    requires env.Valid() && LevelsOk(env, before.lvls)
    ensures AllRaised(env, level, before, before, [], env.peers.Keys)
  {
  }

  lemma {:induction false} RaisedNext(env: Env, level: nat, before: State, was: State, now: State, order: seq<nat>,
                                      left: set<nat>, id: nat, one: set<nat>)
    requires AllRaised(env, level, before, was, order, left) && id in left && one == {id}
    requires now == if id < level + 1 then was else Raise(env, was, id)
    ensures AllRaised(env, level, before, now, order + [id], left - one)
  {
    RaiseAllSnoc(env, before, level, order, id);
    Visit(order, env.peers.Keys, left, id, one);
  }

  /** Sending a level's update after it was completed is the fast path of the specification. */
  lemma {:induction false} RaisedOne(env: Env, before: State, after: State, id: nat, card: nat)
    requires env.Valid() && LevelsOk(env, before.lvls) && id in before.lvls && card == |ToSend(env, before.slots, id).bits|
    requires var mid := before.(lvls := before.lvls[id := before.lvls[id].UpdateSig(card)]);
             LevelsOk(env, mid.lvls) &&
             after == if before.lvls[id].Completes(card) then SendUpdate(env, mid, id, env.fastPath) else mid
    ensures after == Raise(env, before, id)
  {
    var l := Raised(env, before.slots, before.lvls[id]);
    if before.lvls[id].Completes(card) {
      assert after.lvls == before.lvls[id := l];
      assert after.sent == before.sent + [Message(env, before.slots, l, env.fastPath)];
    } else {
      assert after == before.(lvls := before.lvls[id := l]);
    }
  }

  /** Marking a level and raising those above it is what checkCompletedLevel does of a level not yet complete. */
  lemma {:induction false} Checked(env: Env, level: nat, before: State, marked: State, after: State, order: seq<nat>)
    requires env.Valid() && LevelsOk(env, before.lvls) && level in before.lvls && !before.lvls[level].rcvCompleted
    requires marked == MarkCompleted(env, before, level) && AllRaised(env, level, marked, after, order, {})
    ensures forall i | 0 <= i < |order| :: order[i] in env.peers
    ensures after == CheckCompleted(env, before, level, order)
  {
  }

  /** Some order of the levels. */
  ghost method Anyhow(env: Env) returns (order: seq<nat>)
    ensures Visited(order, env.peers.Keys, {})
  {
    order := [];
    var left := env.peers.Keys;
    while left != {}
      invariant Visited(order, env.peers.Keys, left)
      decreases left
    {
      var id: nat :| id in left;
      var one: set<nat> := {id};
      Visit(order, env.peers.Keys, left, id, one);
      left, order := left - one, order + [id];
    }
  }

  /** The struct Handel; lvls is the abstract value of its levels. */
  class Handel {
    const env: Env
    const sig: Point
    const levels: map<nat, Level>
    const store: SigStore
    var sent: seq<Sent>
    var best: Option<MultiSig>
    var done: bool       // the channel of the outputs is closed
    var out: seq<MultiSig>
    var ticking: bool
    ghost var lvls: map<nat, LevelState>

    /** The part of the state of the protocol that the actors and the ticker work on. */
    ghost function View(slots: SlotMap): State
      reads `sent, `best, `done, `out, `lvls
    {
      State(slots, lvls, EMPTY_QUEUE, false, [], None, best, done, out, sent, 0)
    }

    /** The object of level l denotes its abstract state. */
    ghost predicate Denotes(l: nat)
      reads `lvls, levels.Values
    {
      l in levels && l in lvls && levels[l].id == l && lvls[l] == levels[l].View()
    }

    ghost predicate LevelsTied()
      reads `lvls, levels.Values
    {
      levels.Keys == lvls.Keys && forall l | l in levels :: Denotes(l)
    }

    ghost predicate StoreTied()
      reads store, store.frozen, store.indivSigsVerified.Values
    {
      && env.Valid() && env.scheme.Lawful() && sig == env.Own()
      && store.Valid() && store.p == env.p && store.scheme == env.scheme
      && Best(store.slots, 0).Some?
    }

    /** What the store denotes does not depend on the levels or the network. */
    twostate lemma {:induction false} StoreKept()
      requires old(StoreTied())
      requires unchanged(store) && unchanged(store.frozen) && unchanged(store.indivSigsVerified.Values)
      ensures StoreTied() && store.slots == old(store.slots)
    {
    }

    /** What the levels denote does not depend on the store or the network. */
    twostate lemma {:induction false} LevelsKept()
      requires old(LevelsTied())
      requires unchanged(`lvls) && unchanged(levels.Values)
      ensures LevelsTied()
    {
    }

    constructor (env: Env, levels: map<nat, Level>, store: SigStore, ghost lvls: map<nat, LevelState>)
      ensures this.env == env && this.sig == env.Own() && this.levels == levels && this.store == store
      ensures View(store.slots) == State(store.slots, lvls, EMPTY_QUEUE, false, [], None, None, false, [], [], 0)
      ensures ticking
    {
      this.env, this.sig, this.levels, this.store := env, env.Own(), levels, store;
      this.lvls, this.sent, this.out, this.best, this.done := lvls, [], [], None, false;
      this.ticking := true;
    }

    /** The signature to send at a level. */
    method SignatureFor(id: nat) returns (ms: MultiSignature)
      requires StoreTied() && id in env.peers
      ensures fresh(ms.bs) && ms.View() == ToSend(env, store.slots, id)
    {
      assert env.PeersAt(id);
      var r := store.Combined(id - 1);
      ms := r.value;
    }

    /** sendTo: the packet put on the network. */
    method SendTo(lvl: nat, ids: seq<nat>, ms: MultiSig, ind: Option<Point>)
      modifies `sent
      ensures sent == old(sent) + [Packed(env, lvl, ids, ms, ind)]
    {
      var buff := MarshalBinary(env.codec, ms);
      var indBuff := None;
      if ind.Some? {
        indBuff := Some(env.codec.encSig(ind.value));
      }
      sent := sent + [Sent(ids, Packet(env.p.id, lvl, buff, indBuff))];
    }

    /** Selects the next peers of a level. */
    method SelectAt(id: nat, count: nat, ghost card: nat) returns (newNodes: seq<nat>)
      requires LevelsTied() && id in levels && lvls[id].sendPos < |lvls[id].nodes|
      modifies `lvls, levels[id]
      ensures LevelsTied() && lvls == old(lvls)[id := old(lvls)[id].SelectNext(count, card)]
      ensures newNodes == lvls[id].LastPeers(Min(count, |lvls[id].nodes|))
    {
      assert Denotes(id);
      newNodes := levels[id].SelectNextPeers(count, card);
      lvls := lvls[id := lvls[id].SelectNext(count, card)];
      forall k | k in levels ensures Denotes(k) {
        assert old(Denotes(k));
      }
    }

    /** The second half of sendUpdate: selects the peers and sends ms to them. */
    method SendSelected(id: nat, count: nat, ms: MultiSig, ghost before: State)
      requires env.Valid() && sig == env.Own() && LevelsTied() && LevelsOk(env, lvls) && id in levels
      requires before == View(before.slots) && ms == ToSend(env, before.slots, id)
      modifies `sent, `lvls, levels[id]
      ensures LevelsTied() && View(before.slots) == Protocol.SendUpdate(env, before, id, count)
    {
      assert Denotes(id);
      var own := None;
      if !levels[id].rcvCompleted {
        own := Some(sig);
      }
      var newNodes := SelectAt(id, count, |ms.bits|);
      SendTo(id, newNodes, ms, own);
      Sends(env, before, View(before.slots), id, count, newNodes, ms, own, lvls[id]);
    }

    /** sendUpdate */
    method SendUpdate(id: nat, count: nat)
      requires StoreTied() && LevelsTied() && LevelsOk(env, lvls) && id in levels
      modifies `sent, `lvls, levels[id]
      ensures StoreTied() && LevelsTied()
      ensures View(old(store.slots)) == Protocol.SendUpdate(env, old(View(store.slots)), id, count)
    {
      var ms := SignatureFor(id);
      SendSelected(id, count, ms.View(), View(store.slots));
      StoreKept();
    }

    /** setStarted */
    method SetStarted(id: nat)
      requires LevelsTied() && id in levels
      modifies `lvls, levels[id]
      ensures LevelsTied() && lvls == old(lvls)[id := old(lvls)[id].(sendStarted := true)]
    {
      assert Denotes(id);
      levels[id].SetStarted();
      lvls := lvls[id := lvls[id].(sendStarted := true)];
      forall k | k in levels ensures Denotes(k) {
        assert old(Denotes(k));
      }
    }

    /** unsafeStartLevel */
    method StartLevel(id: nat)
      requires StoreTied() && LevelsTied() && LevelsOk(env, lvls) && id in levels
      modifies `sent, `lvls, levels[id]
      ensures StoreTied() && LevelsTied()
      ensures View(old(store.slots)) == Protocol.StartLevel(env, old(View(store.slots)), id)
    {
      assert Denotes(id);
      if levels[id].sendStarted {
        return;
      }
      SetStarted(id);
      StoreKept();
      SendUpdate(id, env.updateCount);
    }

    /** The loop body of periodicUpdate. */
    method TickOne(id: nat)
      requires StoreTied() && LevelsTied() && LevelsOk(env, lvls) && id in levels
      modifies `sent, `lvls, levels[id]
      ensures StoreTied() && LevelsTied()
      ensures View(old(store.slots)) == TickLevel(env, old(View(store.slots)), id)
    {
      assert Denotes(id);
      if levels[id].Active() {
        SendUpdate(id, env.updateCount);
      }
    }

    /** periodicUpdate; the order is the arbitrary one in which the map yields the levels. */
    method PeriodicUpdate() returns (ghost order: seq<nat>)
      requires StoreTied() && LevelsTied() && LevelsOk(env, lvls)
      modifies `sent, `lvls, levels.Values
      ensures StoreTied() && LevelsTied() && Ticked(env, old(View(store.slots)), View(old(store.slots)), order, {})
    {
      ghost var before := View(store.slots);
      var left := levels.Keys;
      order := [];
      TickedStart(env, before);
      assert levels.Keys == env.peers.Keys;
      while left != {}
        invariant Ticked(env, before, View(before.slots), order, left)
        invariant StoreTied() && LevelsTied()
        decreases left
      {
        var id: nat :| id in left;
        var one: set<nat> := {id};
        ghost var was := View(before.slots);
        TickOne(id);
        TickedNext(env, before, was, View(before.slots), order, left, id, one);
        left, order := left - one, order + [id];
      }
    }

    /** updateSigToSend, for a level of this node. */
    method UpdateSigAt(id: nat, card: nat) returns (complete: bool)
      requires LevelsTied() && id in levels
      modifies `lvls, levels[id]
      ensures LevelsTied() && lvls == old(lvls)[id := old(lvls)[id].UpdateSig(card)]
      ensures complete == old(lvls)[id].Completes(card)
    {
      assert Denotes(id);
      complete := levels[id].UpdateSigToSend(card);
      lvls := lvls[id := lvls[id].UpdateSig(card)];
      forall k | k in levels ensures Denotes(k) {
        assert old(Denotes(k));
      }
    }

    /** The loop body of checkCompletedLevel, for an upper level. */
    method RaiseOne(id: nat)
      requires StoreTied() && LevelsTied() && LevelsOk(env, lvls) && id in levels
      modifies `sent, `lvls, levels[id]
      ensures StoreTied() && LevelsTied()
      ensures View(old(store.slots)) == Raise(env, old(View(store.slots)), id)
    {
      ghost var before := View(store.slots);
      var ms := SignatureFor(id);
      UpdateOk(env, lvls, id, ms.bs.Cardinality());
      var complete := UpdateSigAt(id, ms.bs.Cardinality());
      StoreKept();
      if complete {
        SendUpdate(id, env.fastPath);
      }
      RaisedOne(env, before, View(before.slots), id, |ms.View().bits|);
    }

    /** Sets rcvCompleted when the best of the level has one bit for each peer. */
    method SetIfFull(id: nat, card: nat)
      requires LevelsTied() && id in levels
      modifies `lvls, levels[id]
      ensures LevelsTied()
      ensures lvls == if card == |old(lvls)[id].nodes| then old(lvls)[id := old(lvls)[id].(rcvCompleted := true)]
                      else old(lvls)
    {
      assert Denotes(id);
      if card == |levels[id].nodes| {
        levels[id].rcvCompleted := true;
        lvls := lvls[id := lvls[id].(rcvCompleted := true)];
      }
      forall k | k in levels ensures Denotes(k) {
        assert old(Denotes(k));
      }
    }

    /** The receiving phase of checkCompletedLevel. */
    method MarkAt(level: nat)
      requires StoreTied() && LevelsTied() && LevelsOk(env, lvls)
      requires level in levels && Best(store.slots, level).Some?
      modifies `lvls, levels[level]
      ensures StoreTied() && LevelsTied()
      ensures View(old(store.slots)) == MarkCompleted(env, old(View(store.slots)), level)
    {
      assert Denotes(level);
      var sp := store.BestAt(level);
      SetIfFull(level, sp.value.bs.Cardinality());
      StoreKept();
    }

    /** The loop of checkCompletedLevel, in the arbitrary order of the map. */
    method RaiseUpper(level: nat) returns (ghost order: seq<nat>)
      requires StoreTied() && LevelsTied() && LevelsOk(env, lvls)
      modifies `sent, `lvls, levels.Values
      ensures StoreTied() && LevelsTied()
      ensures AllRaised(env, level, old(View(store.slots)), View(old(store.slots)), order, {})
    {
      ghost var before := View(store.slots);
      var left := levels.Keys;
      order := [];
      RaisedStart(env, level, before);
      assert levels.Keys == env.peers.Keys;
      while left != {}
        invariant AllRaised(env, level, before, View(before.slots), order, left)
        invariant StoreTied() && LevelsTied()
        decreases left
      {
        var id: nat :| id in left;
        var one: set<nat> := {id};
        ghost var was := View(before.slots);
        if id >= level + 1 {
          RaiseOne(id);
        }
        RaisedNext(env, level, before, was, View(before.slots), order, left, id, one);
        left, order := left - one, order + [id];
      }
    }

    /** checkCompletedLevel */
    method CheckCompletedLevel(level: nat) returns (ghost order: seq<nat>)
      requires StoreTied() && LevelsTied() && LevelsOk(env, lvls)
      requires level in levels && Best(store.slots, level).Some?
      modifies `sent, `lvls, levels.Values
      ensures StoreTied() && LevelsTied() && Visited(order, env.peers.Keys, {})
      ensures View(old(store.slots)) == CheckCompleted(env, old(View(store.slots)), level, order)
    {
      ghost var before := View(store.slots);
      assert Denotes(level);
      if levels[level].rcvCompleted {
        order := Anyhow(env);
      } else {
        MarkAt(level);
        ghost var marked := View(before.slots);
        order := RaiseUpper(level);
        Checked(env, level, before, marked, View(before.slots), order);
      }
    }

    /** The decision of checkFinalSignature on the full signature; nothing is sent once the channel is closed. */
    method Publish(sig: MultiSig)
      modifies `best, `out
      ensures best == if old(Better(sig)) then Some(sig) else old(best)
      ensures out == if old(Better(sig)) then old(out) + [sig] else old(out)
    {
      if |sig.bits| < env.threshold {
        return;
      }
      if best.None? {
        if !done {
          best, out := Some(sig), out + [sig];
        }
        return;
      }
      var newCard, local := |sig.bits|, |best.value.bits|;
      if newCard > local && !done {
        best, out := Some(sig), out + [sig];
      }
    }

    ghost predicate Better(sig: MultiSig)
      reads `best, `done
    {
      !done && |sig.bits| >= env.threshold && (best.Some? ==> |sig.bits| > |best.value.bits|)
    }

    /** checkFinalSignature */
    method CheckFinalSignature()
      requires StoreTied() && LevelsTied()
      modifies `best, `out
      ensures StoreTied() && LevelsTied() && View(old(store.slots)) == CheckFinal(env, old(View(store.slots)))
    {
      var sig := store.FullSignature();
      Publish(sig.value.View());
      StoreKept();
    }

    /** The actors, run on a signature stored at the given level. */
    method OnVerifiedSignature(level: nat, ghost stored: State) returns (ghost order: seq<nat>)
      requires StoreTied() && LevelsTied() && LevelsOk(env, lvls)
      requires level in levels && Best(store.slots, level).Some? && stored == View(store.slots)
      modifies `sent, `lvls, `best, `out, levels.Values
      ensures StoreTied() && LevelsTied() && Visited(order, env.peers.Keys, {})
      ensures View(stored.slots) == CheckFinal(env, CheckCompleted(env, stored, level, order))
    {
      order := CheckCompletedLevel(level);
      CheckFinalSignature();
    }

    /** Store, for a verified signature of a level of this node. */
    method StoreVerified(v: IncomingSig)
      requires StoreTied() && store.Accepts(v) && v.level > 0
      modifies store, store.indivSigsVerified[v.level]
      ensures StoreTied() && Best(store.slots, v.level).Some?
      ensures store.slots == old(store.slots)[v.level := StoreSlot(env.scheme, old(store.slots)[v.level], old(v.View()))]
    {
      StoreKeeps(env.scheme, env.p.SizeOf(v.level), store.slots[v.level], v.View());
      var n := store.Store(v);
    }

    /** The loop body of rangeOnVerified. */
    method OnVerified(v: IncomingSig) returns (ghost order: seq<nat>)
      requires StoreTied() && LevelsTied() && LevelsOk(env, lvls) && store.Accepts(v) && v.level in levels && v.level > 0
      modifies `sent, `lvls, `best, `out, levels.Values, store, store.indivSigsVerified[v.level]
      ensures StoreTied() && LevelsTied() && Visited(order, env.peers.Keys, {})
      ensures store.slots == old(store.slots)[v.level := StoreSlot(env.scheme, old(store.slots)[v.level], old(v.View()))]
      ensures View(store.slots) == CheckFinal(env, CheckCompleted(env, old(View(store.slots)).(slots := store.slots), v.level, order))
    {
      StoreVerified(v);
      LevelsKept();
      order := OnVerifiedSignature(v.level, View(store.slots));
    }

    /** parseSignatures */
    method ParseSignatures(packet: Packet) returns (r: Option<(Incoming, Option<Incoming>)>)
      requires env.Valid() && packet.level in env.peers
      ensures r == Parse(env, packet)
    {
      var m := Unmarshal(env.codec, packet.multiSig);
      if m.None? {
        return None;
      }
      var size := |env.peers[packet.level]|;
      if m.value.len != size || m.value.bits == {} {
        return None;
      }
      var ms := Incoming(packet.origin, packet.level, m, false, 0);
      if packet.individualSig.None? {
        return Some((ms, None));
      }
      var individual := env.codec.decSig(packet.individualSig.value);
      if individual.None? {
        return None;
      }
      var bs := new BitSet(size);
      var levelIndex := env.p.IndexAtLevel(packet.origin, packet.level);
      if levelIndex.None? {
        return None;
      }
      assert env.PeersAt(packet.level);
      bs.Set(levelIndex.value, true);
      assert bs.bits == {levelIndex.value};
      var msind := MultiSig(size, bs.width, bs.bits, individual.value);
      return Some((ms, Some(Incoming(packet.origin, packet.level, Some(msind), true, levelIndex.value))));
    }

    /** NewPacket */
    method NewPacket(packet: Packet, proc: EvaluatorProcessing)
      requires env.Valid() && LevelsTied() && LevelsOk(env, lvls)
      modifies proc
      ensures var before := View(map[]).(queue := old(proc.View()));
              Receive(env, before, packet) == before.(queue := proc.View())
    {
      if done {
        return;
      }
      if packet.origin < 0 || packet.origin >= env.p.size || packet.level !in levels {
        return;
      }
      assert Denotes(packet.level);
      var r := ParseSignatures(packet);
      if r.Some? && !levels[packet.level].rcvCompleted {
        var (ms, ind) := r.value;
        proc.Add(ms);
        if ind.Some? {
          proc.Add(ind.value);
        }
      }
    }

    /** Stop; closing the channel a second time would panic. */
    method Stop(proc: EvaluatorProcessing)
      requires !done
      modifies proc, `ticking, `done
      ensures done && !ticking && proc.View() == old(proc.View()).Add(PILL)
    {
      ticking := false;
      proc.Add(PILL);
      done := true;
    }
  }

  /** The own signature, as it is stored at level 0. */
  method OwnSignature(env: Env) returns (ind: IncomingSig)
    requires env.Valid()
    ensures fresh(ind.ms.bs) && ind.View() == OwnIncoming(env)
  {
    var firstBs := new BitSet(1);
    firstBs.Set(0, true);
    assert firstBs.bits == {0};
    ind := IncomingSig(env.p.id, 0, MultiSignature(firstBs, env.Own()), true, 0);
  }

  /** The store of a new node, with its own signature. */
  method NewStore(env: Env) returns (r: SigStore)
    requires env.Valid()
    ensures fresh(r) && fresh(r.indivSigsVerified.Values) && r.Valid() && r.p == env.p && r.scheme == env.scheme
    ensures r.slots == Initial(env).slots && Best(r.slots, 0).Some?
  {
    var ind := OwnSignature(env);
    r := new SigStore(env.p, env.scheme);
    EmptyInitial(env, r.slots);
    assert 0 in r.indivSigsVerified && r.indivSigsVerified[0] in r.indivSigsVerified.Values;
    assert r.Accepts(ind);
    var n := r.Store(ind);
  }

  lemma {:induction false} InitialOk(env: Env)
    requires env.Valid() && env.scheme.Lawful()
    ensures LevelsOk(env, Initial(env).lvls)
  {
    InitialLevels(env);
  }

  lemma {:induction false} StartsTied(h: Handel)
    requires h.levels.Keys == h.env.peers.Keys && h.env.Valid() && h.lvls == Initial(h.env).lvls
    requires forall l | l in h.levels :: h.levels[l].View() == InitialLevel(h.env, l)
    ensures h.LevelsTied()
  {
    forall l | l in h.levels ensures h.Denotes(l) {
      assert h.levels[l].View() == InitialLevel(h.env, l);
    }
  }

  lemma {:induction false} StartsStored(h: Handel)
    requires h.env.Valid() && h.env.scheme.Lawful() && h.sig == h.env.Own()
    requires h.store.Valid() && h.store.p == h.env.p && h.store.scheme == h.env.scheme && Best(h.store.slots, 0).Some?
    ensures h.StoreTied()
  {
  }

  lemma {:induction false} StartsInitial(h: Handel, env: Env)
    requires env.Valid() && h.store.slots == Initial(env).slots
    requires h.View(h.store.slots) ==
             State(h.store.slots, Initial(env).lvls, EMPTY_QUEUE, false, [], None, None, false, [], [], 0)
    ensures h.View(h.store.slots) == Initial(env).(replaced := 0)
  {
  }

  /** NewHandel: the own signature is stored at level 0. */
  method NewHandel(env: Env) returns (h: Handel)
    requires env.Valid() && env.scheme.Lawful()
    ensures fresh(h) && fresh(h.levels.Values) && fresh(h.store) && fresh(h.store.indivSigsVerified.Values)
    ensures h.StoreTied() && h.LevelsTied() && h.env == env && h.ticking
    ensures LevelsOk(env, h.lvls) && h.View(h.store.slots) == Initial(env).(replaced := 0)
  {
    var levels := CreateLevels(env);
    var store := NewStore(env);
    h := new Handel(env, levels, store, Initial(env).lvls);
    InitialOk(env);
    StartsStored(h);
    StartsTied(h);
    StartsInitial(h, env);
  }
}
