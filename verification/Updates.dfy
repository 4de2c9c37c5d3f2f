/** What the steps that send put on the network: to whom, at which levels, and how it reads. */
module Updates {
  import opened Numbers
  import opened Signatures
  import opened Sets
  import opened Slots
  import opened Combining
  import opened Wire
  import opened Levels
  import opened Protocol
  import opened Safety
  import opened Sending
  import opened Runs
  import opened Theorems

  // ----- The ring of peers

  /** The position i places after pos on a ring of n. */
  function RingPos(pos: nat, i: nat, n: nat): (r: nat)
    requires n > 0
    ensures r < n
  {
    (pos + i) % n
  }

  lemma {:induction false} RingNext(pos: nat, i: nat, n: nat)
    requires n > 0
    ensures RingPos(pos, i + 1, n) == if RingPos(pos, i, n) + 1 >= n then 0 else RingPos(pos, i, n) + 1
  {
    ModNext(pos + i, n);
  }

  lemma {:induction false} RingStart(pos: nat, n: nat)
    requires pos < n
    ensures RingPos(pos, 0, n) == pos
  {
  }

  /** The next peers on the ring, at most as many as there are. */
  function NextPeers(l: LevelState, count: nat): seq<nat>
    requires l.sendPos < |l.nodes|
  {
    seq<nat>(Min(count, |l.nodes|), i requires 0 <= i < Min(count, |l.nodes|) => l.nodes[RingPos(l.sendPos, i, |l.nodes|)])
  }

  lemma {:induction false} ContactRing(l: LevelState, k: nat, card: nat)
    requires l.sendPos < |l.nodes|
    ensures var v := l.ContactMany(k, card);
            && v.sendPos == RingPos(l.sendPos, k, |l.nodes|)
            && forall i | |l.contacts| <= i < |l.contacts| + k ::
                 v.contacts[i].peer == l.nodes[RingPos(l.sendPos, i - |l.contacts|, |l.nodes|)]
  {
    if k > 0 {
      ContactRing(l, k - 1, card);
      RingNext(l.sendPos, k - 1, |l.nodes|);
    } else {
      RingStart(l.sendPos, |l.nodes|);
    }
  }

  /** What a send changes of a level: the position moves on, and the peers contacted are counted. */
  ghost predicate Advanced(l: LevelState, next: LevelState, count: nat)
    requires l.sendPos < |l.nodes|
  {
    && next == l.(sendPos := next.sendPos, sendPeersCt := next.sendPeersCt, contacts := next.contacts)
    && next.sendPos == RingPos(l.sendPos, Min(count, |l.nodes|), |l.nodes|)
    && next.sendPeersCt == l.sendPeersCt + Min(count, |l.nodes|)
  }

  lemma {:induction false} SelectAdvances(l: LevelState, count: nat, card: nat)
    requires l.sendPos < |l.nodes|
    ensures var next := l.SelectNext(count, card);
            Advanced(l, next, count) && next.LastPeers(Min(count, |l.nodes|)) == NextPeers(l, count)
  {
    var k: nat := Min(count, |l.nodes|);
    ContactRing(l, k, card);
    var next := l.SelectNext(count, card);
    forall i | 0 <= i < k ensures next.LastPeers(k)[i] == NextPeers(l, count)[i] {
      assert next.contacts[|l.contacts| + i].peer == l.nodes[RingPos(l.sendPos, i, |l.nodes|)];
    }
  }

  // ----- One update

  /** ms denotes exactly what is held below the level, in a form that the peers of the level expect. */
  ghost predicate HoldsBelow(env: Env, slots: SlotMap, id: nat, ms: MultiSig)
    requires env.Valid() && id in env.peers
  {
    FitsPeers(env, id, ms) && Shift(ms.bits, env.p.InverseOf(id).min) == Held(env.p, slots, id)
  }

  ghost predicate ReadsAs(env: Env, slots: SlotMap, l: LevelState, packet: Packet)
    requires env.Valid() && l.id in env.peers
  {
    packet.origin == env.p.id && packet.level == l.id && ReadsMulti(env, slots, l.id, packet) && OwnBeside(env, l, packet)
  }

  /**
   * The message goes to the next peers on the ring of the level, and reads as all that is held below
   * the level, with the node's own signature as long as the level is not complete.
   */
  ghost predicate Update(env: Env, slots: SlotMap, l: LevelState, count: nat, m: Sent)
    requires env.Valid()
  {
    && l.id in env.peers && l.sendPos < |l.nodes|
    && m.to == NextPeers(l, count) && ReadsAs(env, slots, l, m.packet)
  }

  lemma {:induction false} ToSendHolds(env: Env, slots: SlotMap, id: nat)
    requires env.Valid() && SlotData(env, slots) && id in env.peers
    ensures HoldsBelow(env, slots, id, ToSend(env, slots, id))
  {
    ToSendFits(env, slots, id);
    assert env.PeersAt(id);
    CombinedExact(env.p, env.scheme, slots, id);
  }

  lemma {:induction false} ToSendDecodes(env: Env, slots: SlotMap, id: nat)
    requires env.Valid() && env.codec.Trusted() && SlotData(env, slots) && id in env.peers
    ensures Decode(env.codec, Encode(env.codec, ToSend(env, slots, id))) == Some(ToSend(env, slots, id))
  {
    ToSendSized(env, slots, id);
    RoundTrip(env.codec, ToSend(env, slots, id));
  }

  /** The individual signature beside the multisignature. */
  ghost predicate OwnBeside(env: Env, l: LevelState, packet: Packet) {
    if l.rcvCompleted then packet.individualSig.None?
    else packet.individualSig.Some? && env.codec.decSig(packet.individualSig.value) == Some(env.Own())
  }

  ghost predicate ReadsMulti(env: Env, slots: SlotMap, id: nat, packet: Packet)
    requires env.Valid() && id in env.peers
  {
    Decode(env.codec, packet.multiSig).Some? && HoldsBelow(env, slots, id, Decode(env.codec, packet.multiSig).value)
  }

  lemma {:induction false} MessageMulti(env: Env, slots: SlotMap, l: LevelState, count: nat)
    requires env.Valid() && env.codec.Trusted() && SlotData(env, slots) && l.id in env.peers
    requires Min(count, |l.nodes|) <= |l.contacts|
    ensures ReadsMulti(env, slots, l.id, Message(env, slots, l, count).packet)
  {
    ToSendDecodes(env, slots, l.id);
    ToSendHolds(env, slots, l.id);
  }

  lemma {:induction false} MessageReads(env: Env, slots: SlotMap, l: LevelState, count: nat)
    requires env.Valid() && env.codec.Trusted() && SlotData(env, slots) && l.id in env.peers
    requires Min(count, |l.nodes|) <= |l.contacts|
    ensures ReadsAs(env, slots, l, Message(env, slots, l, count).packet)
  {
    MessageMulti(env, slots, l, count);
    assert env.codec.RestoresSig(env.Own());
    assert OwnBeside(env, l, Message(env, slots, l, count).packet);
  }

  lemma {:induction false} MessageUpdates(env: Env, slots: SlotMap, l: LevelState, count: nat, next: LevelState)
    requires env.Valid() && env.codec.Trusted() && SlotData(env, slots) && l.id in env.peers && l.sendPos < |l.nodes|
    requires next == l.SelectNext(count, |ToSend(env, slots, l.id).bits|)
    ensures Min(count, |next.nodes|) <= |next.contacts| && Update(env, slots, l, count, Message(env, slots, next, count))
    ensures Advanced(l, next, count)
  {
    SelectAdvances(l, count, |ToSend(env, slots, l.id).bits|);
    MessageReads(env, slots, next, count);
  }

  /** From st to next one update was sent at the level, and nothing else has changed. */
  ghost predicate SentOne(env: Env, st: State, next: State, id: nat, count: nat, m: Sent)
    requires env.Valid() && LevelsOk(env, st.lvls)
  {
    && id in st.lvls && next == st.(lvls := next.lvls, sent := next.sent) && LevelsOk(env, next.lvls)
    && next.sent == st.sent + [m] && Update(env, st.slots, st.lvls[id], count, m)
    && id in next.lvls && next.lvls == st.lvls[id := next.lvls[id]] && Advanced(st.lvls[id], next.lvls[id], count)
  }

  /** sendUpdate sends one update at its level and leaves the other levels as they were. */
  lemma {:induction false} SendIs(env: Env, st: State, id: nat, count: nat) returns (m: Sent)
    requires env.Valid() && env.codec.Trusted() && LevelsOk(env, st.lvls) && SlotData(env, st.slots) && id in st.lvls
    ensures SentOne(env, st, SendUpdate(env, st, id, count), id, count, m)
  {
    var next := SendUpdate(env, st, id, count);
    MessageUpdates(env, st.slots, st.lvls[id], count, next.lvls[id]);
    m := Message(env, st.slots, next.lvls[id], count);
  }

  // ----- One update for each of several levels

  ghost predicate UpdateOf(env: Env, slots: SlotMap, lvls: map<nat, LevelState>, ids: set<nat>, count: nat, m: Sent)
    requires env.Valid()
  {
    m.packet.level in ids && m.packet.level in lvls && Update(env, slots, lvls[m.packet.level], count, m)
  }

  ghost predicate SomeAt(sent: seq<Sent>, id: nat) {
    exists i :: 0 <= i < |sent| && sent[i].packet.level == id
  }

  ghost predicate AllUpdates(env: Env, slots: SlotMap, lvls: map<nat, LevelState>, ids: set<nat>, count: nat, sent: seq<Sent>)
    requires env.Valid()
  {
    forall i | 0 <= i < |sent| :: UpdateOf(env, slots, lvls, ids, count, sent[i])
  }

  ghost predicate DistinctLevels(sent: seq<Sent>) {
    forall i, j | 0 <= i < j < |sent| :: sent[i].packet.level != sent[j].packet.level
  }

  ghost predicate SomeAtAll(ids: set<nat>, sent: seq<Sent>) {
    forall id | id in ids :: SomeAt(sent, id)
  }

  /** Exactly one update at each of the levels in ids, and nothing else. */
  ghost predicate OneEach(env: Env, slots: SlotMap, lvls: map<nat, LevelState>, ids: set<nat>, count: nat, sent: seq<Sent>)
    requires env.Valid()
  {
    AllUpdates(env, slots, lvls, ids, count, sent) && DistinctLevels(sent) && SomeAtAll(ids, sent)
  }

  lemma {:induction false} MoreUpdates(env: Env, slots: SlotMap, lvls: map<nat, LevelState>, ids: set<nat>, count: nat, m: Sent,
                                       sent: seq<Sent>, more: set<nat>)
    requires env.Valid() && AllUpdates(env, slots, lvls, ids, count, sent) && ids <= more
    requires UpdateOf(env, slots, lvls, more, count, m)
    ensures AllUpdates(env, slots, lvls, more, count, [m] + sent)
  {
    var all := [m] + sent;
    forall i | 0 <= i < |all| ensures UpdateOf(env, slots, lvls, more, count, all[i]) {
      if i > 0 { assert all[i] == sent[i - 1] && UpdateOf(env, slots, lvls, ids, count, sent[i - 1]); }
    }
  }

  lemma {:induction false} MoreDistinct(m: Sent, sent: seq<Sent>)
    requires DistinctLevels(sent) && forall i | 0 <= i < |sent| :: sent[i].packet.level != m.packet.level
    ensures DistinctLevels([m] + sent)
  {
  }

  lemma {:induction false} MoreSome(ids: set<nat>, m: Sent, sent: seq<Sent>, id: nat, more: set<nat>)
    requires SomeAtAll(ids, sent) && more == ids + {id} && m.packet.level == id
    ensures SomeAtAll(more, [m] + sent)
  {
    var all := [m] + sent;
    forall k | k in more ensures SomeAt(all, k) {
      if k == id {
        assert all[0].packet.level == id;
      } else {
        assert SomeAt(sent, k);
        var i :| 0 <= i < |sent| && sent[i].packet.level == k;
        assert all[i + 1] == sent[i];
      }
    }
  }

  lemma {:induction false} OneMore(env: Env, slots: SlotMap, lvls: map<nat, LevelState>, id: nat, ids: set<nat>, count: nat,
                                   m: Sent, sent: seq<Sent>, more: set<nat>)
    requires env.Valid() && OneEach(env, slots, lvls, ids, count, sent) && id !in ids && more == ids + {id}
    requires id in lvls && lvls[id].id == id && Update(env, slots, lvls[id], count, m)
    ensures OneEach(env, slots, lvls, more, count, [m] + sent)
  {
    MoreUpdates(env, slots, lvls, ids, count, m, sent, more);
    forall i | 0 <= i < |sent| ensures sent[i].packet.level != m.packet.level {
      assert UpdateOf(env, slots, lvls, ids, count, sent[i]);
    }
    MoreDistinct(m, sent);
    MoreSome(ids, m, sent, id, more);
  }

  /** Levels that are not concerned do not matter. */
  lemma {:induction false} OneEachSame(env: Env, slots: SlotMap, lvls: map<nat, LevelState>, ids: set<nat>, count: nat,
                                       sent: seq<Sent>, now: map<nat, LevelState>)
    requires env.Valid() && OneEach(env, slots, lvls, ids, count, sent)
    requires forall id | id in ids :: id in lvls && id in now && now[id] == lvls[id]
    ensures OneEach(env, slots, now, ids, count, sent)
  {
    forall i | 0 <= i < |sent| ensures UpdateOf(env, slots, now, ids, count, sent[i]) {
      assert UpdateOf(env, slots, lvls, ids, count, sent[i]);
    }
  }

  /** The level first served, and the others as they are after that. */
  lemma {:induction false} FirstEach(env: Env, slots: SlotMap, lvls: map<nat, LevelState>, id: nat, count: nat, m: Sent,
                                     lvls1: map<nat, LevelState>, ids: set<nat>, rest: seq<Sent>, more: set<nat>)
    requires env.Valid() && id in lvls && lvls[id].id == id && Update(env, slots, lvls[id], count, m)
    requires (forall k | k in ids :: k in lvls && k in lvls1 && lvls1[k] == lvls[k]) && id !in ids && more == ids + {id}
    requires OneEach(env, slots, lvls1, ids, count, rest)
    ensures OneEach(env, slots, lvls, more, count, [m] + rest)
  {
    OneEachSame(env, slots, lvls1, ids, count, rest, lvls);
    OneMore(env, slots, lvls, id, ids, count, m, rest, more);
  }

  lemma {:induction false} Concat(before: seq<Sent>, m: Sent, rest: seq<Sent>)
    ensures before + [m] + rest == before + ([m] + rest)
  {
  }

  // ----- Ticks

  /** The levels of the list that are started and have peers left to contact. */
  function ActiveIn(order: seq<nat>, lvls: map<nat, LevelState>): set<nat> {
    set id | id in order && id in lvls && lvls[id].sendStarted && lvls[id].sendPeersCt < |lvls[id].nodes|
  }

  /** One level after a tick. */
  ghost predicate Ticked(env: Env, ids: set<nat>, l: LevelState, next: LevelState)
    requires l.sendPos < |l.nodes|
  {
    if l.id in ids then Advanced(l, next, env.updateCount) else next == l
  }

  ghost predicate AllTicked(env: Env, ids: set<nat>, lvls: map<nat, LevelState>, next: map<nat, LevelState>)
    requires LevelsOk(env, lvls)
  {
    forall id | id in lvls :: id in next && Ticked(env, ids, lvls[id], next[id])
  }

  lemma {:induction false} ActiveFirst(order: seq<nat>, lvls: map<nat, LevelState>, next: map<nat, LevelState>)
    requires order != [] && Distinct(order) && order[0] in lvls
    requires forall id | id in lvls && id != order[0] :: id in next && next[id] == lvls[id]
    requires next.Keys == lvls.Keys
    ensures order[0] !in ActiveIn(order[1..], next)
    ensures ActiveIn(order, lvls) == ActiveIn(order[1..], next) + (if lvls[order[0]].Active() then {order[0]} else {})
  {
    var first, rest := order[0], order[1..];
    assert first !in rest && order == [first] + rest;
  }

  /** From st to next exactly one update was sent at each active level of the list, and those levels advanced. */
  ghost predicate TickResult(env: Env, st: State, order: seq<nat>, next: State, sent: seq<Sent>)
    requires env.Valid() && LevelsOk(env, st.lvls)
  {
    && next.sent == st.sent + sent
    && OneEach(env, st.slots, st.lvls, ActiveIn(order, st.lvls), env.updateCount, sent)
    && AllTicked(env, ActiveIn(order, st.lvls), st.lvls, next.lvls)
  }

  lemma {:induction false} TickFirst(env: Env, st: State, st1: State, order: seq<nat>, m: Sent, next: State, rest: seq<Sent>)
    requires env.Valid() && LevelsOk(env, st.lvls) && order != [] && Distinct(order)
    requires order[0] in st.lvls && st.lvls[order[0]].Active() && SentOne(env, st, st1, order[0], env.updateCount, m)
    requires TickResult(env, st1, order[1..], next, rest)
    ensures TickResult(env, st, order, next, [m] + rest)
  {
    var id, ids := order[0], ActiveIn(order[1..], st1.lvls);
    ActiveFirst(order, st.lvls, st1.lvls);
    Concat(st.sent, m, rest);
    FirstEach(env, st.slots, st.lvls, id, env.updateCount, m, st1.lvls, ids, rest, ActiveIn(order, st.lvls));
    TickedStep(env, st, st1, id, order, next.lvls);
  }

  lemma {:induction false} TickSkip(env: Env, st: State, order: seq<nat>, next: State, rest: seq<Sent>)
    requires env.Valid() && LevelsOk(env, st.lvls) && order != [] && Distinct(order)
    requires order[0] in st.lvls && !st.lvls[order[0]].Active() && TickResult(env, st, order[1..], next, rest)
    ensures TickResult(env, st, order, next, rest)
  {
    ActiveFirst(order, st.lvls, st.lvls);
    assert ActiveIn(order, st.lvls) == ActiveIn(order[1..], st.lvls);
  }

  lemma {:induction false} TickNone(env: Env, st: State)
    requires env.Valid() && LevelsOk(env, st.lvls)
    ensures TickResult(env, st, [], st, [])
  {
  }

  /** periodicUpdate sends exactly one update at each active level of the list. */
  lemma {:induction false} PeriodicSends(env: Env, st: State, order: seq<nat>) returns (sent: seq<Sent>)
    requires env.Valid() && env.codec.Trusted() && LevelsOk(env, st.lvls) && SlotData(env, st.slots)
    requires Distinct(order) && forall i | 0 <= i < |order| :: order[i] in env.peers
    ensures TickResult(env, st, order, Periodic(env, st, order), sent)
    decreases |order|
  {
    if order == [] {
      sent := [];
      TickNone(env, st);
    } else {
      var st1 := TickLevel(env, st, order[0]);
      var rest := PeriodicSends(env, st1, order[1..]);
      var next := Periodic(env, st1, order[1..]);
      assert Periodic(env, st, order) == next;
      sent := TickThen(env, st, st1, order, next, rest);
    }
  }

  lemma {:induction false} TickThen(env: Env, st: State, st1: State, order: seq<nat>, next: State, rest: seq<Sent>)
    returns (sent: seq<Sent>)
    requires env.Valid() && env.codec.Trusted() && LevelsOk(env, st.lvls) && SlotData(env, st.slots)
    requires order != [] && Distinct(order) && order[0] in st.lvls && st1 == TickLevel(env, st, order[0])
    requires TickResult(env, st1, order[1..], next, rest)
    ensures TickResult(env, st, order, next, sent)
  {
    if st.lvls[order[0]].Active() {
      var m := SendIs(env, st, order[0], env.updateCount);
      TickFirst(env, st, st1, order, m, next, rest);
      sent := [m] + rest;
    } else {
      TickSkip(env, st, order, next, rest);
      sent := rest;
    }
  }

  lemma {:induction false} TickedStep(env: Env, st: State, st1: State, id: nat, order: seq<nat>, next: map<nat, LevelState>)
    requires LevelsOk(env, st.lvls) && LevelsOk(env, st1.lvls) && id in st.lvls && order != [] && order[0] == id
    requires st1.lvls == st.lvls[id := st1.lvls[id]] && Advanced(st.lvls[id], st1.lvls[id], env.updateCount)
    requires ActiveIn(order, st.lvls) == ActiveIn(order[1..], st1.lvls) + {id} && id !in ActiveIn(order[1..], st1.lvls)
    requires AllTicked(env, ActiveIn(order[1..], st1.lvls), st1.lvls, next)
    ensures AllTicked(env, ActiveIn(order, st.lvls), st.lvls, next)
  {
    forall k | k in st.lvls ensures k in next && Ticked(env, ActiveIn(order, st.lvls), st.lvls[k], next[k]) {
      assert Ticked(env, ActiveIn(order[1..], st1.lvls), st1.lvls[k], next[k]);
    }
  }

  /** In every run a tick sends exactly one update at each active level, and advances exactly those. */
  lemma {:induction false} TickSends(env: Env, st: State, n: nat, order: seq<nat>) returns (sent: seq<Sent>)
    requires env.Valid() && env.Trusted() && Reachable(env, st, n) && IsOrder(order, st.lvls)
    ensures LevelsOk(env, st.lvls) && forall i | 0 <= i < |order| :: order[i] in env.peers
    ensures TickResult(env, st, order, Periodic(env, st, order), sent)
    ensures forall id | id in st.lvls :: id in ActiveIn(order, st.lvls) <==> st.lvls[id].Active()
  {
    Always(env, st, n);
    OrderInPeers(env, st, order);
    sent := PeriodicSends(env, st, order);
  }

  // ----- Timeouts

  /** The level is started, with one update when it was not started before. */
  ghost predicate TimeoutResult(env: Env, st: State, id: nat, next: State, m: Sent)
    requires env.Valid() && LevelsOk(env, st.lvls) && id in st.lvls
  {
    if st.lvls[id].sendStarted then next == st
    else
      && next.sent == st.sent + [m] && Update(env, st.slots, st.lvls[id], env.updateCount, m)
      && id in next.lvls && next.lvls == st.lvls[id := next.lvls[id]] && next.lvls[id].sendStarted
      && Advanced(st.lvls[id].(sendStarted := true), next.lvls[id], env.updateCount)
  }

  lemma {:induction false} StartLevelOk(env: Env, lvls: map<nat, LevelState>, id: nat)
    requires LevelsOk(env, lvls) && id in lvls
    ensures LevelsOk(env, lvls[id := lvls[id].(sendStarted := true)])
  {
  }

  lemma {:induction false} StartSends(env: Env, st: State, id: nat) returns (m: Sent)
    requires env.Valid() && env.codec.Trusted() && LevelsOk(env, st.lvls) && SlotData(env, st.slots) && id in st.lvls
    ensures TimeoutResult(env, st, id, StartLevel(env, st, id), m)
  {
    m := Sent([], Packet(0, 0, [], None));
    if !st.lvls[id].sendStarted {
      var l := st.lvls[id].(sendStarted := true);
      StartLevelOk(env, st.lvls, id);
      m := SendIs(env, SetLevel(st, l), id, env.updateCount);
      UpdateSame(env, st.slots, l, st.lvls[id], env.updateCount, m);
      StartedOne(env, st, id, SetLevel(st, l), StartLevel(env, st, id), m);
    }
  }

  lemma {:induction false} StartedOne(env: Env, st: State, id: nat, started: State, next: State, m: Sent)
    requires env.Valid() && LevelsOk(env, st.lvls) && id in st.lvls && !st.lvls[id].sendStarted && LevelsOk(env, started.lvls)
    requires started == st.(lvls := st.lvls[id := st.lvls[id].(sendStarted := true)])
    requires SentOne(env, started, next, id, env.updateCount, m) && Update(env, st.slots, st.lvls[id], env.updateCount, m)
    ensures TimeoutResult(env, st, id, next, m)
  {
  }

  /** In every run a timeout starts its level, with one update, and does nothing when it was started before. */
  lemma {:induction false} TimeoutSends(env: Env, st: State, n: nat, id: nat) returns (m: Sent)
    requires env.Valid() && env.Trusted() && Reachable(env, st, n) && id in st.lvls
    ensures LevelsOk(env, st.lvls) && TimeoutResult(env, st, id, StartLevel(env, st, id), m)
  {
    Always(env, st, n);
    m := StartSends(env, st, id);
  }

  lemma {:induction false} UpdateSame(env: Env, slots: SlotMap, l: LevelState, other: LevelState, count: nat, m: Sent)
    requires env.Valid() && Update(env, slots, l, count, m)
    requires other.id == l.id && other.nodes == l.nodes && other.sendPos == l.sendPos && other.rcvCompleted == l.rcvCompleted
    ensures Update(env, slots, other, count, m)
  {
    assert NextPeers(other, count) == NextPeers(l, count);
  }

  // ----- The fast path

  /** Everything below the level is held, and that has not been announced. */
  predicate Ready(env: Env, slots: SlotMap, l: LevelState)
    requires env.Valid()
  {
    l.sendSigSize < CardBelow(slots, l.id) == l.sendExpectedFullSize
  }

  function ReadyIn(env: Env, slots: SlotMap, level: nat, order: seq<nat>, lvls: map<nat, LevelState>): set<nat>
    requires env.Valid()
  {
    set id | id in order && id in lvls && id > level && Ready(env, slots, lvls[id])
  }

  lemma {:induction false} RaisedUpdates(env: Env, slots: SlotMap, l: LevelState)
    requires env.Valid() && env.codec.Trusted() && SlotData(env, slots) && l.id in env.peers && l.sendPos < |l.nodes|
    ensures Ready(env, slots, l) <==> l.Completes(|ToSend(env, slots, l.id).bits|)
    ensures Ready(env, slots, l) ==>
              var next := Raised(env, slots, l);
              Min(env.fastPath, |next.nodes|) <= |next.contacts| &&
              Update(env, slots, l, env.fastPath, Message(env, slots, next, env.fastPath))
  {
    ToSendCard(env, slots, l.id);
    if Ready(env, slots, l) {
      var u, next := l.UpdateSig(CardBelow(slots, l.id)), Raised(env, slots, l);
      MessageUpdates(env, slots, u, env.fastPath, next);
      UpdateSame(env, slots, u, l, env.fastPath, Message(env, slots, next, env.fastPath));
    }
  }

  lemma {:induction false} ReadyFirst(env: Env, slots: SlotMap, level: nat, order: seq<nat>, lvls: map<nat, LevelState>,
                                      next: map<nat, LevelState>)
    requires env.Valid() && order != [] && Distinct(order) && order[0] in lvls
    requires forall id | id in lvls && id != order[0] :: id in next && next[id] == lvls[id]
    requires next.Keys == lvls.Keys
    ensures order[0] !in ReadyIn(env, slots, level, order[1..], next)
    ensures ReadyIn(env, slots, level, order, lvls) ==
            ReadyIn(env, slots, level, order[1..], next) +
            if order[0] > level && Ready(env, slots, lvls[order[0]]) then {order[0]} else {}
  {
    var first, rest := order[0], order[1..];
    assert first !in rest && order == [first] + rest;
  }

  /** From st to next exactly one update was sent at each upper level of the list that has become ready. */
  ghost predicate RaiseResult(env: Env, st: State, level: nat, order: seq<nat>, next: State, sent: seq<Sent>)
    requires env.Valid()
  {
    && next.sent == st.sent + sent
    && OneEach(env, st.slots, st.lvls, ReadyIn(env, st.slots, level, order, st.lvls), env.fastPath, sent)
  }

  ghost predicate ReadyNow(env: Env, slots: SlotMap, level: nat, l: LevelState)
    requires env.Valid()
  {
    l.id > level && Ready(env, slots, l)
  }

  lemma {:induction false} RaiseFirst(env: Env, st: State, st1: State, level: nat, order: seq<nat>, m: Sent, next: State,
                                      rest: seq<Sent>)
    requires env.Valid() && LevelsOk(env, st.lvls) && order != [] && Distinct(order) && order[0] in st.lvls
    requires order[0] in st1.lvls && st1.slots == st.slots && st1.lvls == st.lvls[order[0] := st1.lvls[order[0]]]
    requires ReadyNow(env, st.slots, level, st.lvls[order[0]]) && Update(env, st.slots, st.lvls[order[0]], env.fastPath, m)
    requires st1.sent == st.sent + [m] && RaiseResult(env, st1, level, order[1..], next, rest)
    ensures RaiseResult(env, st, level, order, next, [m] + rest)
  {
    var id, ids := order[0], ReadyIn(env, st.slots, level, order[1..], st1.lvls);
    ReadyFirst(env, st.slots, level, order, st.lvls, st1.lvls);
    Concat(st.sent, m, rest);
    FirstEach(env, st.slots, st.lvls, id, env.fastPath, m, st1.lvls, ids, rest, ReadyIn(env, st.slots, level, order, st.lvls));
  }

  lemma {:induction false} RaiseSkip(env: Env, st: State, st1: State, level: nat, order: seq<nat>, next: State, rest: seq<Sent>)
    requires env.Valid() && LevelsOk(env, st.lvls) && order != [] && Distinct(order) && order[0] in st.lvls
    requires order[0] in st1.lvls && st1.slots == st.slots && st1.lvls == st.lvls[order[0] := st1.lvls[order[0]]]
    requires !ReadyNow(env, st.slots, level, st.lvls[order[0]])
    requires st1.sent == st.sent && RaiseResult(env, st1, level, order[1..], next, rest)
    ensures RaiseResult(env, st, level, order, next, rest)
  {
    var ids := ReadyIn(env, st.slots, level, order[1..], st1.lvls);
    ReadyFirst(env, st.slots, level, order, st.lvls, st1.lvls);
    assert ids == ReadyIn(env, st.slots, level, order, st.lvls);
    OneEachSame(env, st.slots, st1.lvls, ids, env.fastPath, rest, st.lvls);
  }

  lemma {:induction false} RaiseNone(env: Env, st: State, level: nat)
    requires env.Valid()
    ensures RaiseResult(env, st, level, [], st, [])
  {
  }

  /** One round of the loop over the upper levels. */
  lemma {:induction false} RaiseSends(env: Env, st: State, id: nat) returns (m: Sent)
    requires env.Valid() && env.codec.Trusted() && LevelsOk(env, st.lvls) && SlotData(env, st.slots) && id in st.lvls
    ensures Ready(env, st.slots, st.lvls[id]) ==> Update(env, st.slots, st.lvls[id], env.fastPath, m)
    ensures Raise(env, st, id).sent == if Ready(env, st.slots, st.lvls[id]) then st.sent + [m] else st.sent
    ensures Raise(env, st, id).lvls == st.lvls[id := Raise(env, st, id).lvls[id]]
  {
    RaisedUpdates(env, st.slots, st.lvls[id]);
    m := Sent([], Packet(0, 0, [], None));
    if Ready(env, st.slots, st.lvls[id]) {
      m := Message(env, st.slots, Raised(env, st.slots, st.lvls[id]), env.fastPath);
    }
  }

  lemma {:induction false} RaiseAllSends(env: Env, st: State, level: nat, order: seq<nat>) returns (sent: seq<Sent>)
    requires env.Valid() && env.codec.Trusted() && LevelsOk(env, st.lvls) && SlotData(env, st.slots)
    requires Distinct(order) && forall i | 0 <= i < |order| :: order[i] in env.peers
    ensures RaiseResult(env, st, level, order, RaiseAll(env, st, level, order), sent)
    decreases |order|
  {
    if order == [] {
      sent := [];
      RaiseNone(env, st, level);
    } else if order[0] < level + 1 {
      sent := RaiseAllSends(env, st, level, order[1..]);
      RaiseSkip(env, st, st, level, order, RaiseAll(env, st, level, order[1..]), sent);
    } else {
      var st1 := Raise(env, st, order[0]);
      var m := RaiseSends(env, st, order[0]);
      sent := RaiseAllSends(env, st1, level, order[1..]);
      var next := RaiseAll(env, st1, level, order[1..]);
      if Ready(env, st.slots, st.lvls[order[0]]) {
        RaiseFirst(env, st, st1, level, order, m, next, sent);
        sent := [m] + sent;
      } else {
        RaiseSkip(env, st, st1, level, order, next, sent);
      }
    }
  }

  lemma {:induction false} MarkedReady(env: Env, st: State, level: nat, order: seq<nat>, next: State, sent: seq<Sent>)
    requires env.Valid() && LevelsOk(env, st.lvls) && level in st.lvls
    requires RaiseResult(env, MarkCompleted(env, st, level), level, order, next, sent)
    ensures RaiseResult(env, st, level, order, next, sent)
  {
    var marked := MarkCompleted(env, st, level);
    var ids := ReadyIn(env, st.slots, level, order, st.lvls);
    assert ids == ReadyIn(env, st.slots, level, order, marked.lvls);
    OneEachSame(env, st.slots, marked.lvls, ids, env.fastPath, sent, st.lvls);
  }

  lemma {:induction false} CheckSends(env: Env, st: State, level: nat, order: seq<nat>) returns (sent: seq<Sent>)
    requires env.Valid() && env.codec.Trusted() && LevelsOk(env, st.lvls) && SlotData(env, st.slots) && level in st.lvls
    requires Distinct(order) && forall i | 0 <= i < |order| :: order[i] in env.peers
    ensures if st.lvls[level].rcvCompleted then CheckCompleted(env, st, level, order) == st && sent == []
            else RaiseResult(env, st, level, order, CheckCompleted(env, st, level, order), sent)
  {
    sent := [];
    if !st.lvls[level].rcvCompleted {
      var marked := MarkCompleted(env, st, level);
      sent := RaiseAllSends(env, marked, level, order);
      MarkedReady(env, st, level, order, RaiseAll(env, marked, level, order), sent);
    }
  }

  /** What the actors send when they run on a signature stored at the given level. */
  ghost predicate ActorsResult(env: Env, st: State, level: nat, order: seq<nat>, next: State, sent: seq<Sent>)
    requires env.Valid() && level in st.lvls
  {
    if st.lvls[level].rcvCompleted then next.sent == st.sent else RaiseResult(env, st, level, order, next, sent)
  }

  lemma {:induction false} FinalSendsNothing(env: Env, st: State, level: nat, order: seq<nat>, next: State, sent: seq<Sent>)
    requires env.Valid() && level in st.lvls && ActorsResult(env, st, level, order, next, sent)
    ensures ActorsResult(env, st, level, order, CheckFinal(env, next).(pending := None), sent)
  {
  }

  /**
   * In every run the actors send exactly one update at each upper level for which everything below
   * it is held for the first time, and nothing when the level stored at was complete before.
   */
  lemma {:induction false} ActorsSend(env: Env, st: State, n: nat, order: seq<nat>) returns (sent: seq<Sent>)
    requires env.Valid() && env.Trusted() && Reachable(env, st, n) && st.pending.Some? && IsOrder(order, st.lvls)
    ensures LevelsOk(env, st.lvls) && st.pending.value.v.level in st.lvls
    ensures ActorsResult(env, st, st.pending.value.v.level, order, ActorsStep(env, st, order), sent)
  {
    Always(env, st, n);
    OrderInPeers(env, st, order);
    StoredKnown(env, st.slots, st.pending.value);
    var level := st.pending.value.v.level;
    sent := CheckSends(env, st, level, order);
    FinalSendsNothing(env, st, level, order, CheckCompleted(env, st, level, order), sent);
  }

  /** Only ticks, timeouts and the actors send, and only the actors give anything to the user. */
  lemma {:induction false} OthersSendNothing(env: Env, st: State, e: Event, next: State)
    requires env.Valid() && Step(env, st, e, next)
    ensures !(e.Tick? || e.Timeout? || e.Actors?) ==> next.sent == st.sent
    ensures !e.Actors? ==> next.out == st.out && next.best == st.best
  {
  }

  /** A best changes only when a signature is stored, for its level; that is what the replacements count. */
  lemma {:induction false} ReplacementsCounted(env: Env, st: State, e: Event, next: State)
    requires env.Valid() && Step(env, st, e, next)
    ensures !e.StoreNext? ==> next.slots == st.slots && next.replaced == st.replaced
    ensures e.StoreNext? ==> st.verified != [] && StoredOne(st, st.verified[0].level, next)
  {
  }

  /** Only the best of the level may have changed, which is counted. */
  ghost predicate StoredOne(st: State, level: nat, next: State) {
    && (forall k | k != level :: Best(next.slots, k) == Best(st.slots, k))
    && next.replaced - st.replaced == if Best(next.slots, level) == Best(st.slots, level) then 0 else 1
  }

  /** The verified signatures are stored one by one, in the order in which they were passed on. */
  lemma {:induction false} StoredInOrder(env: Env, st: State, e: Event, next: State)
    requires env.Valid() && Step(env, st, e, next) && e.StoreNext?
    ensures next.pending.Some? && next.pending.value.before == st.slots
    ensures st.verified == [next.pending.value.v] + next.verified
  {
  }
}
