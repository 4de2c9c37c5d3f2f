/** The steps that send: every message fits the peers it goes to, and the levels stay in step. */
module Sending {
  import opened Numbers
  import opened Signatures
  import opened Partition
  import opened Combining
  import opened Wire
  import opened Levels
  import opened Protocol
  import opened Safety
  import opened Pace

  ghost predicate LevelsInv(p: Partitioner, slots: SlotMap, lvls: map<nat, LevelState>)
    requires p.Valid()
  {
    forall id | id in lvls :: LevelInv(p, slots, lvls[id])
  }

  lemma {:induction false} LevelsUpdate(p: Partitioner, slots: SlotMap, lvls: map<nat, LevelState>, l: LevelState)
    requires p.Valid() && LevelsInv(p, slots, lvls) && LevelInv(p, slots, l)
    ensures LevelsInv(p, slots, lvls[l.id := l])
  {
  }

  /** A message carries a multisignature its receivers expect, and at most the own signature beside it. */
  ghost predicate GoodMessage(env: Env, m: Sent)
    requires env.Valid()
  {
    && m.packet.level in env.peers && m.packet.origin == env.p.id
    && (exists ms :: FitsPeers(env, m.packet.level, ms) && m.packet.multiSig == Encode(env.codec, ms))
    && m.packet.individualSig in {None, Some(env.codec.encSig(env.Own()))}
    && (forall i | 0 <= i < |m.to| :: m.to[i] in env.peers[m.packet.level])
  }

  ghost predicate SentOk(env: Env, sent: seq<Sent>)
    requires env.Valid()
  {
    forall i | 0 <= i < |sent| :: GoodMessage(env, sent[i])
  }

  lemma {:induction false} LastPeersInRing(l: LevelState, k: nat)
    requires l.Window() && k <= |l.contacts|
    ensures forall i | 0 <= i < k :: l.LastPeers(k)[i] in l.nodes
  {
    forall i | 0 <= i < k ensures l.LastPeers(k)[i] in l.nodes {
      assert l.contacts[|l.contacts| - (k - i)].peer == l.nodes[l.Back(l.sendPos, k - i)];
    }
  }

  lemma {:induction false} MessageGood(env: Env, slots: SlotMap, l: LevelState, count: nat)
    requires env.Valid() && SlotData(env, slots) && l.id in env.peers && l.nodes == env.peers[l.id]
    requires l.Window() && Min(count, |l.nodes|) <= |l.contacts|
    ensures GoodMessage(env, Message(env, slots, l, count))
  {
    LastPeersInRing(l, Min(count, |l.nodes|));
    ToSendFits(env, slots, l.id);
  }

  lemma {:induction false} SentAppend(env: Env, sent: seq<Sent>, m: Sent)
    requires env.Valid() && SentOk(env, sent) && GoodMessage(env, m)
    ensures SentOk(env, sent + [m])
  {
  }

  // ----- One send

  /** What was announced at a level is no more than what is held below it. */
  ghost predicate Behind(synced: SlotMap, slots: SlotMap) {
    forall id: nat :: CardBelow(synced, id) <= CardBelow(slots, id)
  }

  lemma {:induction false} SendOne(env: Env, synced: SlotMap, slots: SlotMap, l: LevelState, count: nat) returns (next: LevelState)
    requires env.Valid() && SlotData(env, slots) && Behind(synced, slots)
    requires l.id in env.peers && l.nodes == env.peers[l.id] && l.Active() && LevelInv(env.p, synced, l)
    ensures next == l.SelectNext(count, |ToSend(env, slots, l.id).bits|)
    ensures LevelInv(env.p, synced, next)
    ensures Min(count, |l.nodes|) <= |next.contacts| && GoodMessage(env, Message(env, slots, next, count))
  {
    var card := |ToSend(env, slots, l.id).bits|;
    ToSendCard(env, slots, l.id);
    next := l.SelectNext(count, card);
    SendLevel(env.p, synced, l, count, card);
    MessageGood(env, slots, next, count);
  }

  /** What the steps that send rely on, and keep. */
  ghost predicate SendInv(env: Env, synced: SlotMap, st: State) {
    && env.Valid() && LevelsOk(env, st.lvls) && SlotData(env, st.slots) && Behind(synced, st.slots)
    && LevelsInv(env.p, synced, st.lvls) && SentOk(env, st.sent)
  }

  lemma {:induction false} SendKeeps(env: Env, synced: SlotMap, st: State, id: nat, count: nat)
    requires SendInv(env, synced, st) && id in st.lvls && st.lvls[id].Active()
    ensures SendInv(env, synced, SendUpdate(env, st, id, count))
  {
    var l := SendOne(env, synced, st.slots, st.lvls[id], count);
    LevelsUpdate(env.p, synced, st.lvls, l);
    SentAppend(env, st.sent, Message(env, st.slots, l, count));
  }

  lemma {:induction false} TickKeeps(env: Env, synced: SlotMap, st: State, id: nat)
    requires SendInv(env, synced, st) && id in st.lvls
    ensures SendInv(env, synced, TickLevel(env, st, id))
  {
    if st.lvls[id].Active() {
      SendKeeps(env, synced, st, id, env.updateCount);
    }
  }

  lemma {:induction false} PeriodicKeeps(env: Env, synced: SlotMap, st: State, order: seq<nat>)
    requires SendInv(env, synced, st) && forall i | 0 <= i < |order| :: order[i] in env.peers
    ensures SendInv(env, synced, Periodic(env, st, order))
    decreases |order|
  {
    if order == [] {
      assert Periodic(env, st, order) == st;
    } else {
      TickKeeps(env, synced, st, order[0]);
      var st1 := TickLevel(env, st, order[0]);
      assert SendInv(env, synced, st1);
      PeriodicKeeps(env, synced, st1, order[1..]);
      assert Periodic(env, st, order) == Periodic(env, st1, order[1..]);
    }
  }

  lemma {:induction false} SetStartedKeeps(env: Env, synced: SlotMap, st: State, id: nat)
    requires SendInv(env, synced, st) && id in st.lvls
    ensures SendInv(env, synced, SetLevel(st, st.lvls[id].(sendStarted := true)))
  {
    StartedLevel(env.p, synced, st.lvls[id]);
    LevelsUpdate(env.p, synced, st.lvls, st.lvls[id].(sendStarted := true));
  }

  lemma {:induction false} StartKeeps(env: Env, synced: SlotMap, st: State, id: nat)
    requires SendInv(env, synced, st) && id in st.lvls
    ensures SendInv(env, synced, StartLevel(env, st, id))
  {
    var l := st.lvls[id];
    if !l.sendStarted {
      StartedLevel(env.p, synced, l);
      SetStartedKeeps(env, synced, st, id);
      SendKeeps(env, synced, SetLevel(st, l.(sendStarted := true)), id, env.updateCount);
    }
  }

  // ----- The actors

  lemma {:induction false} RaiseOne(env: Env, before: SlotMap, slots: SlotMap, level: nat, l: LevelState)
    requires env.Valid() && SlotData(env, slots) && GrownAt(before, slots, level) && level < l.id
    requires l.id in env.peers && l.nodes == env.peers[l.id] && LevelInv(env.p, before, l)
    ensures l.Completes(|ToSend(env, slots, l.id).bits|) ==>
              Min(env.fastPath, |l.nodes|) <= |Raised(env, slots, l).contacts| &&
              GoodMessage(env, Message(env, slots, Raised(env, slots, l), env.fastPath))
  {
    HighPace(env, before, slots, level, l);
    if l.Completes(|ToSend(env, slots, l.id).bits|) {
      MessageGood(env, slots, Raised(env, slots, l), env.fastPath);
    }
  }

  lemma {:induction false} RaiseIs(env: Env, before: SlotMap, st: State, level: nat, id: nat)
    requires env.Valid() && LevelsOk(env, st.lvls) && SlotData(env, st.slots) && GrownAt(before, st.slots, level)
    requires id in st.lvls && level < id && LevelInv(env.p, before, st.lvls[id]) && SentOk(env, st.sent)
    ensures Raise(env, st, id).lvls == st.lvls[id := Raised(env, st.slots, st.lvls[id])]
    ensures SentOk(env, Raise(env, st, id).sent)
  {
    var l := st.lvls[id];
    RaiseOne(env, before, st.slots, level, l);
    if l.Completes(|ToSend(env, st.slots, id).bits|) {
      SentAppend(env, st.sent, Message(env, st.slots, Raised(env, st.slots, l), env.fastPath));
    }
  }

  ghost predicate Distinct(order: seq<nat>) {
    forall i, j | 0 <= i < j < |order| :: order[i] != order[j]
  }

  /** What the loop over the upper levels makes of one level. */
  function RaisedIf(env: Env, st: State, level: nat, order: seq<nat>, id: nat): LevelState
    requires env.Valid() && LevelsOk(env, st.lvls) && id in st.lvls
  {
    if id in order && id > level then Raised(env, st.slots, st.lvls[id]) else st.lvls[id]
  }

  /** The order in which the levels are visited does not matter to the state of the levels. */
  lemma {:induction false} RaiseAllLevel(env: Env, st: State, level: nat, order: seq<nat>, id: nat)
    requires env.Valid() && LevelsOk(env, st.lvls) && Distinct(order) && id in st.lvls
    requires forall i | 0 <= i < |order| :: order[i] in env.peers
    ensures RaiseAll(env, st, level, order).lvls[id] == RaisedIf(env, st, level, order, id)
    decreases |order|
  {
    if order != [] {
      var first, rest := order[0], order[1..];
      assert first !in rest && order == [first] + rest;
      RaiseAllLevel(env, if first < level + 1 then st else Raise(env, st, first), level, rest, id);
    }
  }

  lemma {:induction false} RaiseAllLevels(env: Env, st: State, level: nat, order: seq<nat>)
    requires env.Valid() && LevelsOk(env, st.lvls) && Distinct(order)
    requires forall i | 0 <= i < |order| :: order[i] in env.peers
    ensures forall id | id in st.lvls ::
              RaiseAll(env, st, level, order).lvls[id] == RaisedIf(env, st, level, order, id)
  {
    forall id | id in st.lvls
      ensures RaiseAll(env, st, level, order).lvls[id] == RaisedIf(env, st, level, order, id)
    {
      RaiseAllLevel(env, st, level, order, id);
    }
  }

  /** The levels still to be visited are as they were before the signature was stored. */
  ghost predicate Waiting(p: Partitioner, before: SlotMap, lvls: map<nat, LevelState>, level: nat, order: seq<nat>)
    requires p.Valid()
  {
    forall id | id in order && id > level && id in lvls :: LevelInv(p, before, lvls[id])
  }

  lemma {:induction false} RaiseAllSent(env: Env, before: SlotMap, st: State, level: nat, order: seq<nat>)
    requires env.Valid() && LevelsOk(env, st.lvls) && SlotData(env, st.slots) && GrownAt(before, st.slots, level)
    requires Distinct(order) && forall i | 0 <= i < |order| :: order[i] in env.peers
    requires Waiting(env.p, before, st.lvls, level, order) && SentOk(env, st.sent)
    ensures SentOk(env, RaiseAll(env, st, level, order).sent)
    decreases |order|
  {
    if order != [] {
      var id, rest := order[0], order[1..];
      assert id !in rest;
      if id > level {
        RaiseIs(env, before, st, level, id);
      }
      RaiseAllSent(env, before, if id < level + 1 then st else Raise(env, st, id), level, rest);
    }
  }
}
