/** A started level that has nothing larger to announce goes quiet, and has then served every peer. */
module Liveness {
  import opened Numbers
  import opened Combining
  import opened Levels
  import opened Protocol
  import opened Serving
  import opened Runs
  import opened Theorems
  import opened Updates

  /** The events lead from st to end. */
  ghost predicate Path(env: Env, st: State, events: seq<Event>, end: State)
    requires env.Valid()
    decreases |events|
  {
    if events == [] then end == st
    else exists mid: State :: Step(env, st, events[0], mid) && Path(env, mid, events[1..], end)
  }

  function Ticks(events: seq<Event>): nat {
    if events == [] then 0 else (if events[0].Tick? then 1 else 0) + Ticks(events[1..])
  }

  // ----- One step of one level

  /** A level stays started, what it announces only grows, and until then the count of peers contacted only grows. */
  predicate Moves(l: LevelState, next: LevelState) {
    && next.nodes == l.nodes && (l.sendStarted ==> next.sendStarted)
    && l.sendSigSize <= next.sendSigSize
    && (l.sendSigSize == next.sendSigSize ==> l.sendPeersCt <= next.sendPeersCt)
  }

  /** A tick contacts at least one more peer of an active level. */
  predicate Contacts(l: LevelState, next: LevelState) {
    l.Active() ==> next.sendSigSize == l.sendSigSize && l.sendPeersCt < next.sendPeersCt
  }

  lemma {:induction false} AdvancedMoves(l: LevelState, next: LevelState, count: nat)
    requires l.sendPos < |l.nodes| && Advanced(l, next, count)
    ensures Moves(l, next) && (count >= 1 ==> Contacts(l, next))
  {
  }

  lemma {:induction false} RaisedMoves(env: Env, l: LevelState, slots: SlotMap)
    requires env.Valid() && l.id in env.peers && l.sendPos < |l.nodes|
    ensures Moves(l, Raised(env, slots, l))
  {
  }

  lemma {:induction false} TickMoves(env: Env, st: State, n: nat, order: seq<nat>, id: nat)
    requires env.Valid() && env.Trusted() && Reachable(env, st, n) && IsOrder(order, st.lvls) && id in st.lvls
    ensures LevelsOk(env, st.lvls) && forall i | 0 <= i < |order| :: order[i] in env.peers
    ensures var next := Periodic(env, st, order).lvls;
            id in next && Moves(st.lvls[id], next[id]) && (env.updateCount >= 1 ==> Contacts(st.lvls[id], next[id]))
  {
    var sent := TickSends(env, st, n, order);
    var ids := ActiveIn(order, st.lvls);
    assert Ticked(env, ids, st.lvls[id], Periodic(env, st, order).lvls[id]);
    if id in ids {
      AdvancedMoves(st.lvls[id], Periodic(env, st, order).lvls[id], env.updateCount);
    }
  }

  lemma {:induction false} TimeoutMoves(env: Env, st: State, n: nat, level: nat, id: nat)
    requires env.Valid() && env.Trusted() && Reachable(env, st, n) && level in st.lvls && id in st.lvls
    ensures LevelsOk(env, st.lvls)
    ensures var next := StartLevel(env, st, level).lvls; id in next && Moves(st.lvls[id], next[id])
  {
    var m := TimeoutSends(env, st, n, level);
    if id == level && !st.lvls[id].sendStarted {
      AdvancedMoves(st.lvls[id].(sendStarted := true), StartLevel(env, st, level).lvls[id], env.updateCount);
    }
  }

  lemma {:induction false} CheckMoves(env: Env, st: State, level: nat, order: seq<nat>, id: nat)
    requires env.Valid() && LevelsOk(env, st.lvls) && level in st.lvls && IsOrder(order, st.lvls) && id in st.lvls
    requires forall i | 0 <= i < |order| :: order[i] in env.peers
    ensures var next := CheckCompleted(env, st, level, order).lvls; id in next && Moves(st.lvls[id], next[id])
  {
    if !st.lvls[level].rcvCompleted {
      CheckCompletedLevels(env, st, level, order);
      RaisedMoves(env, st.lvls[id], st.slots);
    }
  }

  lemma {:induction false} ActorsMove(env: Env, st: State, n: nat, order: seq<nat>, id: nat)
    requires env.Valid() && env.Trusted() && Reachable(env, st, n) && IsOrder(order, st.lvls) && id in st.lvls && st.pending.Some?
    ensures LevelsOk(env, st.lvls) && st.pending.value.v.level in st.lvls
    ensures var next := ActorsStep(env, st, order).lvls; id in next && Moves(st.lvls[id], next[id])
  {
    Always(env, st, n);
    OrderInPeers(env, st, order);
    StoredKnown(env, st.slots, st.pending.value);
    CheckMoves(env, st, st.pending.value.v.level, order, id);
  }

  /** What a step does to one level. */
  ghost predicate Moved(env: Env, lvls: map<nat, LevelState>, next: map<nat, LevelState>, id: nat, tick: bool) {
    && id in lvls && id in next && Moves(lvls[id], next[id])
    && (tick && env.updateCount >= 1 ==> Contacts(lvls[id], next[id]))
  }

  /** Steps that neither send nor run the actors do not touch the levels. */
  lemma {:induction false} OtherSteps(env: Env, st: State, e: Event, next: State)
    requires env.Valid() && Step(env, st, e, next) && (e.Recv? || e.Process? || e.StoreNext? || e.Stop?)
    ensures next.lvls == st.lvls
  {
  }

  lemma {:induction false} SendingSteps(env: Env, st: State, e: Event, next: State)
    requires env.Valid() && Step(env, st, e, next)
    ensures e.Actors? ==> st.pending.Some? && IsOrder(e.order, st.lvls)
    ensures e.Tick? ==> IsOrder(e.order, st.lvls)
    ensures e.Timeout? ==> e.level in st.lvls
  {
  }

  lemma {:induction false} StepMoves(env: Env, st: State, n: nat, e: Event, next: State, id: nat)
    requires env.Valid() && env.Trusted() && Reachable(env, st, n) && Step(env, st, e, next) && id in st.lvls
    ensures Moved(env, st.lvls, next.lvls, id, e.Tick?)
  {
    SendingSteps(env, st, e, next);
    if e.Actors? {
      ActorsMove(env, st, n, e.order, id);
    } else if e.Tick? {
      TickMoves(env, st, n, e.order, id);
    } else if e.Timeout? {
      TimeoutMoves(env, st, n, e.level, id);
    } else {
      OtherSteps(env, st, e, next);
    }
  }

  // ----- Runs

  /** The state is that of some run. */
  ghost predicate InRun(env: Env, st: State)
    requires env.Valid()
  {
    exists n: nat :: Reachable(env, st, n)
  }

  lemma {:induction false} StepInRun(env: Env, st: State, n: nat, e: Event, next: State)
    requires env.Valid() && Reachable(env, st, n) && Step(env, st, e, next)
    ensures InRun(env, next)
  {
    assert Reachable(env, next, n + 1);
  }

  /** The first step of a path, and the rest. */
  lemma {:induction false} PathStep(env: Env, st: State, events: seq<Event>, end: State, id: nat) returns (mid: State)
    requires env.Valid() && env.Trusted() && InRun(env, st) && Path(env, st, events, end) && events != [] && id in st.lvls
    ensures InRun(env, mid) && Path(env, mid, events[1..], end) && Moved(env, st.lvls, mid.lvls, id, events[0].Tick?)
  {
    var n: nat :| Reachable(env, st, n);
    mid :| Step(env, st, events[0], mid) && Path(env, mid, events[1..], end);
    StepInRun(env, st, n, events[0], mid);
    StepMoves(env, st, n, events[0], mid, id);
  }

  /** While nothing larger is announced, each of the ticks contacts another peer until there is none left. */
  ghost predicate Progressed(env: Env, l: LevelState, end: LevelState, ticks: nat) {
    && Moves(l, end)
    && (env.updateCount >= 1 && l.sendStarted && end.sendSigSize == l.sendSigSize ==>
          end.sendPeersCt >= Min(|l.nodes|, l.sendPeersCt + ticks))
  }

  lemma {:induction false} ProgressNext(env: Env, l: LevelState, mid: LevelState, end: LevelState, tick: bool, ticks: nat)
    requires Moves(l, mid) && (tick && env.updateCount >= 1 ==> Contacts(l, mid)) && Progressed(env, mid, end, ticks)
    ensures Progressed(env, l, end, if tick then ticks + 1 else ticks)
  {
  }

  lemma {:induction false} PathProgress(env: Env, st: State, events: seq<Event>, end: State, id: nat)
    requires env.Valid() && env.Trusted() && InRun(env, st) && Path(env, st, events, end) && id in st.lvls
    ensures InRun(env, end) && id in end.lvls
    ensures Progressed(env, st.lvls[id], end.lvls[id], Ticks(events))
    decreases |events|
  {
    if events != [] {
      var mid := PathStep(env, st, events, end, id);
      PathProgress(env, mid, events[1..], end, id);
      ProgressNext(env, st.lvls[id], mid.lvls[id], end.lvls[id], events[0].Tick?, Ticks(events[1..]));
    }
  }

  lemma {:induction false} AllServed(env: Env, st: State, n: nat, id: nat)
    requires env.Valid() && env.Trusted() && Reachable(env, st, n) && id in st.lvls
    requires st.lvls[id].sendStarted && !st.lvls[id].Active()
    ensures id in env.peers && forall peer | peer in env.peers[id] :: Reads(env, st.sent, id, peer, st.lvls[id].sendSigSize)
  {
    KnownLevel(env, st, n, id);
    forall peer | peer in env.peers[id] ensures Reads(env, st.sent, id, peer, st.lvls[id].sendSigSize) {
      EveryPeerServed(env, st, n, id, peer);
    }
  }

  lemma {:induction false} KnownLevel(env: Env, st: State, n: nat, id: nat)
    requires env.Valid() && env.Trusted() && Reachable(env, st, n) && id in st.lvls
    ensures id in env.peers && st.lvls[id].nodes == env.peers[id]
  {
    Always(env, st, n);
  }

  /**
   * After as many ticks as a started level has peers, and nothing larger to announce, the level has
   * gone quiet, and every peer was sent a packet that reads as at least what the level announces.
   */
  lemma {:induction false} GoesQuiet(env: Env, st: State, n: nat, events: seq<Event>, end: State, id: nat)
    requires env.Valid() && env.Trusted() && env.updateCount >= 1 && Reachable(env, st, n) && Path(env, st, events, end)
    requires id in st.lvls && st.lvls[id].sendStarted && Ticks(events) >= |st.lvls[id].nodes|
    requires id in end.lvls && end.lvls[id].sendSigSize == st.lvls[id].sendSigSize
    ensures end.lvls[id].sendStarted && !end.lvls[id].Active()
    ensures id in env.peers && forall peer | peer in env.peers[id] :: Reads(env, end.sent, id, peer, end.lvls[id].sendSigSize)
  {
    PathProgress(env, st, events, end, id);
    var m: nat :| Reachable(env, end, m);
    AllServed(env, end, m, id);
  }
}
