/** The sending state keeps pace with the store. */
module Pace {
  import opened Partition
  import opened Combining
  import opened Levels
  import opened Protocol
  import opened Safety

  /** Some level from 1 up and below id has had a signature stored. */
  ghost predicate Touched(slots: SlotMap, id: nat) {
    exists k: nat :: 1 <= k < id && Best(slots, k).Some?
  }

  ghost function SigSize(slots: SlotMap, id: nat): nat {
    if Touched(slots, id) then CardBelow(slots, id) else 0
  }

  /**
   * A level is complete for reception exactly when its best is full; the size last announced
   * for sending is that of the levels below; a level that has everything below it is started;
   * and it was found complete for sending at most once, when it had everything below it.
   */
  ghost predicate LevelPace(p: Partitioner, slots: SlotMap, l: LevelState)
    requires p.Valid()
  {
    && l.sendExpectedFullSize == p.SizeBelow(l.id)
    && (l.rcvCompleted <==> |BestBits(slots, l.id)| == p.SizeOf(l.id))
    && l.sendSigSize == SigSize(slots, l.id)
    && (CardBelow(slots, l.id) == p.SizeBelow(l.id) ==> l.sendStarted)
    && l.completions == (if l.sendSigSize == l.sendExpectedFullSize then 1 else 0)
  }

  ghost predicate LevelInv(p: Partitioner, slots: SlotMap, l: LevelState)
    requires p.Valid()
  {
    l.RingInv() && LevelPace(p, slots, l)
  }

  /** slots came from before by storing something at the given level. */
  ghost predicate GrownAt(before: SlotMap, slots: SlotMap, level: nat) {
    && level >= 1
    && (forall k: nat | k != level :: Best(before, k) == Best(slots, k))
    && Best(slots, level).Some?
    && |BestBits(before, level)| <= |BestBits(slots, level)|
  }

  // ----- Sends

  lemma {:induction false} SendLevel(p: Partitioner, slots: SlotMap, l: LevelState, count: nat, card: nat)
    requires p.Valid() && LevelInv(p, slots, l) && l.Active() && card >= l.sendSigSize
    ensures LevelInv(p, slots, l.SelectNext(count, card))
  {
    l.SelectKeeps(count, card);
  }

  lemma {:induction false} StartedLevel(p: Partitioner, slots: SlotMap, l: LevelState)
    requires p.Valid() && LevelInv(p, slots, l)
    ensures LevelInv(p, slots, l.(sendStarted := true))
    ensures !l.sendStarted ==> l.(sendStarted := true).Active()
  {
    l.WindowFields(l, l.(sendStarted := true));
  }

  // ----- The actors

  lemma {:induction false} LowSame(before: SlotMap, slots: SlotMap, level: nat, id: nat)
    requires GrownAt(before, slots, level) && id <= level
    ensures CardBelow(before, id) == CardBelow(slots, id) && SigSize(before, id) == SigSize(slots, id)
  {
    CardSame(before, slots, id);
    assert forall k: nat | 1 <= k < id :: Best(before, k) == Best(slots, k);
  }

  lemma {:induction false} HighGrows(before: SlotMap, slots: SlotMap, level: nat, id: nat)
    requires GrownAt(before, slots, level) && level < id
    ensures CardBelow(before, id) <= CardBelow(slots, id) && SigSize(slots, id) == CardBelow(slots, id)
    ensures SigSize(before, id) <= CardBelow(before, id)
  {
    forall k: nat ensures |BestBits(before, k)| <= |BestBits(slots, k)| {
      if k != level { assert Best(before, k) == Best(slots, k); }
    }
    CardGrows(before, slots, id);
    assert 1 <= level < id && Best(slots, level).Some?;
  }

  /** checkCompletedLevel leaves the lower levels and the level itself in step with the store. */
  lemma {:induction false} LowPace(p: Partitioner, before: SlotMap, slots: SlotMap, level: nat, l: LevelState)
    requires p.Valid() && GrownAt(before, slots, level) && l.id <= level && LevelInv(p, before, l)
    ensures l.id < level ==> LevelInv(p, slots, l)
    ensures l.id == level ==>
              LevelInv(p, slots, l.(rcvCompleted := |BestBits(slots, level)| == p.SizeOf(level)))
  {
    LowSame(before, slots, level, l.id);
    if l.id < level {
      assert Best(before, l.id) == Best(slots, l.id);
    } else {
      l.WindowFields(l, l.(rcvCompleted := |BestBits(slots, level)| == p.SizeOf(level)));
    }
  }

  lemma {:induction false} UpdatePace(p: Partitioner, before: SlotMap, slots: SlotMap, level: nat, l: LevelState, card: nat)
    requires p.Valid() && GrownAt(before, slots, level) && level < l.id && LevelInv(p, before, l)
    requires 1 <= card == CardBelow(slots, l.id) <= p.SizeBelow(l.id)
    ensures LevelInv(p, slots, l.UpdateSig(card))
    ensures l.Completes(card) ==> l.UpdateSig(card).Active() && card == p.SizeBelow(l.id)
  {
    HighGrows(before, slots, level, l.id);
    assert Best(before, l.id) == Best(slots, l.id);
    l.UpdateKeeps(card);
  }

  /** ... and the upper levels as well, whatever was stored. */
  lemma {:induction false} HighPace(env: Env, before: SlotMap, slots: SlotMap, level: nat, l: LevelState)
    requires env.Valid() && SlotData(env, slots) && GrownAt(before, slots, level) && level < l.id
    requires l.id in env.peers && LevelInv(env.p, before, l)
    ensures LevelInv(env.p, slots, Raised(env, slots, l))
  {
    ToSendCard(env, slots, l.id);
    var card := CardBelow(slots, l.id);
    UpdatePace(env.p, before, slots, level, l, card);
    if l.Completes(card) {
      SendLevel(env.p, slots, l.UpdateSig(card), env.fastPath, card);
    }
  }

  /** Nothing is missed when the level was complete before: its best did not change. */
  lemma {:induction false} CompletePace(p: Partitioner, before: SlotMap, slots: SlotMap, level: nat, l: LevelState)
    requires p.Valid() && GrownAt(before, slots, level) && LevelInv(p, before, l)
    requires Best(before, level).Some? && |BestBits(before, level)| == |BestBits(slots, level)|
    ensures LevelInv(p, slots, l)
  {
    forall k: nat ensures |BestBits(before, k)| == |BestBits(slots, k)| && Best(before, k).Some? == Best(slots, k).Some? {
      if k != level { assert Best(before, k) == Best(slots, k); }
    }
    CardSame(before, slots, l.id);
    assert Touched(before, l.id) == Touched(slots, l.id);
  }
}
