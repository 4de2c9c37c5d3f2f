/** The final multisignatures sent to the user. */
module Outputs {
  import opened Signatures
  import opened Sets
  import opened Slots
  import opened Combining
  import opened Processing
  import opened Protocol
  import opened Safety
  import opened Pace

  /** The number of contributions of the current full signature. */
  function Total(env: Env, slots: SlotMap): nat
    requires env.Valid()
  {
    CardBelow(slots, env.p.MaxLevel() + 1)
  }

  /** A multisignature over the registry that reaches the threshold and that anybody can verify. */
  ghost predicate Final(env: Env, ms: MultiSig)
    requires env.Valid()
  {
    && ms.Sized(env.p.size)
    && |ms.bits| >= env.threshold
    && VerifiesFull(env.p.reg, env.scheme, ms)
  }

  ghost predicate OutOk(env: Env, out: seq<MultiSig>)
    requires env.Valid()
  {
    && (forall i | 0 <= i < |out| :: Final(env, out[i]))
    && (forall i | 1 <= i < |out| :: |out[i - 1].bits| < |out[i].bits|)
  }

  /** best is the last multisignature sent, and no better than what is held. */
  ghost predicate BestOk(env: Env, slots: SlotMap, best: Option<MultiSig>, out: seq<MultiSig>)
    requires env.Valid()
  {
    && (best.None? <==> out == [])
    && (best.Some? ==> out[|out| - 1] == best.value && |best.value.bits| <= Total(env, slots))
  }

  /** The user has been sent the best there is, if that reaches the threshold. */
  ghost predicate UpToDate(env: Env, slots: SlotMap, best: Option<MultiSig>)
    requires env.Valid()
  {
    Total(env, slots) >= env.threshold ==> best.Some? && |best.value.bits| == Total(env, slots)
  }

  /** Some verified signature from a peer has been stored. */
  ghost predicate Started(env: Env, slots: SlotMap)
    requires env.Valid()
  {
    Touched(slots, env.p.MaxLevel() + 1)
  }

  ghost predicate OutInv(env: Env, synced: SlotMap, st: State)
    requires env.Valid()
  {
    && OutOk(env, st.out)
    && BestOk(env, synced, st.best, st.out)
    && (!st.done && Started(env, synced) ==> UpToDate(env, synced, st.best))
    && (st.best.Some? ==> Started(env, synced))
  }

  /** The full signature covers the registry, counts every contribution held, and is valid. */
  lemma {:induction false} FullGood(env: Env, slots: SlotMap)
    requires env.Valid() && SlotData(env, slots)
    ensures var ms := Full(env.p, env.scheme, slots);
            && ms.Sized(env.p.size)
            && |ms.bits| == Total(env, slots) <= env.p.size
            && VerifiesFull(env.p.reg, env.scheme, ms)
  {
    FullExact(env.p, env.scheme, slots);
    FullSound(env.p, env.scheme, slots);
  }

  lemma {:induction false} OutAppend(env: Env, out: seq<MultiSig>, ms: MultiSig)
    requires env.Valid() && OutOk(env, out) && Final(env, ms)
    requires out != [] ==> |out[|out| - 1].bits| < |ms.bits|
    ensures OutOk(env, out + [ms])
  {
  }

  lemma {:induction false} CheckFinalOut(env: Env, before: SlotMap, st: State)
    requires env.Valid() && SlotData(env, st.slots) && Total(env, before) <= Total(env, st.slots)
    requires OutOk(env, st.out) && BestOk(env, before, st.best, st.out)
    ensures var next := CheckFinal(env, st);
            && OutOk(env, next.out) && BestOk(env, st.slots, next.best, next.out)
            && (!st.done ==> UpToDate(env, st.slots, next.best))
  {
    FullGood(env, st.slots);
    var sig := Full(env.p, env.scheme, st.slots);
    if |sig.bits| >= env.threshold && (st.best.Some? ==> |st.best.value.bits| < |sig.bits|) {
      OutAppend(env, st.out, sig);
    }
  }

  /** A strictly increasing sequence of numbers has no more members than the range it lies in. */
  lemma {:induction false} IncreasingLength(env: Env, out: seq<MultiSig>)
    requires env.Valid() && OutOk(env, out) && out != []
    ensures |out[|out| - 1].bits| >= env.threshold + |out| - 1
  {
    if |out| > 1 {
      var init := out[..|out| - 1];
      IncreasingLength(env, init);
      assert init[|init| - 1] == out[|out| - 2];
    }
  }

  /** No more multisignatures are sent than there are cardinalities from the threshold up. */
  lemma {:induction false} OutBound(env: Env, out: seq<MultiSig>)
    requires env.Valid() && OutOk(env, out)
    ensures out != [] ==> |out| <= env.p.size - env.threshold + 1
  {
    if out != [] {
      IncreasingLength(env, out);
      BelowCard(out[|out| - 1].bits, env.p.size);
    }
  }
}
