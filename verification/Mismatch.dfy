/**
 * What a packet can do that announces another length than that of the bit vector it carries:
 * bitset.go:166-177 takes the one from a prefix and decodes the other, and nothing compares them.
 * Parsing and verification look at the length announced; the store counts all bits of the vector,
 * and Or and Clone announce the length of the vector from there on.
 */
module Mismatch {
  import opened Numbers
  import opened Signatures
  import opened Sets
  import opened Partition
  import opened Slots
  import opened Combining
  import opened Assembly
  import opened Wire
  import opened Processing
  import opened Protocol

  /** Node 4 of 8, whose level 3 is made of the nodes 0 to 3. */
  ghost predicate FourOfEight(env: Env) {
    env.Valid() && env.Trusted() && env.p.size == 8 && env.p.id == 4
  }

  lemma {:induction false} LevelThree(p: Partitioner)
    requires p.Valid() && p.size == 8 && p.id == 4
    ensures p.MaxLevel() == 3 && p.RangeOf(3) == Range(0, 4) && p.RangeOf(0) == Range(4, 5)
  {
    assert Pow2(2) == 4 && Pow2(3) == 8;
    assert Log2(8) == 3 by { assert Log2(4) == 2 by { assert Log2(2) == 1; } }
    assert Shr(4, 2) == 1 by { assert Shr(4, 1) == 2; }
    StartZero(2);
  }

  /** A level 3 packet of node 0, with its signature. */
  function Packed(env: Env, ms: MultiSig): Packet {
    Packet(0, 3, Encode(env.codec, ms), None)
  }

  /** Length 4 is announced, the vector has the given length, and bits beyond the level are set. */
  function Misfit(env: Env, width: nat, beyond: set<nat>): MultiSig {
    MultiSig(4, width, {0} + beyond, env.p.reg.Key(env.scheme, 0))
  }

  function Entry(origin: int, ms: MultiSig): Incoming {
    Incoming(origin, 3, Some(ms), false, 0)
  }

  lemma {:induction false} KeyAlone(env: Env, i: nat)
    requires FourOfEight(env) && i < 4
    ensures KeysAt(env.p, env.scheme, 3).Genuine({i}) == env.p.reg.Key(env.scheme, i)
  {
    var key := (j: nat) => env.p.reg.Key(env.scheme, j);
    LevelThree(env.p);
    assert Shift({i}, 0) == {} + {i};
    env.scheme.SumInsert(key, {}, i, 8);
    env.scheme.SumExtend(key, {}, 0, 8);
    assert env.scheme.Laws(env.scheme.zero, key(i), key(i)) && env.scheme.Laws(key(i), env.scheme.zero, key(i));
  }

  /** It is parsed and verified. */
  lemma {:induction false} MisfitAccepted(env: Env, width: nat, beyond: set<nat>)
    requires FourOfEight(env) && 4 < width <= 65535 && forall j | j in beyond :: 4 <= j < width
    ensures 3 in env.peers && |env.peers[3]| == 4
    ensures var ms := Misfit(env, width, beyond);
            && !Announced(env.codec, Packed(env, ms).multiSig)
            && Parse(env, Packed(env, ms)) == Some((Entry(0, ms), None))
            && Verifies(env.p, env.scheme, Entry(0, ms))
  {
    var ms := Misfit(env, width, beyond);
    LevelThree(env.p);
    assert env.PeersAt(3);
    RoundTrip(env.codec, ms);
    assert KeysAt(env.p, env.scheme, 3).UptoOf(ms.bits, 4) == {0};
    KeyAlone(env, 0);
  }

  lemma {:induction false} ThreeEmpty(env: Env)
    requires FourOfEight(env)
    ensures 3 in Initial(env).slots && Initial(env).slots[3] == EMPTY
    ensures Best(Initial(env).slots, 0) == Some(Exact(1, {0}, env.Own()))
  {
    LevelThree(env.p);
    assert env.PeersAt(3);
  }

  lemma {:induction false} FirstStored(scheme: Scheme, ms: MultiSig)
    ensures EMPTY.verified <= EMPTY.indiv.Keys
    ensures StoreSlot(scheme, EMPTY, Entry(0, ms)) == Slot(Some(ms), {}, map[])
  {
  }

  lemma {:induction false} FourBits(ms: MultiSig)
    requires ms.bits == {0} + {70, 71, 72}
    ensures |ms.bits| == 4 && ms.bits * Upto(4) == {0}
  {
    var beyond := {70, 71, 72};
    assert |beyond| == 3 && {0} !! beyond;
    assert ms.bits * Upto(4) == {0} * Upto(4);
    assert 0 in Upto(4);
  }

  /** checkCompletedLevel marks level 3 complete, of whose nodes only the first has contributed. */
  ghost predicate WronglyComplete(env: Env, st: State) {
    && env.Valid() && LevelsOk(env, st.lvls) && 3 in st.lvls
    && MarkCompleted(env, st, 3).lvls[3].rcvCompleted && BestBits(st.slots, 3) * Upto(4) == {0}
  }

  /**
   * In any state in which level 3 is still empty, storing a verified misfit with one contribution
   * marks the level complete: its best has as many bits as the level has nodes, but only the first
   * of them stands for a node of the level.
   */
  lemma {:induction false} CompletesEarly(env: Env, st: State, ms: MultiSig)
    requires FourOfEight(env) && LevelsOk(env, st.lvls) && 3 in st.slots && st.slots[3] == EMPTY
    requires ms == Misfit(env, 128, {70, 71, 72})
    ensures 3 in env.peers && !Announced(env.codec, Packed(env, ms).multiSig)
    ensures Parse(env, Packed(env, ms)) == Some((Entry(0, ms), None)) && Verifies(env.p, env.scheme, Entry(0, ms))
    ensures Storable(st.slots, Entry(0, ms)) && WronglyComplete(env, st.(slots := StoreAt(env, st.slots, Entry(0, ms))))
  {
    MisfitAccepted(env, 128, {70, 71, 72});
    FirstStored(env.scheme, ms);
    FourBits(ms);
    assert |st.lvls[3].nodes| == 4;
  }

  /** The best of level 3 after the misfit and an honest signature of node 1. */
  function Merged(env: Env, width: nat): MultiSig {
    Exact(width, {0, 1, 6}, env.scheme.add(env.p.reg.Key(env.scheme, 0), env.p.reg.Key(env.scheme, 1)))
  }

  /** Merging with an honest signature makes the bitset announce the length of the vector. */
  lemma {:induction false} MergesTooLong(env: Env, width: nat)
    requires FourOfEight(env) && width >= 8
    ensures var first := StoreSlot(env.scheme, EMPTY, Entry(0, Misfit(env, width, {6})));
            StoreSlot(env.scheme, first, Entry(1, Exact(4, {1}, env.p.reg.Key(env.scheme, 1)))).best ==
            Some(Merged(env, width))
  {
    var ms2, ms := Misfit(env, width, {6}), Exact(4, {1}, env.p.reg.Key(env.scheme, 1));
    assert ms2.bits == {0, 6} && |{0, 6}| == 2;
    assert ms.bits + ms2.bits == {0, 1, 6} && |{0, 1, 6}| == 3;
    var first := Slot(Some(ms2), {}, map[]);
    assert StoreSlot(env.scheme, EMPTY, Entry(0, ms2)) == first;
    assert MergeBase(env.scheme, ms2, ms) == Merged(env, width);
    NothingToPatch(env.scheme, first, ms);
  }

  lemma {:induction false} NothingToPatch(scheme: Scheme, slot: Slot, ms: MultiSig)
    requires slot.best.Some? && slot.verified == {} && slot.indiv == map[]
    ensures var best := MergeBase(scheme, slot.best.value, ms);
            CheckMerge(scheme, slot, ms) == if |best.bits| <= |slot.best.value.bits| then None else Some(best)
  {
    var best := MergeBase(scheme, slot.best.value, ms);
    assert slot.verified - best.bits == {} && best.bits + {} == best.bits;
    NoPatch(scheme, best.sig, slot.indiv, best.len);
  }

  lemma {:induction false} NoPatch(scheme: Scheme, sig: Point, indiv: map<nat, MultiSig>, k: nat)
    ensures Patch(scheme, sig, {}, indiv, k) == sig
  {
    if k > 0 { NoPatch(scheme, sig, indiv, k - 1); }
  }

  /** With a vector longer than the registry, the full signature sets a bit out of bounds: the node panics. */
  lemma {:induction false} PanicsTooLong(env: Env, width: nat)
    requires FourOfEight(env) && width > 8
    ensures !Inside(env.p, 3, Merged(env, width).len, 0, env.p.size)
  {
    LevelThree(env.p);
  }

  lemma {:induction false} SumOf(env: Env, nodes: set<nat>, i: nat)
    requires FourOfEight(env) && i !in nodes && i < 8
    ensures env.p.reg.KeySum(env.scheme, nodes + {i}) ==
            env.scheme.add(env.p.reg.KeySum(env.scheme, nodes), env.p.reg.Key(env.scheme, i))
  {
    env.scheme.SumInsert((j: nat) => env.p.reg.Key(env.scheme, j), nodes, i, 8);
  }

  lemma {:induction false} SumOfPair(env: Env)
    requires FourOfEight(env)
    ensures env.p.reg.KeySum(env.scheme, {0, 1}) == Merged(env, 8).sig
  {
    KeyAlone(env, 0);
    assert Shift({0}, 0) == {0} && {0} + {1} == {0, 1};
    LevelThree(env.p);
    SumOf(env, {0}, 1);
  }

  /** What the two levels look like to the partitioner. */
  function TwoLevels(env: Env, ownFirst: bool): seq<LevelView> {
    var own, three := LevelView(0, Exact(1, {0}, env.Own())), LevelView(3, Merged(env, 8));
    if ownFirst then [own, three] else [three, own]
  }

  lemma {:induction false} TwoLevelsBits(env: Env, ownFirst: bool, j: nat)
    requires FourOfEight(env)
    ensures Written(env.p, TwoLevels(env, ownFirst), 2, 0, j) <==> j in {0, 1, 6} || (!ownFirst && j == 4)
  {
    LevelThree(env.p);
    var views := TwoLevels(env, ownFirst);
    assert env.p.Lo(0) == 4 && env.p.Lo(3) == 0;
    assert !Written(env.p, views, 0, 0, j);
    if ownFirst {
      assert views[0].level == 0 && views[1].level == 3;
      assert Written(env.p, views, 1, 0, j) <==> j == 4;
    } else {
      assert views[0].level == 3 && views[1].level == 0;
      assert Written(env.p, views, 1, 0, j) <==> j in {0, 1, 6};
    }
  }

  /**
   * With a vector as long as the registry, the full signature handed to the user does not verify,
   * in whatever order the map yields the levels: it has the bit of node 6, whose key is not in it.
   */
  lemma {:induction false} OutputsFalse(env: Env, ownFirst: bool, ms: MultiSig)
    requires FourOfEight(env)
    requires env.p.reg.Key(env.scheme, 6) !in {env.scheme.zero, env.p.reg.Key(env.scheme, 4)}
    requires ms.len == 8 && ms.sig == Fold(env.scheme, TwoLevels(env, ownFirst))
    requires forall j: nat :: j in ms.bits <==> Written(env.p, TwoLevels(env, ownFirst), 2, 0, j)
    ensures AllInside(env.p, TwoLevels(env, ownFirst), 0, env.p.size)
    ensures !VerifiesFull(env.p.reg, env.scheme, ms)
  {
    LevelThree(env.p);
    var pair := env.p.reg.KeySum(env.scheme, {0, 1});
    var own, six := env.Own(), env.p.reg.Key(env.scheme, 6);
    SumOfPair(env);
    FoldTwo(env.scheme, TwoLevels(env, ownFirst));
    forall j: nat ensures j in ms.bits <==> j in {0, 1, 6} || (!ownFirst && j == 4) {
      TwoLevelsBits(env, ownFirst, j);
    }
    assert env.scheme.Laws(own, pair, pair);
    if ownFirst {
      assert ms.bits == {0, 1} + {6};
      SumOf(env, {0, 1}, 6);
      if env.scheme.add(pair, own) == env.scheme.add(pair, six) { env.scheme.Cancel(pair, own, six); }
    } else {
      assert ms.bits == {0, 1} + {4} + {6};
      SumOf(env, {0, 1}, 4);
      SumOf(env, {0, 1} + {4}, 6);
      env.scheme.CountedTwice(env.scheme.add(pair, own), six);
    }
  }

  lemma {:induction false} FoldTwo(scheme: Scheme, views: seq<LevelView>)
    requires |views| == 2
    ensures Fold(scheme, views) == scheme.add(views[0].ms.sig, views[1].ms.sig)
  {
    assert views[..1] == [views[0]] && views[..1][..0] == [];
  }
}
