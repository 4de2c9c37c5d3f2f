/** partitioner.go:224-296: combining the signatures of several levels into one. */
module Assembly {
  import opened Signatures
  import opened Sets
  import opened Partition
  import opened Slots
  import opened Combining
  import opened BitSets

  /** A signature of a level, by reference and by value. */
  datatype LevelSig = LevelSig(level: nat, ms: MultiSignature)
  datatype LevelView = LevelView(level: nat, ms: MultiSig)

  ghost predicate IsView(sigs: seq<LevelSig>, views: seq<LevelView>)
    reads set s | s in sigs :: s.ms.bs
  {
    |views| == |sigs| && forall i | 0 <= i < |sigs| :: views[i] == LevelView(sigs[i].level, sigs[i].ms.View())
  }

  /** The signatures added up in the order given. */
  ghost function Fold(scheme: Scheme, views: seq<LevelView>): Point
    requires views != []
  {
    var init, last := views[..|views| - 1], views[|views| - 1];
    if init == [] then last.ms.sig else scheme.add(Fold(scheme, init), last.ms.sig)
  }

  function LevelsIn(views: seq<LevelView>): (r: set<nat>)
    ensures forall l :: l in r <==> exists i :: 0 <= i < |views| && views[i].level == l
  {
    set i | 0 <= i < |views| :: views[i].level
  }

  lemma {:induction false} LevelsInLast(views: seq<LevelView>)
    requires views != []
    ensures LevelsIn(views) == LevelsIn(views[..|views| - 1]) + {views[|views| - 1].level}
  {
    var init := views[..|views| - 1];
    forall l | l in LevelsIn(views) ensures l in LevelsIn(init) + {views[|views| - 1].level} {
      var i :| 0 <= i < |views| && views[i].level == l;
      if i < |init| { assert init[i] == views[i]; }
    }
    forall l | l in LevelsIn(init) ensures l in LevelsIn(views) {
      var i :| 0 <= i < |init| && init[i].level == l;
      assert views[i] == init[i];
    }
  }

  /** Each signature is for another non-empty level, has that level's size, and is for a level below top. */
  ghost predicate Combinable(p: Partitioner, views: seq<LevelView>, top: nat)
    requires p.Valid()
  {
    && (forall i | 0 <= i < |views| :: views[i].level < top && p.RangeOf(views[i].level).Range?)
    && (forall i | 0 <= i < |views| :: Below(views[i].ms.bits, views[i].ms.len) && views[i].ms.len == p.SizeOf(views[i].level))
    && (forall i, j | 0 <= i < j < |views| :: views[i].level != views[j].level)
  }

  /** The order of the signatures does not matter to their sum. */
  lemma {:induction false} FoldIsSum(scheme: Scheme, views: seq<LevelView>, f: nat -> Point, top: nat)
    requires scheme.Lawful() && views != []
    requires forall i | 0 <= i < |views| :: views[i].level < top && f(views[i].level) == views[i].ms.sig
    requires forall i, j | 0 <= i < j < |views| :: views[i].level != views[j].level
    ensures Fold(scheme, views) == scheme.Sum(f, LevelsIn(views), top)
    decreases |views|
  {
    var init, last := views[..|views| - 1], views[|views| - 1];
    LevelsInLast(views);
    assert last.level !in LevelsIn(init);
    scheme.SumInsert(f, LevelsIn(init), last.level, top);
    if init == [] {
      assert LevelsIn(init) == {};
      scheme.SumExtend(f, {}, 0, top);
      assert scheme.Laws(last.ms.sig, last.ms.sig, last.ms.sig);
    } else {
      FoldIsSum(scheme, init, f, top);
    }
  }

  // ----- Placing the bits

  /** Node g's own bit is set in the signature of its level. */
  ghost predicate Marks(p: Partitioner, v: LevelView, g: nat)
    requires p.Valid()
  {
    g >= p.Lo(v.level) && g - p.Lo(v.level) in v.ms.bits
  }

  ghost predicate SomeMarks(p: Partitioner, views: seq<LevelView>, k: nat, g: nat)
    requires p.Valid() && k <= |views|
  {
    exists i :: 0 <= i < k && Marks(p, views[i], g)
  }

  /** Bits set in different levels belong to different nodes. */
  lemma {:induction false} OtherLevel(p: Partitioner, views: seq<LevelView>, top: nat, i: nat, k: nat, g: nat)
    requires p.Valid() && Combinable(p, views, top) && top <= p.MaxLevel() + 1 && i < k < |views|
    requires Marks(p, views[i], g)
    ensures !(p.Lo(views[k].level) <= g < p.Lo(views[k].level) + views[k].ms.len)
  {
    p.RangeBounds(views[i].level);
    p.RangeBounds(views[k].level);
    p.RangeMembers(views[i].level, g);
    p.RangeMembers(views[k].level, g);
  }

  /** What the bit of node j + base is after the first k signatures: the last one that covers it decides. */
  ghost predicate Written(p: Partitioner, views: seq<LevelView>, k: nat, base: nat, j: nat)
    requires p.Valid() && k <= |views|
  {
    k > 0 &&
    var v := views[k - 1];
    var offset := p.Lo(v.level) - base;
    if offset <= j < offset + v.ms.len then j - offset in v.ms.bits else Written(p, views, k - 1, base, j)
  }

  /** Signatures for different levels that have the size of their level do not overwrite each other. */
  lemma {:induction false} WrittenMarks(p: Partitioner, views: seq<LevelView>, k: nat, top: nat, base: nat, j: nat)
    requires p.Valid() && top <= p.MaxLevel() + 1 && Combinable(p, views, top) && k <= |views|
    ensures Written(p, views, k, base, j) <==> SomeMarks(p, views, k, j + base)
  {
    if k > 0 {
      WrittenMarks(p, views, k - 1, top, base, j);
      var v := views[k - 1];
      var offset := p.Lo(v.level) - base;
      if offset <= j < offset + v.ms.len && SomeMarks(p, views, k - 1, j + base) {
        var i :| 0 <= i < k - 1 && Marks(p, views[i], j + base);
        OtherLevel(p, views, top, i, k - 1, j + base);
      }
      if Written(p, views, k, base, j) && offset <= j < offset + v.ms.len {
        assert Marks(p, views[k - 1], j + base);
      }
    }
  }

  /** No bit is set out of bounds, which would panic. */
  ghost predicate AllInside(p: Partitioner, views: seq<LevelView>, base: nat, size: nat)
    requires p.Valid()
  {
    forall i | 0 <= i < |views| :: Inside(p, views[i].level, views[i].ms.len, base, size)
  }

  lemma {:induction false} CombinableInside(p: Partitioner, views: seq<LevelView>, top: nat)
    requires p.Valid() && 1 <= top <= p.MaxLevel() + 1 && Combinable(p, views, top)
    ensures AllInside(p, views, p.InverseOf(top).min, p.InverseOf(top).max - p.InverseOf(top).min)
  {
    forall i | 0 <= i < |views|
      ensures Inside(p, views[i].level, views[i].ms.len, p.InverseOf(top).min, p.InverseOf(top).max - p.InverseOf(top).min)
    {
      LevelInside(p, views[i].level, top);
    }
  }

  /** The first id of a level, or 0 when rangeLevel gives an error. */
  method FirstId(p: Partitioner, level: nat) returns (min: nat)
    requires p.Valid()
    ensures min == p.Lo(level)
  {
    var r := p.RangeLevel(level);
    min := if r.Range? then r.min else 0;
  }

  /** Writes the bits of one level to their place in the final bitset. */
  method Place(p: Partitioner, s: LevelSig, final: BitSet, base: nat)
    requires p.Valid() && final != s.ms.bs
    requires final.Sized(final.len) && Inside(p, s.level, s.ms.bs.len, base, final.len)
    modifies final
    ensures final.Sized(final.len)
    ensures var offset := p.Lo(s.level) - base;
            forall j: nat :: j in final.bits <==>
              if offset <= j < offset + s.ms.bs.len then j - offset in s.ms.bs.bits else j in old(final.bits)
  {
    var min := FirstId(p, s.level);
    var offset := min - base;
    var bs := s.ms.bs;
    for i := 0 to bs.len
      invariant final.Sized(final.len)
      invariant forall j: nat :: j in final.bits <==>
                  if offset <= j < offset + i then j - offset in bs.bits else j in old(final.bits)
    {
      final.Set(offset + i, bs.Get(i));
    }
  }

  /** combineSize: adds the signatures up and places the bits of each level. */
  method CombineSize(p: Partitioner, scheme: Scheme, sigs: seq<LevelSig>, ghost views: seq<LevelView>, final: BitSet, base: nat)
    returns (sig: Point)
    requires p.Valid() && sigs != [] && IsView(sigs, views) && AllInside(p, views, base, final.len)
    requires final.Sized(final.len) && final.bits == {} && forall i | 0 <= i < |sigs| :: sigs[i].ms.bs != final
    modifies final
    ensures final.Sized(final.len) && sig == Fold(scheme, views)
    ensures forall j: nat :: j in final.bits <==> Written(p, views, |views|, base, j)
  {
    sig := sigs[0].ms.sig;
    assert Inside(p, views[0].level, views[0].ms.len, base, final.len);
    Place(p, sigs[0], final, base);
    for k := 1 to |sigs|
      invariant final.Sized(final.len)
      invariant forall i | 0 <= i < |sigs| :: views[i] == LevelView(sigs[i].level, sigs[i].ms.View())
      invariant sig == Fold(scheme, views[..k])
      invariant forall j: nat :: j in final.bits <==> Written(p, views, k, base, j)
    {
      assert views[..k + 1][..k] == views[..k];
      sig := scheme.add(sig, sigs[k].ms.sig);
      assert Inside(p, views[k].level, views[k].ms.len, base, final.len);
      Place(p, sigs[k], final, base);
    }
    assert views[..|sigs|] == views;
  }

  /** Combine gives nothing: there is no signature, one is for too high a level, or there is no such level. */
  ghost predicate Refused(p: Partitioner, views: seq<LevelView>, level: nat)
    requires p.Valid()
  {
    views == [] || (exists i :: 0 <= i < |views| && views[i].level > level) || level > p.MaxLevel() + 1
  }

  /** Combine, unless it panics because a bit has no place in the result. */
  method Combine(p: Partitioner, scheme: Scheme, sigs: seq<LevelSig>, ghost views: seq<LevelView>, level: nat)
    returns (r: Option<MultiSignature>)
    requires p.Valid() && IsView(sigs, views)
    requires !Refused(p, views, level) ==>
               AllInside(p, views, p.InverseOf(level).min, p.InverseOf(level).max - p.InverseOf(level).min)
    ensures r.None? <==> Refused(p, views, level)
    ensures r.Some? ==>
              var ms, inv := r.value, p.InverseOf(level);
              && fresh(ms.bs) && ms.bs.Sized(inv.max - inv.min)
              && (forall j: nat :: j in ms.bs.bits <==> Written(p, views, |views|, inv.min, j))
              && ms.sig == Fold(scheme, views)
  {
    if |sigs| == 0 {
      return None;
    }
    for i := 0 to |sigs|
      invariant forall k | 0 <= k < i :: views[k].level <= level
    {
      if sigs[i].level > level {
        return None;
      }
    }
    var range := p.RangeLevelInverse(level);
    if range.InvalidLevel? {
      return None;
    }
    var bitset := new BitSet(range.max - range.min);
    var sig := CombineSize(p, scheme, sigs, views, bitset, range.min);
    return Some(MultiSignature(bitset, sig));
  }

  /** A signature for the requested level itself passes the check of Combine, and makes it panic. */
  lemma {:induction false} SameLevelPanics(p: Partitioner, level: nat, len: nat)
    requires p.Valid() && 1 <= level <= p.MaxLevel() && p.RangeOf(level).Range? && len > 0
    ensures !Inside(p, level, len, p.InverseOf(level).min, p.InverseOf(level).max - p.InverseOf(level).min)
  {
    p.RangeBounds(level);
    p.RangeMembers(level, p.Lo(level));
    p.InverseMembers(level, p.Lo(level));
  }

  method CombineFull(p: Partitioner, scheme: Scheme, sigs: seq<LevelSig>, ghost views: seq<LevelView>)
    returns (r: Option<MultiSignature>)
    requires p.Valid() && IsView(sigs, views) && AllInside(p, views, 0, p.size)
    ensures r.None? <==> sigs == []
    ensures r.Some? ==>
              var ms := r.value;
              && fresh(ms.bs) && ms.bs.Sized(p.size)
              && (forall j: nat :: j in ms.bs.bits <==> Written(p, views, |views|, 0, j))
              && ms.sig == Fold(scheme, views)
  {
    if |sigs| == 0 {
      return None;
    }
    var finalBitSet := new BitSet(p.size);
    var sig := CombineSize(p, scheme, sigs, views, finalBitSet, 0);
    return Some(MultiSignature(finalBitSet, sig));
  }
}
