/** processing.go: the queue of signatures waiting to be verified, and the verification itself. */
module Processing {
  import opened Signatures
  import opened Sets
  import opened Partition
  import opened Slots
  import opened Combining

  /** deathPillPair: stops the processing routine. */
  const PILL := Incoming(-1, 0, None, false, 0)

  // ----- Selection

  datatype Scan = Scan(newTodos: seq<Incoming>, best: Option<Incoming>, bestMark: int) {
    /** All entries kept, the selected one included. */
    function All(): multiset<Incoming> {
      multiset(newTodos) + (if best.Some? then multiset{best.value} else multiset{})
    }
  }

  predicate Live(todos: seq<Incoming>, marks: seq<int>, i: nat)
    requires i < |todos| == |marks|
  {
    todos[i].ms.Some? && marks[i] > 0
  }

  /** The selection loop after k entries; marks[i] is what the evaluator said of entry i. */
  function ScanTo(todos: seq<Incoming>, marks: seq<int>, k: nat): Scan
    requires k <= |todos| == |marks|
  {
    if k == 0 then Scan([], None, 0)
    else
      var s := ScanTo(todos, marks, k - 1);
      if !Live(todos, marks, k - 1) then s
      else if marks[k - 1] <= s.bestMark then s.(newTodos := s.newTodos + [todos[k - 1]])
      else Scan(if s.best.Some? then s.newTodos + [s.best.value] else s.newTodos, Some(todos[k - 1]), marks[k - 1])
  }

  /** The entries among the first k that are worth keeping, in order. */
  function LiveTo(todos: seq<Incoming>, marks: seq<int>, k: nat): seq<Incoming>
    requires k <= |todos| == |marks|
  {
    if k == 0 then []
    else if Live(todos, marks, k - 1) then LiveTo(todos, marks, k - 1) + [todos[k - 1]]
    else LiveTo(todos, marks, k - 1)
  }

  /** The entries among the first k that are not worth keeping, in order. */
  function DeadTo(todos: seq<Incoming>, marks: seq<int>, k: nat): seq<Incoming>
    requires k <= |todos| == |marks|
  {
    if k == 0 then []
    else if Live(todos, marks, k - 1) then DeadTo(todos, marks, k - 1)
    else DeadTo(todos, marks, k - 1) + [todos[k - 1]]
  }

  lemma {:induction false} NoneLive(todos: seq<Incoming>, marks: seq<int>, k: nat)
    requires k <= |todos| == |marks| && forall i | 0 <= i < k :: !Live(todos, marks, i)
    ensures ScanTo(todos, marks, k) == Scan([], None, 0)
  {
    if k > 0 { NoneLive(todos, marks, k - 1); }
  }

  lemma {:induction false} LiveOrDead(todos: seq<Incoming>, marks: seq<int>, k: nat)
    requires k <= |todos| == |marks|
    ensures multiset(todos[..k]) == multiset(LiveTo(todos, marks, k)) + multiset(DeadTo(todos, marks, k))
  {
    if k > 0 {
      LiveOrDead(todos, marks, k - 1);
      assert todos[..k] == todos[..k - 1] + [todos[k - 1]];
    }
  }

  /** The selected entry and the entries kept for later are exactly the entries worth keeping. */
  lemma {:induction false} ScanConserves(todos: seq<Incoming>, marks: seq<int>, k: nat)
    requires k <= |todos| == |marks|
    ensures ScanTo(todos, marks, k).All() == multiset(LiveTo(todos, marks, k))
  {
    if k > 0 { ScanConserves(todos, marks, k - 1); }
  }

  /** The entry selected is the first one with the highest positive mark. */
  lemma {:induction false} ScanSelects(todos: seq<Incoming>, marks: seq<int>, k: nat) returns (at: nat)
    requires k <= |todos| == |marks|
    ensures ScanTo(todos, marks, k).best.None? ==>
              ScanTo(todos, marks, k).bestMark == 0 && forall i | 0 <= i < k :: !Live(todos, marks, i)
    ensures ScanTo(todos, marks, k).best.Some? ==>
              var s := ScanTo(todos, marks, k);
              && at < k && Live(todos, marks, at) && s.best == Some(todos[at]) && s.bestMark == marks[at]
              && (forall i | 0 <= i < k && Live(todos, marks, i) :: marks[i] <= marks[at])
              && (forall i | 0 <= i < at && Live(todos, marks, i) :: marks[i] < marks[at])
  {
    at := 0;
    if k > 0 {
      at := ScanSelects(todos, marks, k - 1);
      if Live(todos, marks, k - 1) && marks[k - 1] > ScanTo(todos, marks, k - 1).bestMark {
        at := k - 1;
      }
    }
  }

  // ----- The queue with its filter and counters

  /**
   * taken is the history of the entries that passed the filter, selected that of the entries chosen
   * for verification, and dropped that of the entries thrown away.
   */
  datatype Queue = Queue(todos: seq<Incoming>, seen: set<int>, sigCheckedCt: int, sigSuppressed: int,
                         taken: seq<Incoming>, selected: seq<Incoming>, dropped: seq<Incoming>)
  {
    function Add(sp: Incoming): Queue {
      if !sp.isInd then this.(todos := todos + [sp], taken := taken + [sp])
      else if sp.origin in seen then this
      else this.(todos := todos + [sp], taken := taken + [sp], seen := seen + {sp.origin})
    }

    /** One call of readTodos that finds no death pill. */
    function Read(marks: seq<int>): Queue
      requires |marks| == |todos|
    {
      var s := ScanTo(todos, marks, |todos|);
      var lost := |todos| - |s.newTodos|;
      var next := this.(todos := s.newTodos, dropped := dropped + DeadTo(todos, marks, |todos|));
      if s.best.Some?
      then next.(sigCheckedCt := sigCheckedCt + 1, sigSuppressed := sigSuppressed + lost - 1, selected := selected + [s.best.value])
      else next.(sigSuppressed := sigSuppressed + lost)
    }

    /**
     * Every entry accepted waits, or was selected, or was dropped, as often as it was accepted; the
     * counters count the selected and the dropped; and no origin has had two individual signatures accepted.
     */
    ghost predicate Balanced() {
      && multiset(taken) == multiset(todos) + multiset(selected) + multiset(dropped)
      && sigCheckedCt == |selected| && sigSuppressed == |dropped|
      && OnePerOrigin()
    }

    ghost predicate OnePerOrigin() {
      && (forall i | 0 <= i < |taken| && taken[i].isInd :: taken[i].origin in seen)
      && (forall i, j | 0 <= i < j < |taken| && taken[i].isInd && taken[j].isInd :: taken[i].origin != taken[j].origin)
    }

    lemma {:induction false} BalancedCounts()
      requires Balanced()
      ensures |taken| == sigCheckedCt + sigSuppressed + |todos|
    {
      assert |multiset(taken)| == |multiset(todos) + multiset(selected) + multiset(dropped)|;
    }

    lemma {:induction false} AddBalanced(sp: Incoming)
      requires Balanced()
      ensures Add(sp).Balanced()
    {
    }

    /** What is kept, selected and dropped is what was waiting, and nothing else. */
    lemma {:induction false} ReadConserves(marks: seq<int>)
      requires |marks| == |todos|
      ensures var s := ScanTo(todos, marks, |todos|); multiset(todos) == s.All() + multiset(DeadTo(todos, marks, |todos|))
      ensures var s := ScanTo(todos, marks, |todos|);
              |todos| == |s.newTodos| + (if s.best.Some? then 1 else 0) + |DeadTo(todos, marks, |todos|)|
    {
      ScanConserves(todos, marks, |todos|);
      LiveOrDead(todos, marks, |todos|);
      assert todos[..|todos|] == todos;
      assert |multiset(todos)| == |ScanTo(todos, marks, |todos|).All() + multiset(DeadTo(todos, marks, |todos|))|;
    }

    /**
     * One reading: when no entry is worth keeping all are dropped; otherwise the first one with the
     * highest mark is selected, the other ones worth keeping wait, and the rest is dropped.
     */
    lemma {:induction false} ReadExactly(marks: seq<int>) returns (at: nat)
      requires |marks| == |todos|
      ensures Read(marks).dropped == dropped + DeadTo(todos, marks, |todos|)
      ensures (forall i | 0 <= i < |todos| :: !Live(todos, marks, i)) ==>
                Read(marks).todos == [] && Read(marks).selected == selected
      ensures (exists i :: 0 <= i < |todos| && Live(todos, marks, i)) ==>
                && at < |todos| && Live(todos, marks, at)
                && (forall i | 0 <= i < |todos| && Live(todos, marks, i) :: marks[i] <= marks[at])
                && (forall i | 0 <= i < at && Live(todos, marks, i) :: marks[i] < marks[at])
                && Read(marks).selected == selected + [todos[at]]
                && multiset(Read(marks).todos) + multiset{todos[at]} == multiset(LiveTo(todos, marks, |todos|))
    {
      at := ScanSelects(todos, marks, |todos|);
      ScanConserves(todos, marks, |todos|);
      if forall i | 0 <= i < |todos| :: !Live(todos, marks, i) { NoneLive(todos, marks, |todos|); }
    }

    /** Nothing is in the queue that was not accepted into it. */
    lemma {:induction false} ReadBalanced(marks: seq<int>)
      requires Balanced() && |marks| == |todos|
      ensures Read(marks).Balanced()
      ensures multiset(Read(marks).todos) <= multiset(todos)
      ensures var best := ScanTo(todos, marks, |todos|).best; best.Some? ==> best.value in todos
    {
      var at := ScanSelects(todos, marks, |todos|);
      ReadConserves(marks);
    }
  }

  const EMPTY_QUEUE := Queue([], {}, 0, 0, [], [], [])

  lemma {:induction false} LiveSubset(todos: seq<Incoming>, marks: seq<int>, k: nat)
    requires k <= |todos| == |marks|
    ensures multiset(LiveTo(todos, marks, k)) <= multiset(todos[..k])
  {
    if k > 0 {
      LiveSubset(todos, marks, k - 1);
      assert todos[..k] == todos[..k - 1] + [todos[k - 1]];
    }
  }

  /** evaluatorProcessing: its queue, counters, and the individual signature filter. */
  class EvaluatorProcessing {
    var todos: seq<Incoming>
    var seen: set<int>
    var sigCheckedCt: int
    var sigQueueSize: int
    var sigSuppressed: int
    ghost var taken: seq<Incoming>
    ghost var selected: seq<Incoming>
    ghost var dropped: seq<Incoming>

    constructor ()
      ensures View() == EMPTY_QUEUE && sigQueueSize == 0
    {
      todos, seen := [], {};
      taken, selected, dropped := [], [], [];
      sigCheckedCt, sigQueueSize, sigSuppressed := 0, 0, 0;
    }

    ghost function View(): Queue
      reads this
    {
      Queue(todos, seen, sigCheckedCt, sigSuppressed, taken, selected, dropped)
    }

    /** individualSigFilter.Accept */
    method Accept(inc: Incoming) returns (ok: bool)
      modifies `seen
      ensures ok == (!inc.isInd || inc.origin !in old(seen))
      ensures seen == if inc.isInd then old(seen) + {inc.origin} else old(seen)
    {
      if !inc.isInd {
        return true;
      }
      if inc.origin in seen {
        return false;
      }
      seen := seen + {inc.origin};
      return true;
    }

    method Add(sp: Incoming)
      modifies this
      ensures View() == old(View()).Add(sp) && sigQueueSize == old(sigQueueSize)
    {
      var ok := Accept(sp);
      if ok {
        todos := todos + [sp];
        taken := taken + [sp];
      }
    }

    /** marks[i] is the answer of the evaluator for the i-th entry. */
    method ReadTodos(marks: seq<int>) returns (stop: bool, best: Option<Incoming>)
      requires |marks| == |todos|
      modifies this
      ensures stop <==> PILL in old(todos)
      ensures stop ==> best.None? && View() == old(View()) && sigQueueSize == old(sigQueueSize)
      ensures !stop ==> View() == old(View()).Read(marks) && best == ScanTo(old(todos), marks, |marks|).best
      ensures !stop ==> sigQueueSize == old(sigQueueSize) + (if best.Some? then |todos| else 0)
    {
      var previousLen := |todos|;
      var newTodos: seq<Incoming> := [];
      best := None;
      var bestMark := 0;
      for i := 0 to |todos|
        invariant PILL !in todos[..i]
        invariant Scan(newTodos, best, bestMark) == ScanTo(todos, marks, i)
      {
        var pair := todos[i];
        if pair == PILL {
          return true, None;
        }
        if pair.ms.None? {
          continue;
        }
        var mark := marks[i];
        if mark > 0 {
          if mark <= bestMark {
            newTodos := newTodos + [pair];
          } else {
            if best.Some? {
              newTodos := newTodos + [best.value];
            }
            best := Some(pair);
            bestMark := mark;
          }
        }
      }
      dropped := dropped + DeadTo(todos, marks, |todos|);
      todos := newTodos;
      var newLen := |todos|;
      sigSuppressed := sigSuppressed + (previousLen - newLen);
      if best.Some? {
        sigSuppressed := sigSuppressed - 1;
        sigCheckedCt := sigCheckedCt + 1;
        sigQueueSize := sigQueueSize + newLen;
        selected := selected + [best.value];
      }
      return false, best;
    }

    /** processStep with verifyAndPublish: published holds the signature passed on, if there is one. */
    method ProcessStep(p: Partitioner, scheme: Scheme, marks: seq<int>) returns (stop: bool, published: seq<Incoming>)
      requires p.Valid() && |marks| == |todos|
      modifies this
      ensures stop <==> PILL in old(todos)
      ensures stop ==> View() == old(View()) && published == []
      ensures !stop ==> View() == old(View()).Read(marks)
      ensures !stop ==>
                var best := ScanTo(old(todos), marks, |marks|).best;
                published == if best.Some? && best.value.ms.Some? && Verifies(p, scheme, best.value) then [best.value] else []
    {
      published := [];
      ghost var at := ScanSelects(todos, marks, |marks|);
      var best;
      stop, best := ReadTodos(marks);
      if !stop && best.Some? {
        var ok := VerifySignature(p, scheme, best.value);
        if ok {
          published := [best.value];
        }
      }
    }
  }

  // ----- Verification

  /** What verifySignature accepts: the sum of the keys denoted by the bits below the length announced. */
  ghost predicate Verifies(p: Partitioner, scheme: Scheme, sp: Incoming)
    requires p.Valid() && sp.ms.Some?
  {
    && p.RangeOf(sp.level).Range?
    && sp.ms.value.len == p.SizeOf(sp.level)
    && KeysAt(p, scheme, sp.level).Verified(sp.ms.value)
  }

  method VerifySignature(p: Partitioner, scheme: Scheme, sp: Incoming) returns (ok: bool)
    requires p.Valid() && sp.ms.Some?
    ensures ok <==> Verifies(p, scheme, sp)
  {
    var ms := sp.ms.value;
    var ids := p.IdentitiesAt(sp.level);
    if ids.None? {
      return false;
    }
    p.RangeBounds(sp.level);
    if ms.len != |ids.value| {
      return false;
    }
    ghost var keys, lo := KeysAt(p, scheme, sp.level), p.Lo(sp.level);
    ghost var nodes := Shift(keys.UptoOf(ms.bits, ms.len), lo);
    ghost var key := (i: nat) => p.reg.Key(scheme, i);
    scheme.SumExtend(key, nodes, 0, lo);
    var aggregateKey := scheme.zero;
    for i := 0 to ms.len
      invariant aggregateKey == scheme.Sum(key, nodes, lo + i)
    {
      if i in ms.bits {
        aggregateKey := scheme.add(aggregateKey, ids.value[i].key);
      }
    }
    scheme.SumExtend(key, nodes, lo + ms.len, p.size);
    ok := scheme.Verify(aggregateKey, ms.sig);
  }

  /** A multisignature over the whole registry that anybody can verify. */
  ghost predicate VerifiesFull(reg: Registry, scheme: Scheme, ms: MultiSig) {
    ms.len == |reg.ids| && ms.sig == reg.KeySum(scheme, ms.bits)
  }

  method VerifyMultiSignature(reg: Registry, scheme: Scheme, ms: MultiSig) returns (ok: bool)
    requires reg.Valid()
    ensures ok <==> VerifiesFull(reg, scheme, ms)
  {
    var n := ms.len;
    if n != |reg.ids| {
      return false;
    }
    var aggregate := scheme.zero;
    for i := 0 to n
      invariant aggregate == scheme.Sum((j: nat) => reg.Key(scheme, j), ms.bits, i)
    {
      if i in ms.bits {
        var id := reg.Lookup(i);
        if id.None? {
          return false;
        }
        aggregate := scheme.add(aggregate, id.value.key);
      }
    }
    return scheme.Verify(aggregate, ms.sig);
  }
}
