/** simul/monitor/stats.go: the streaming mean and deviation of a measure, over the reals. */
module Stats {

  function Sum(s: seq<real>): real {
    if s == [] then 0.0 else Sum(s[..|s| - 1]) + s[|s| - 1]
  }

  function Mean(s: seq<real>): real
    requires s != []
  {
    Sum(s) / |s| as real
  }

  /** The sum of the squared deviations from c. */
  function SqDev(s: seq<real>, c: real): real {
    if s == [] then 0.0 else SqDev(s[..|s| - 1], c) + (s[|s| - 1] - c) * (s[|s| - 1] - c)
  }

  /** k times m, by repeated addition. */
  function Total(k: nat, m: real): real {
    if k == 0 then 0.0 else Total(k - 1, m) + m
  }

  lemma {:induction false} TotalIs(k: nat, m: real)
    ensures Total(k, m) == k as real * m
  {
    if k > 0 { TotalIs(k - 1, m); }
  }

  predicate IsMean(s: seq<real>, m: real) {
    s != [] && Total(|s|, m) == Sum(s)
  }

  lemma {:induction false} MeanIs(s: seq<real>, m: real)
    requires s != []
    ensures IsMean(s, m) <==> m == Mean(s)
  {
    TotalIs(|s|, m);
    MeanTimes(s);
    if IsMean(s, m) { Cancel(|s| as real, m, Mean(s)); }
  }

  /** The square root of a number, or the result of dividing zero by zero. */
  datatype Deviation = Root(square: real) | NotANumber

  /** The sample deviation: the root of the squared deviations from m over one less than the number of values. */
  predicate IsDeviation(s: seq<real>, m: real, d: Deviation) {
    if s == [] then d == Root(0.0)
    else if |s| == 1 then d == NotANumber
    else d.Root? && Total(|s| - 1, d.square) == SqDev(s, m)
  }

  predicate IsMin(s: seq<real>, m: real) {
    m in s && forall x | x in s :: m <= x
  }

  predicate IsMax(s: seq<real>, m: real) {
    m in s && forall x | x in s :: x <= m
  }

  lemma {:induction false} SumAppend(s: seq<real>, t: seq<real>)
    ensures Sum(s + t) == Sum(s) + Sum(t)
  {
    if t == [] {
      assert s + t == s;
    } else {
      assert (s + t)[..|s + t| - 1] == s + t[..|t| - 1];
      SumAppend(s, t[..|t| - 1]);
    }
  }

  lemma {:induction false} SqDevAppend(s: seq<real>, t: seq<real>, c: real)
    ensures SqDev(s + t, c) == SqDev(s, c) + SqDev(t, c)
  {
    if t == [] {
      assert s + t == s;
    } else {
      assert (s + t)[..|s + t| - 1] == s + t[..|t| - 1];
      SqDevAppend(s, t[..|t| - 1], c);
    }
  }

  function Squares(s: seq<real>): real {
    if s == [] then 0.0 else Squares(s[..|s| - 1]) + s[|s| - 1] * s[|s| - 1]
  }

  lemma {:induction false} ExpandOne(q: real, t: real, k: real, x: real, c: real)
    ensures (q - 2.0 * (c * t) + (k - 1.0) * (c * c)) + (x - c) * (x - c) ==
            (q + x * x) - 2.0 * (c * (t + x)) + k * (c * c)
  {
  }

  lemma {:induction false} Expand(s: seq<real>, c: real)
    ensures SqDev(s, c) == Squares(s) - 2.0 * (c * Sum(s)) + |s| as real * (c * c)
  {
    if s != [] {
      var r := s[..|s| - 1];
      Expand(r, c);
      ExpandOne(Squares(r), Sum(r), |s| as real, s[|s| - 1], c);
    }
  }

  lemma {:induction false} AboutMean(q: real, k: real, m: real, c: real)
    ensures q - 2.0 * (c * (k * m)) + k * (c * c) ==
            (q - 2.0 * (m * (k * m)) + k * (m * m)) + k * ((m - c) * (m - c))
  {
  }

  lemma {:induction false} MeanTimes(s: seq<real>)
    requires s != []
    ensures |s| as real * Mean(s) == Sum(s)
  {
  }

  /** The deviations from any other point are larger than those from the mean. */
  lemma {:induction false} SqDevMean(s: seq<real>, c: real)
    requires s != []
    ensures SqDev(s, c) == SqDev(s, Mean(s)) + |s| as real * ((Mean(s) - c) * (Mean(s) - c))
  {
    MeanTimes(s);
    Expand(s, c);
    Expand(s, Mean(s));
    AboutMean(Squares(s), |s| as real, Mean(s), c);
  }

  /** One more value: the streaming mean is the mean. */
  lemma {:induction false} MeanNext(s: seq<real>, x: real)
    requires s != []
    ensures Mean(s + [x]) == Mean(s) + (x - Mean(s)) / (|s| + 1) as real
  {
    var k, m := |s| as real, Mean(s);
    MeanTimes(s);
    SumAppend(s, [x]);
    assert Sum([x]) == x by { assert [x][..0] == []; }
    MeanTimes(s + [x]);
    var e := (x - m) / (k + 1.0);
    assert e * (k + 1.0) == x - m;
    assert (k + 1.0) * (m + e) == k * m + m + e * (k + 1.0);
    assert (k + 1.0) * Mean(s + [x]) == (k + 1.0) * (m + e);
    Cancel(k + 1.0, Mean(s + [x]), m + e);
  }

  lemma {:induction false} Cancel(k: real, a: real, b: real)
    requires k > 0.0 && k * a == k * b
    ensures a == b
  {
    assert k * (a - b) == 0.0;
  }

  lemma {:induction false} WelfordStep(k: real, m: real, c: real, x: real, e: real)
    requires c == m + e && x == m + e * (k + 1.0)
    ensures k * ((m - c) * (m - c)) + (x - c) * (x - c) == (x - m) * (x - c)
  {
    assert m - c == -e && x - c == e * k && x - m == e * (k + 1.0);
    assert k * (e * e) + (e * k) * (e * k) == (e * (k + 1.0)) * (e * k);
  }

  /** One more value: the streaming sum of squares is the sum of the squared deviations from the new mean. */
  lemma {:induction false} SqDevNext(s: seq<real>, x: real)
    requires s != []
    ensures SqDev(s + [x], Mean(s + [x])) == SqDev(s, Mean(s)) + (x - Mean(s)) * (x - Mean(s + [x]))
  {
    var k, m, c := |s| as real, Mean(s), Mean(s + [x]);
    MeanNext(s, x);
    WelfordStep(k, m, c, x, (x - m) / (k + 1.0));
    SqDevMean(s, c);
    SqDevAppend(s, [x], c);
    SqDevOne(x, c);
  }

  lemma {:induction false} SqDevOne(x: real, c: real)
    ensures SqDev([x], c) == (x - c) * (x - c)
  {
    assert [x][..|[x]| - 1] == [];
  }

  class Value {
    var min: real
    var max: real
    var sum: real
    var n: nat
    var oldM: real
    var newM: real
    var oldS: real
    var newS: real
    var dev: Deviation
    var store: seq<real>
    /** All values collected so far, those collected again included. */
    ghost var seen: seq<real>

    /** NewValue */
    constructor ()
      ensures Valid() && seen == [] && store == []
    {
      min, max, sum, n := 0.0, 0.0, 0.0, 0;
      oldM, newM, oldS, newS, dev := 0.0, 0.0, 0.0, 0.0, Root(0.0);
      store, seen := [], [];
    }

    /** The mean, the sum of squared deviations from it, and the sample deviation of all values seen. */
    ghost predicate Streaming()
      reads this
    {
      && n == |seen|
      && (n == 0 ==> newS == 0.0)
      && (n > 0 ==> oldM == newM && IsMean(seen, newM) && oldS == newS == SqDev(seen, newM))
      && IsDeviation(seen, newM, dev)
    }

    /** The maximum starts from zero. */
    ghost predicate Extremes()
      reads this
    {
      && (seen != [] ==> IsMin(seen, min))
      && max >= 0.0 && (forall x | x in seen :: x <= max) && (max == 0.0 || max in seen)
    }

    ghost predicate Valid()
      reads this
    {
      Streaming() && Extremes()
    }

    method Store(newTime: real)
      requires Valid()
      modifies `store
      ensures Valid() && store == old(store) + [newTime]
    {
      store := store + [newTime];
    }

    /** The minimum and the maximum with one more value. */
    method Extend(newTime: real)
      requires Extremes() && (n == 0 <==> seen == [])
      modifies `min, `max
      ensures IsMin(seen + [newTime], min)
      ensures max >= 0.0 && (forall x | x in seen + [newTime] :: x <= max) && (max == 0.0 || max in seen + [newTime])
    {
      if min > newTime || n == 0 {
        min := newTime;
      }
      if max < newTime {
        max := newTime;
      }
    }

    /** The next streaming mean, sum of squares and deviation. */
    method Stream(newTime: real)
      requires Streaming()
      modifies `n, `oldM, `newM, `oldS, `newS, `dev, `seen
      ensures Streaming() && seen == old(seen) + [newTime]
    {
      ghost var before := seen;
      n := n + 1;
      if n == 1 {
        oldM := newTime;
        newM := newTime;
        oldS := 0.0;
        MeanOne(newTime);
        assert before + [newTime] == [newTime];
      } else {
        newM := oldM + (newTime - oldM) / n as real;
        newS := oldS + (newTime - oldM) * (newTime - newM);
        StreamNext(before, newTime, oldM, oldS, newM, newS);
        oldM := newM;
        oldS := newS;
      }
      dev := Deviate();
      seen := before + [newTime];
    }

    /** The deviation, from the sum of squares and the number of values. */
    method Deviate() returns (d: Deviation)
      requires n > 0
      ensures if n == 1 then d == NotANumber else d.Root? && Total(n - 1, d.square) == newS
    {
      if n == 1 {
        return NotANumber;
      }
      d := Root(newS / (n - 1) as real);
      QuotientTotal(n - 1, newS);
    }

    /** The loop body of Collect. */
    method CollectOne(newTime: real)
      requires Valid()
      modifies `min, `max, `sum, `n, `oldM, `newM, `oldS, `newS, `dev, `seen
      ensures Valid() && seen == old(seen) + [newTime] && sum == old(sum) + newTime
    {
      Extend(newTime);
      Stream(newTime);
      sum := sum + newTime;
    }

    method Collect()
      requires Valid()
      modifies `min, `max, `sum, `n, `oldM, `newM, `oldS, `newS, `dev, `seen
      ensures Valid() && seen == old(seen) + store && sum == Sum(store)
    {
      sum := 0.0;
      for i := 0 to |store|
        invariant Valid() && seen == old(seen) + store[..i] && sum == Sum(store[..i])
      {
        assert store[..i + 1][..i] == store[..i];
        CollectOne(store[i]);
      }
      assert store[..|store|] == store;
    }
  }

  lemma {:induction false} MeanOne(x: real)
    ensures IsMean([x], x) && SqDev([x], x) == 0.0
  {
    assert [x][..|[x]| - 1] == [];
    assert Sum([x]) == x;
    assert Total(1, x) == Total(0, x) + x;
    SqDevOne(x, x);
  }

  lemma {:induction false} QuotientTotal(k: nat, a: real)
    requires k > 0
    ensures Total(k, a / k as real) == a
  {
    TotalIs(k, a / k as real);
  }

  lemma {:induction false} StreamMean(s: seq<real>, x: real, m: real, nextM: real)
    requires IsMean(s, m) && nextM == m + (x - m) / (|s| + 1) as real
    ensures IsMean(s + [x], nextM)
  {
    MeanIs(s, m);
    MeanNext(s, x);
    MeanIs(s + [x], nextM);
  }

  lemma {:induction false} StreamDev(s: seq<real>, x: real, m: real, nextM: real)
    requires IsMean(s, m) && IsMean(s + [x], nextM)
    ensures SqDev(s + [x], nextM) == SqDev(s, m) + (x - m) * (x - nextM)
  {
    MeanIs(s, m);
    MeanIs(s + [x], nextM);
    SqDevNext(s, x);
  }

  /** The streaming update gives the mean and the sum of squares of one more value. */
  lemma {:induction false} StreamNext(s: seq<real>, x: real, m: real, q: real, nextM: real, nextQ: real)
    requires IsMean(s, m) && q == SqDev(s, m)
    requires nextM == m + (x - m) / (|s| + 1) as real && nextQ == q + (x - m) * (x - nextM)
    ensures IsMean(s + [x], nextM) && nextQ == SqDev(s + [x], nextM)
  {
    StreamMean(s, x, m, nextM);
    StreamDev(s, x, m, nextM);
  }

  // ----- What the statistics mean

  /** Collecting values already seen once more gives their mean exactly when the two means agree. */
  lemma {:induction false} MeanAgain(seen: seq<real>, store: seq<real>)
    requires seen != [] && store != []
    ensures Mean(seen + store) == Mean(store) <==> Mean(seen) == Mean(store)
  {
    var j, k := |seen| as real, |store| as real;
    var a, b, c := Mean(seen), Mean(store), Mean(seen + store);
    SumAppend(seen, store);
    MeanTimes(seen);
    MeanTimes(store);
    MeanTimes(seen + store);
    assert (j + k) * c == j * a + k * b;
    if c == b {
      assert j * b == j * a;
      Cancel(j, b, a);
    }
    if a == b {
      assert (j + k) * c == (j + k) * b;
      Cancel(j + k, c, b);
    }
  }

  /** Collecting an unchanged store twice keeps the mean, and doubles the sum of squares. */
  lemma {:induction false} Twice(store: seq<real>)
    requires store != []
    ensures Mean(store + store) == Mean(store)
    ensures SqDev(store + store, Mean(store + store)) == 2.0 * SqDev(store, Mean(store))
  {
    MeanAgain(store, store);
    SqDevAppend(store, store, Mean(store));
  }

  /** A value stored between two collections makes the mean wrong. */
  lemma {:induction false} BetweenCollections()
    ensures Mean([1.0] + [1.0, 3.0]) != Mean([1.0, 3.0])
  {
    assert [1.0][..0] == [] && [1.0, 3.0][..1] == [1.0];
    MeanAgain([1.0], [1.0, 3.0]);
  }

  /** One negative value, of which the maximum reported is 0. */
  lemma {:induction false} NegativeOnly(v: Value)
    requires v.Valid() && v.seen == [-1.0]
    ensures v.max == 0.0 && !IsMax(v.seen, v.max)
  {
    assert -1.0 in v.seen;
  }

  /** The maximum reported is that of the values exactly when one of them is not negative. */
  lemma {:induction false} MaxRight(v: Value)
    requires v.Valid() && v.n > 0
    ensures IsMax(v.seen, v.max) <==> exists x :: x in v.seen && x >= 0.0
  {
    if v.max !in v.seen {
      assert v.max == 0.0;
    }
  }
}
