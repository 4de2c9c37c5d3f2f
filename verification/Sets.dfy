/** Cardinalities of finite sets of numbers. */
module Sets {

  ghost predicate Below(s: set<nat>, n: nat) {
    forall i | i in s :: i < n
  }

  function Upto(n: nat): (r: set<nat>)
    ensures forall i: nat :: i in r <==> i < n
  {
    if n == 0 then {} else Upto(n - 1) + {n - 1}
  }

  /** The members of s moved up by lo: bit j of a level stands for node lo + j. */
  function Shift(s: set<nat>, lo: nat): (r: set<nat>)
    ensures forall g: nat {:trigger g in r} :: g in r <==> g >= lo && g - lo in s
  {
    var r := set i | i in s :: i + lo;
    assert forall g: nat {:trigger g in r} | g >= lo && g - lo in s :: g in r by {
      forall g: nat {:trigger g in r} | g >= lo && g - lo in s ensures g in r {
        var i: nat := g - lo;
        assert i in s && i + lo == g;
      }
    }
    r
  }

  lemma {:induction false} SubsetCard<T>(s: set<T>, t: set<T>)
    requires s <= t
    ensures |s| <= |t|
    ensures |s| == |t| ==> s == t
  {
    assert t == s + (t - s);
  }

  lemma {:induction false} UptoCard(n: nat)
    ensures |Upto(n)| == n
  {
    if n > 0 {
      UptoCard(n - 1);
    }
  }

  lemma {:induction false} UnionCard<T>(s: set<T>, t: set<T>)
    ensures |s + t| == |s| + |t| <==> s !! t
    ensures |s * t| == 0 <==> s !! t
  {
    if !(s !! t) {
      var x :| x in s && x in t;
      assert x in s * t;
    }
  }

  lemma {:induction false} DifferenceCard<T>(s: set<T>, t: set<T>)
    ensures |s - t| + |t| == |s + t|
  {
    assert (s - t) + t == s + t;
    assert (s - t) !! t;
  }

  lemma {:induction false} BelowCard(s: set<nat>, n: nat)
    requires Below(s, n)
    ensures |s| <= n
    ensures |s| == n ==> s == Upto(n)
  {
    UptoCard(n);
    SubsetCard(s, Upto(n));
  }

  lemma {:induction false} ShiftCard(s: set<nat>, lo: nat)
    ensures |Shift(s, lo)| == |s|
  {
    if s == {} {
      assert Shift(s, lo) == {};
    } else {
      var x :| x in s;
      ShiftCard(s - {x}, lo);
      assert Shift(s, lo) == Shift(s - {x}, lo) + {x + lo};
    }
  }
}
