/** Aggregate signatures over an abstract group, and the registry of public keys. */
module Signatures {

  datatype Option<+T> = None | Some(value: T)

  /** A group element: a signature or a public key. */
  type Point(==, !new, 00)

  /**
   * The aggregation scheme for the one message being signed. A key and the signature it
   * makes of the message are the same element, so an aggregate key accepts exactly the sum
   * of the signatures of its parts.
   */
  datatype Scheme = Scheme(zero: Point, add: (Point, Point) -> Point, neg: Point -> Point) {

    ghost predicate Laws(x: Point, y: Point, z: Point) {
      && add(x, y) == add(y, x)
      && add(add(x, y), z) == add(x, add(y, z))
      && add(zero, x) == x
      && add(x, neg(x)) == zero
    }

    ghost predicate Lawful() {
      forall x, y, z :: Laws(x, y, z)
    }

    lemma {:induction false} Cancel(x: Point, y: Point, z: Point)
      requires Lawful() && add(x, y) == add(x, z)
      ensures y == z
    {
      var n := neg(x);
      assert Laws(x, n, y) && Laws(n, x, y) && Laws(n, x, z) && Laws(y, x, n) && Laws(z, x, n);
    }

    /** A contribution counted once more changes the sum, so the signature no longer verifies. */
    lemma {:induction false} CountedTwice(x: Point, k: Point)
      requires Lawful() && k != zero
      ensures !Verify(x, add(x, k))
    {
      assert Laws(x, zero, k) && Laws(zero, x, k);
      if add(x, k) == x { Cancel(x, k, zero); }
    }

    /** The sum of f over the members of s below n. */
    function Sum(f: nat -> Point, s: set<nat>, n: nat): Point {
      if n == 0 then zero
      else if n - 1 in s then add(Sum(f, s, n - 1), f(n - 1))
      else Sum(f, s, n - 1)
    }

    predicate Verify(key: Point, sig: Point) {
      key == sig
    }

    lemma {:induction false} SumLocal(f: nat -> Point, g: nat -> Point, s: set<nat>, t: set<nat>, n: nat)
      requires forall i | 0 <= i < n :: (i in s <==> i in t) && (i in s ==> f(i) == g(i))
      ensures Sum(f, s, n) == Sum(g, t, n)
    {
      if n > 0 { SumLocal(f, g, s, t, n - 1); }
    }

    lemma {:induction false} SumExtend(f: nat -> Point, s: set<nat>, m: nat, n: nat)
      requires m <= n
      requires forall i | m <= i < n :: i !in s
      ensures Sum(f, s, n) == Sum(f, s, m)
    {
      if m < n { SumExtend(f, s, m, n - 1); }
    }

    lemma {:induction false} SumUnion(f: nat -> Point, s: set<nat>, t: set<nat>, n: nat)
      requires Lawful() && s !! t
      ensures Sum(f, s + t, n) == add(Sum(f, s, n), Sum(f, t, n))
    {
      if n == 0 {
        assert Laws(zero, zero, zero);
      } else {
        SumUnion(f, s, t, n - 1);
        var x, y, z := Sum(f, s, n - 1), Sum(f, t, n - 1), f(n - 1);
        assert Laws(x, y, z) && Laws(x, z, y) && Laws(y, z, x);
      }
    }

    lemma {:induction false} SumInsert(f: nat -> Point, s: set<nat>, x: nat, n: nat)
      requires Lawful() && x !in s && x < n
      ensures Sum(f, s + {x}, n) == add(Sum(f, s, n), f(x))
    {
      SumUnion(f, s, {x}, n);
      SumExtend(f, {x}, x + 1, n);
      SumExtend(f, {x}, 0, x);
      assert Laws(f(x), zero, zero);
    }
  }

  datatype Identity = Identity(id: nat, key: Point)

  /** arrayRegistry: the node with id i sits at index i. */
  datatype Registry = Registry(ids: seq<Identity>) {

    ghost predicate Valid() {
      |ids| >= 1 && forall i | 0 <= i < |ids| :: ids[i].id == i
    }

    function Lookup(idx: int): Option<Identity> {
      if idx < 0 || idx >= |ids| then None else Some(ids[idx])
    }

    predicate InBound(idx: int) {
      !(idx < 0 || idx > |ids|)
    }

    function Identities(from: int, to: int): Option<seq<Identity>> {
      if !InBound(from) || !InBound(to) then None
      else if to < from then None
      else Some(ids[from..to])
    }

    function Key(scheme: Scheme, i: nat): Point {
      if i < |ids| then ids[i].key else scheme.zero
    }

    /** The aggregate key of the given set of nodes, each counted once. */
    function KeySum(scheme: Scheme, nodes: set<nat>): Point {
      scheme.Sum((i: nat) => Key(scheme, i), nodes, |ids|)
    }
  }
}
