/** Exact integer forms of utils.go, and the tree distance between two node ids. */
module Numbers {

  function Min(x: int, y: int): int {
    if x < y then x else y
  }

  function Pow2(k: nat): (r: nat)
    ensures r >= 1
  {
    if k == 0 then 1 else 2 * Pow2(k - 1)
  }

  /** The least k with n <= 2^k. */
  function Log2(n: nat): (k: nat)
    requires n >= 1
    ensures n <= Pow2(k)
    ensures k > 0 ==> Pow2(k - 1) < n
  {
    if n == 1 then 0 else 1 + Log2((n + 1) / 2)
  }

  /** x >> k */
  function Shr(x: nat, k: nat): nat {
    if k == 0 then x else Shr(x, k - 1) / 2
  }

  predicate IsSet(nb: nat, index: nat) {
    Shr(nb, index) % 2 == 1
  }

  /** The number of low bits that must be dropped before a and b agree. */
  function LevelOf(a: nat, b: nat): nat {
    if a == b then 0 else 1 + LevelOf(a / 2, b / 2)
  }

  lemma {:induction false} Pow2Monotone(j: nat, k: nat)
    requires j <= k
    ensures Pow2(j) <= Pow2(k)
  {
    if j < k { Pow2Monotone(j, k - 1); }
  }

  /** The first number of the aligned block of size 2^k with index q, that is q * 2^k. */
  function Start(q: nat, k: nat): nat
    decreases k
  {
    if k == 0 then q else Start(2 * q, k - 1)
  }

  lemma {:induction false} StartNext(q: nat, k: nat)
    ensures Start(q + 1, k) == Start(q, k) + Pow2(k)
    decreases k
  {
    if k > 0 {
      StartNext(2 * q, k - 1);
      StartNext(2 * q + 1, k - 1);
    }
  }

  lemma {:induction false} StartOrder(q: nat, r: nat, k: nat)
    requires q < r
    ensures Start(q, k) + Pow2(k) <= Start(r, k)
    decreases r
  {
    StartNext(r - 1, k);
    if q < r - 1 { StartOrder(q, r - 1, k); }
  }

  lemma {:induction false} StartZero(k: nat)
    ensures Start(0, k) == 0
  {
    if k > 0 { StartZero(k - 1); }
  }

  /** Shr(x, k) is the index of the aligned block of size 2^k that holds x. */
  lemma {:induction false} ShrBlock(x: nat, k: nat)
    ensures Start(Shr(x, k), k) <= x < Start(Shr(x, k), k) + Pow2(k)
  {
    if k > 0 {
      ShrBlock(x, k - 1);
      StartNext(Shr(x, k) * 2, k - 1);
    }
  }

  /** Only the members of a block have its index. */
  lemma {:induction false} BlockIndex(x: nat, k: nat, q: nat)
    requires Start(q, k) <= x < Start(q, k) + Pow2(k)
    ensures Shr(x, k) == q
  {
    ShrBlock(x, k);
    if Shr(x, k) < q {
      StartOrder(Shr(x, k), q, k);
    } else if Shr(x, k) > q {
      StartOrder(q, Shr(x, k), k);
    }
  }

  lemma {:induction false} InBlock(x: nat, k: nat, q: nat)
    ensures Start(q, k) <= x < Start(q, k) + Pow2(k) <==> Shr(x, k) == q
  {
    ShrBlock(x, k);
    if Start(q, k) <= x < Start(q, k) + Pow2(k) { BlockIndex(x, k, q); }
  }

  lemma {:induction false} ShrShift(x: nat, k: nat)
    ensures Shr(x, k + 1) == Shr(x / 2, k)
  {
    if k > 0 { ShrShift(x, k - 1); }
  }

  /** Two ids are within distance k exactly when their bits above k agree. */
  lemma {:induction false} LevelOfShr(a: nat, b: nat, k: nat)
    ensures LevelOf(a, b) <= k <==> Shr(a, k) == Shr(b, k)
    decreases k
  {
    if k > 0 {
      ShrShift(a, k - 1);
      ShrShift(b, k - 1);
      LevelOfShr(a / 2, b / 2, k - 1);
    }
  }

  lemma {:induction false} LevelOfSymmetric(a: nat, b: nat)
    ensures LevelOf(a, b) == LevelOf(b, a)
    decreases LevelOf(a, b)
  {
    if a != b { LevelOfSymmetric(a / 2, b / 2); }
  }

  lemma {:induction false} LevelOfBound(a: nat, b: nat, n: nat)
    requires a < n && b < n
    ensures LevelOf(a, b) <= Log2(n)
  {
    var k := Log2(n);
    StartZero(k);
    BlockIndex(a, k, 0);
    BlockIndex(b, k, 0);
    LevelOfShr(a, b, k);
  }

  // ----- Counting in rounds

  lemma {:induction false} ProductOrder(j: nat, k: nat, n: nat)
    requires j <= k
    ensures 0 <= j * n <= k * n
    ensures j < k ==> j * n + n <= k * n
  {
    if j < k {
      ProductOrder(j, k - 1, n);
      assert (k - 1) * n + n == k * n;
    }
  }

  lemma {:induction false} InRound(q: nat, n: nat, r: nat)
    requires r < n
    ensures q * n >= 0 && (q * n + r) % n == r
  {
    ProductOrder(0, q, n);
    var x := q * n + r;
    var d := x / n;
    assert x == d * n + x % n;
    if d < q { ProductOrder(d, q, n); }
    if q < d { ProductOrder(q, d, n); }
  }

  lemma {:induction false} ModNext(a: nat, n: nat)
    requires n > 0
    ensures (a + 1) % n == if a % n + 1 >= n then 0 else a % n + 1
  {
    var q, r := a / n, a % n;
    assert a == q * n + r;
    if r + 1 < n {
      InRound(q, n, r + 1);
      assert q * n + (r + 1) == a + 1;
    } else {
      InRound(q + 1, n, 0);
      assert (q + 1) * n + 0 == a + 1;
    }
  }
}
