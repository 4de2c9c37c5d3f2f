/** simul/lib/allocator.go: spreading nodes over platforms, some of them offline. */
module Allocator {
  import opened Numbers
  import opened Sets

  datatype NodeInfo = NodeInfo(id: int, active: bool)

  const UNPLACED := NodeInfo(-1, false)

  type Allocation = map<string, seq<NodeInfo>>

  datatype Outcome = Allocated(out: Allocation) | Panicked

  /** A missing entry reads as the empty list. */
  function At(out: Allocation, s: string): seq<NodeInfo> {
    if s in out then out[s] else []
  }

  function Push(out: Allocation, s: string, x: NodeInfo): Allocation {
    out[s := At(out, s) + [x]]
  }

  // ----- Which ids belong to a platform

  /** The ids below k that fall on the platform called s when dealt out in turn. */
  function Ids(plats: seq<string>, s: string, k: nat): (r: seq<nat>)
    requires |plats| > 0
    ensures forall t | 0 <= t < |r| :: r[t] < k
  {
    if k == 0 then []
    else if plats[(k - 1) % |plats|] == s then Ids(plats, s, k - 1) + [k - 1]
    else Ids(plats, s, k - 1)
  }

  /** How many of the first k platforms are called s. */
  function Count(plats: seq<string>, s: string, k: nat): nat
    requires k <= |plats|
  {
    if k == 0 then 0 else Count(plats, s, k - 1) + if plats[k - 1] == s then 1 else 0
  }

  /** Dealing q rounds and r more ids gives each platform what the division promises. */
  lemma {:induction false} IdsCount(plats: seq<string>, s: string, q: nat, r: nat)
    requires 0 < |plats| && r <= |plats|
    ensures |Ids(plats, s, q * |plats| + r)| == q * Count(plats, s, |plats|) + Count(plats, s, r)
    decreases q, r
  {
    var n := |plats|;
    if r > 0 {
      IdsCount(plats, s, q, r - 1);
      InRound(q, n, r - 1);
    } else if q > 0 {
      IdsCount(plats, s, q - 1, n);
      assert (q - 1) * n + n == q * n;
      assert (q - 1) * Count(plats, s, n) + Count(plats, s, n) == q * Count(plats, s, n);
    }
  }

  /** A round starts at a multiple of the number of platforms. */
  lemma {:induction false} InNextRound(base: nat, n: nat, p: nat)
    requires n > 0 && base % n == 0 && p < n
    ensures (base + p) % n == p && (base + n) % n == 0
  {
    var q := base / n;
    assert base == q * n;
    InRound(q, n, p);
    InRound(q + 1, n, 0);
    assert (q + 1) * n == base + n;
  }

  lemma {:induction false} IdsGrow(plats: seq<string>, s: string, j: nat, k: nat)
    requires |plats| > 0 && j <= k
    ensures Ids(plats, s, j) <= Ids(plats, s, k)
  {
    if j < k { IdsGrow(plats, s, j, k - 1); }
  }

  /** The ids of s are those whose remainder selects s, in increasing order. */
  lemma {:induction false} IdsMembers(plats: seq<string>, s: string, k: nat)
    requires |plats| > 0
    ensures forall j: nat :: j in Ids(plats, s, k) <==> j < k && plats[j % |plats|] == s
    ensures forall t, u | 0 <= t < u < |Ids(plats, s, k)| :: Ids(plats, s, k)[t] < Ids(plats, s, k)[u]
  {
    if k > 0 { IdsMembers(plats, s, k - 1); }
  }

  // ----- Reserving places

  ghost predicate Blank(list: seq<NodeInfo>, k: nat) {
    |list| == k && forall t | 0 <= t < k :: list[t] == UNPLACED
  }

  /** The places reserved on s once the first k platforms have been visited. */
  function Places(plats: seq<string>, s: string, q: nat, rem: nat, k: nat): nat
    requires k <= |plats|
  {
    if k == 0 then 0
    else Places(plats, s, q, rem, k - 1) + (if plats[k - 1] != s then 0 else if k - 1 < rem then q + 1 else q)
  }

  lemma {:induction false} PlacesCount(plats: seq<string>, s: string, q: nat, rem: nat, k: nat)
    requires k <= |plats| && rem <= |plats|
    ensures Places(plats, s, q, rem, k) == q * Count(plats, s, k) + Count(plats, s, Min(k, rem))
  {
    if k > 0 {
      PlacesCount(plats, s, q, rem, k - 1);
      assert q * (Count(plats, s, k - 1) + 1) == q * Count(plats, s, k - 1) + q;
    }
  }

  /** Every platform has as many places as ids will be dealt to it. */
  lemma {:induction false} PlacesEnough(plats: seq<string>, s: string, total: nat, q: nat, rem: nat)
    requires |plats| > 0 && total == q * |plats| + rem && rem < |plats|
    ensures Places(plats, s, q, rem, |plats|) == |Ids(plats, s, total)|
  {
    PlacesCount(plats, s, q, rem, |plats|);
    IdsCount(plats, s, q, rem);
  }

  lemma {:induction false} AllReserved(plats: seq<string>, out: Allocation, total: nat, q: nat, rem: nat)
    requires |plats| > 0 && total == q * |plats| + rem && rem < |plats|
    requires forall s :: Blank(At(out, s), Places(plats, s, q, rem, |plats|))
    ensures forall s :: Blank(At(out, s), |Ids(plats, s, total)|)
  {
    forall s ensures Blank(At(out, s), |Ids(plats, s, total)|) {
      PlacesEnough(plats, s, total, q, rem);
    }
  }

  /** The places of one platform: the quotient, and one more while there is a remainder. */
  method ReservePlatform(reserved: Allocation, s: string, instPerPlat: nat, rem: nat) returns (out: Allocation, left: nat)
    requires forall r :: Blank(At(reserved, r), |At(reserved, r)|)
    ensures left == (if rem > 0 then rem - 1 else 0) && forall r | r != s :: At(out, r) == At(reserved, r)
    ensures Blank(At(out, s), |At(reserved, s)| + if rem > 0 then instPerPlat + 1 else instPerPlat)
  {
    out, left := reserved, rem;
    ghost var k := |At(reserved, s)|;
    for j := 0 to instPerPlat
      invariant Blank(At(out, s), k + j) && forall r | r != s :: At(out, r) == At(reserved, r)
    {
      out := Push(out, s, UNPLACED);
    }
    if left > 0 {
      out := Push(out, s, UNPLACED);
      left := left - 1;
    }
  }

  method ReservePlaces(plats: seq<string>, instPerPlat: nat, rem: nat) returns (out: Allocation)
    ensures forall s :: Blank(At(out, s), Places(plats, s, instPerPlat, rem, |plats|))
  {
    out := map[];
    var left := rem;
    for i := 0 to |plats|
      invariant left == rem - Min(i, rem)
      invariant forall s :: Blank(At(out, s), Places(plats, s, instPerPlat, rem, i))
    {
      out, left := ReservePlatform(out, plats[i], instPerPlat, left);
    }
  }

  method Reserve(plats: seq<string>, total: nat) returns (out: Allocation)
    requires |plats| > 0
    ensures forall s :: Blank(At(out, s), |Ids(plats, s, total)|)
  {
    var instPerPlat, rem := total / |plats|, total % |plats|;
    out := ReservePlaces(plats, instPerPlat, rem);
    AllReserved(plats, out, total, instPerPlat, rem);
  }

  // ----- Placing ids

  /** The list of s when the ids below i have been placed and those in dead are inactive. */
  ghost predicate FilledAt(plats: seq<string>, s: string, list: seq<NodeInfo>, i: nat, total: nat, dead: set<nat>)
    requires |plats| > 0
  {
    var ids := Ids(plats, s, i);
    && |ids| <= |list| == |Ids(plats, s, total)|
    && (forall t | 0 <= t < |ids| :: list[t] == NodeInfo(ids[t], ids[t] !in dead))
    && (forall t | |ids| <= t < |list| :: list[t].id == -1)
  }

  ghost predicate Filled(plats: seq<string>, out: Allocation, i: nat, total: nat, dead: set<nat>)
    requires |plats| > 0
  {
    forall s :: FilledAt(plats, s, At(out, s), i, total, dead)
  }

  method FindFree(list: seq<NodeInfo>) returns (idx: nat)
    ensures idx <= |list| && (idx < |list| ==> list[idx].id == -1)
    ensures forall t | 0 <= t < idx :: list[t].id != -1
  {
    idx := 0;
    while idx < |list|
      invariant idx <= |list| && forall t | 0 <= t < idx :: list[t].id != -1
    {
      if list[idx].id == -1 {
        return idx;
      }
      idx := idx + 1;
    }
  }

  lemma {:induction false} FirstFree(ids: seq<nat>, list: seq<NodeInfo>, idx: nat)
    requires |ids| <= |list| && (forall t | 0 <= t < |ids| :: list[t].id == ids[t])
    requires forall t | |ids| <= t < |list| :: list[t].id == -1
    requires idx <= |list| && (idx < |list| ==> list[idx].id == -1) && forall t | 0 <= t < idx :: list[t].id != -1
    ensures idx == |ids|
  {
    assert |ids| < |list| ==> list[|ids|].id == -1;
  }

  /** The first free place of the next platform is where the next id belongs. */
  lemma {:induction false} PlaceNext(plats: seq<string>, out: Allocation, i: nat, total: nat, dead: set<nat>, s: string,
                                     list: seq<NodeInfo>, idx: nat, next: Allocation)
    requires |plats| > 0 && Filled(plats, out, i, total, dead) && i < total && s == plats[i % |plats|] && list == At(out, s)
    requires idx <= |list| && (idx < |list| ==> list[idx].id == -1) && forall t | 0 <= t < idx :: list[t].id != -1
    requires idx < |list| ==> next == out[s := list[idx := NodeInfo(i, i !in dead)]]
    ensures idx < |list| && Filled(plats, next, i + 1, total, dead)
  {
    assert FilledAt(plats, s, list, i, total, dead);
    IdsGrow(plats, s, i + 1, total);
    FirstFree(Ids(plats, s, i), list, idx);
    forall r ensures FilledAt(plats, r, At(next, r), i + 1, total, dead) {
      assert FilledAt(plats, r, At(out, r), i, total, dead);
    }
  }

  /** Once all ids are placed there is no free place left. */
  lemma {:induction false} NoneFree(plats: seq<string>, out: Allocation, total: nat, dead: set<nat>, s: string, idx: nat)
    requires |plats| > 0 && Filled(plats, out, total, total, dead)
    requires idx <= |At(out, s)| && (idx < |At(out, s)| ==> At(out, s)[idx].id == -1)
    ensures idx == |At(out, s)|
  {
    assert FilledAt(plats, s, At(out, s), total, total, dead);
  }

  // ----- The offline schedule

  /** The first m multiples of b. */
  function Multiples(b: nat, m: nat): set<nat> {
    if m == 0 then {} else Multiples(b, m - 1) + {Product(m - 1, b)}
  }

  function Product(k: nat, b: nat): (r: nat)
    ensures r == k * b
  {
    ProductOrder(0, k, b);
    k * b
  }

  lemma {:induction false} MultiplesMembers(b: nat, m: nat, j: nat)
    ensures j in Multiples(b, m) <==> exists k: nat :: k < m && j == Product(k, b)
  {
    if m > 0 { MultiplesMembers(b, m - 1, j); }
  }

  /** When every multiple so far is below i, the next one decides whether i is among them. */
  lemma {:induction false} NextMultiple(b: nat, m: nat, k: nat, i: nat)
    requires b > 0 && k <= m && (k < m ==> i <= k * b) && (k > 0 ==> (k - 1) * b < i)
    ensures i in Multiples(b, m) <==> k < m && i == k * b
  {
    MultiplesMembers(b, m, i);
    assert i == k * b ==> i == Product(k, b);
    if i in Multiples(b, m) {
      var j: nat :| j < m && i == Product(j, b);
      if j < k { ProductOrder(j, k - 1, b); }
      if j > k { ProductOrder(k, j, b); }
    }
  }

  /** The multiples are distinct. */
  lemma {:induction false} MultiplesCard(b: nat, m: nat)
    requires b > 0
    ensures |Multiples(b, m)| == m
  {
    if m > 0 {
      MultiplesCard(b, m - 1);
      MultiplesMembers(b, m - 1, Product(m - 1, b));
      forall j: nat | j < m - 1 ensures Product(j, b) < Product(m - 1, b) {
        ProductOrder(j, m - 1, b);
      }
    }
  }

  /** All of them are ids. */
  lemma {:induction false} MultiplesBelow(total: nat, offline: nat)
    requires 0 < offline <= total
    ensures total / offline > 0 && Below(Multiples(total / offline, offline), total)
  {
    var b := total / offline;
    assert total == b * offline + total % offline;
    assert b == 0 ==> b * offline == 0;
    forall j | j in Multiples(b, offline) ensures j < total {
      MultiplesMembers(b, offline, j);
      var k: nat :| k < offline && j == Product(k, b);
      ProductOrder(k, offline, b);
    }
  }

  /** bucketOffline */
  function Bucket(total: nat, offline: nat): nat {
    if offline != 0 then total / offline else total
  }

  /** The nodes that RoundRobin makes inactive. */
  function Schedule(total: nat, offline: nat): set<nat> {
    Multiples(Bucket(total, offline), offline)
  }

  /** The next node to be made inactive is the least member of the schedule that is not below i. */
  ghost predicate Ahead(total: nat, offline: nat, i: nat, nextOffline: nat, left: nat) {
    && left <= offline && nextOffline == Product(offline - left, Bucket(total, offline))
    && (left > 0 ==> i <= nextOffline < total)
    && (left < offline ==> Product(offline - left - 1, Bucket(total, offline)) < i)
  }

  lemma {:induction false} AheadStart(total: nat, offline: nat)
    requires offline <= total
    ensures Ahead(total, offline, 0, 0, offline)
  {
    ProductOrder(0, 0, Bucket(total, offline));
  }

  lemma {:induction false} AheadNext(total: nat, offline: nat, i: nat, nextOffline: nat, left: nat)
    requires offline <= total && Ahead(total, offline, i, nextOffline, left) && i < total
    ensures i in Schedule(total, offline) <==> left > 0 && i == nextOffline
    ensures !(left > 0 && i == nextOffline) ==> Ahead(total, offline, i + 1, nextOffline, left)
    ensures left > 0 && i == nextOffline ==> Ahead(total, offline, i + 1, nextOffline + Bucket(total, offline), left - 1)
  {
    if offline > 0 {
      var b, k := total / offline, offline - left;
      MultiplesBelow(total, offline);
      NextMultiple(b, offline, k, i);
      if left > 1 {
        assert (k + 1) * b == k * b + b;
        assert Product(k + 1, b) in Multiples(b, offline) by { MultiplesMembers(b, offline, Product(k + 1, b)); }
      }
    }
  }

  /** The position in the schedule, which does not exist when more nodes are to be offline than there are. */
  ghost predicate OnSchedule(total: nat, offline: nat, i: nat, nextOffline: nat, left: nat) {
    if offline <= total then Ahead(total, offline, i, nextOffline, left) else i == nextOffline == 0 && left == offline
  }

  /** The branch of the inner loop that decides whether node i is active, and may panic. */
  method Mark(i: nat, total: nat, bucketOffline: nat, nextOffline: nat, left: nat, ghost offline: nat)
    returns (active: bool, next: nat, rest: nat, panicked: bool)
    requires i < total && bucketOffline == Bucket(total, offline) && OnSchedule(total, offline, i, nextOffline, left)
    ensures panicked <==> offline > total
    ensures !panicked ==> Ahead(total, offline, i + 1, next, rest) && (active <==> i !in Schedule(total, offline))
  {
    if offline <= total {
      AheadNext(total, offline, i, nextOffline, left);
    }
    active, next, rest := true, nextOffline, left;
    if i == next && rest > 0 {
      active := false;
      next := next + bucketOffline;
      rest := rest - 1;
      if rest > 0 && (next <= i || next >= total) {
        return active, next, rest, true;
      }
    }
    return active, next, rest, false;
  }

  /** The body of the inner loop: puts id i in the first free place of a platform, if there is one. */
  method PlaceOne(plats: seq<string>, s: string, out: Allocation, i: nat, total: nat, bucketOffline: nat, nextOffline: nat,
                  left: nat, ghost offline: nat)
    returns (after: Allocation, j: nat, next: nat, rest: nat, panicked: bool)
    requires |plats| > 0 && i <= total && (i < total ==> s == plats[i % |plats|])
    requires Filled(plats, out, i, total, Schedule(total, offline))
    requires bucketOffline == Bucket(total, offline) && OnSchedule(total, offline, i, nextOffline, left)
    ensures panicked <==> offline > total && i < total
    ensures !panicked ==> j == Min(total, i + 1) && Filled(plats, after, j, total, Schedule(total, offline))
    ensures !panicked ==> OnSchedule(total, offline, j, next, rest)
    ensures i == total ==> after == out && j == i && next == nextOffline && rest == left
  {
    ghost var dead := Schedule(total, offline);
    after, j, next, rest, panicked := out, i, nextOffline, left, false;
    var list := At(out, s);
    var idx := FindFree(list);
    if i < total {
      PlaceNext(plats, out, i, total, dead, s, list, idx, out[s := if idx < |list| then list[idx := NodeInfo(i, i !in dead)] else list]);
    } else {
      NoneFree(plats, out, total, dead, s, idx);
    }
    if idx < |list| {
      var active;
      active, next, rest, panicked := Mark(i, total, bucketOffline, nextOffline, left, offline);
      after, j := out[s := list[idx := NodeInfo(i, active)]], i + 1;
    }
  }

  /**
   * One round over the platforms. Once all ids are dealt out it changes nothing: without a single
   * node, and with some to be offline, the loop around it never ends.
   */
  method Round(plats: seq<string>, reserved: Allocation, start: nat, total: nat, bucketOffline: nat, nextOffline: nat,
               left: nat, ghost offline: nat, ghost base: nat)
    returns (out: Allocation, i: nat, next: nat, rest: nat, panicked: bool)
    requires |plats| > 0 && start == Min(total, base) && base % |plats| == 0
    requires Filled(plats, reserved, start, total, Schedule(total, offline))
    requires bucketOffline == Bucket(total, offline) && OnSchedule(total, offline, start, nextOffline, left)
    ensures panicked <==> offline > total && start < total
    ensures !panicked ==> i == Min(total, base + |plats|) && Filled(plats, out, i, total, Schedule(total, offline))
    ensures !panicked ==> OnSchedule(total, offline, i, next, rest)
    ensures start == total ==> out == reserved && i == start && next == nextOffline && rest == left
  {
    var n := |plats|;
    out, i, next, rest, panicked := reserved, start, nextOffline, left, false;
    for p := 0 to n
      invariant i == Min(total, base + p) && !panicked && (offline > total && start < total ==> p == 0)
      invariant Filled(plats, out, i, total, Schedule(total, offline))
      invariant OnSchedule(total, offline, i, next, rest)
      invariant start == total ==> out == reserved && i == start && next == nextOffline && rest == left
    {
      InNextRound(base, n, p);
      out, i, next, rest, panicked := PlaceOne(plats, plats[p], out, i, total, bucketOffline, next, rest, offline);
      if panicked {
        return;
      }
    }
  }

  /** All ids dealt out: one in each place, the scheduled ones inactive. */
  method PlaceScheduled(plats: seq<string>, total: nat, offline: nat, reserved: Allocation) returns (r: Outcome)
    requires |plats| > 0 && (total > 0 || offline == 0)
    requires Filled(plats, reserved, 0, total, Schedule(total, offline))
    ensures r.Allocated? <==> offline <= total
    ensures r.Allocated? ==> Filled(plats, r.out, total, total, Schedule(total, offline))
  {
    var n, out := |plats|, reserved;
    var bucketOffline := if offline != 0 then total / offline else total;
    var i: nat, nextOffline: nat, left: nat := 0, 0, offline;
    ghost var base := 0;
    if offline <= total { AheadStart(total, offline); }
    while i < total || left > 0
      invariant i == Min(total, base) && base % n == 0
      invariant Filled(plats, out, i, total, Schedule(total, offline))
      invariant OnSchedule(total, offline, i, nextOffline, left)
      decreases total - i
    {
      var panicked;
      InNextRound(base, n, 0);
      out, i, nextOffline, left, panicked := Round(plats, out, i, total, bucketOffline, nextOffline, left, offline, base);
      if panicked {
        return Panicked;
      }
      base := base + n;
    }
    return Allocated(out);
  }

  // ----- Checking an allocation

  function Inactive(list: seq<NodeInfo>): (r: nat)
    ensures r <= |list|
  {
    if list == [] then 0
    else Inactive(list[..|list| - 1]) + if list[|list| - 1].active then 0 else 1
  }

  /** The members of d that are dealt to a platform with one of the given names. */
  function Dealt(plats: seq<string>, d: set<nat>, names: set<string>): set<nat>
    requires |plats| > 0
  {
    set j | j in d && plats[j % |plats|] in names
  }

  /** The list of s has a place for each of u, of which those of d are inactive. */
  ghost predicate Counted(plats: seq<string>, s: string, list: seq<NodeInfo>, u: set<nat>, d: set<nat>)
    requires |plats| > 0
  {
    |list| == |Dealt(plats, u, {s})| && Inactive(list) == |Dealt(plats, d, {s})|
  }

  ghost predicate Placed(list: seq<NodeInfo>) {
    forall t | 0 <= t < |list| :: list[t].id >= 0
  }

  lemma {:induction false} DealtMore(plats: seq<string>, d: set<nat>, names: set<string>, s: string, more: set<string>)
    requires |plats| > 0 && s !in names && more == names + {s}
    ensures |Dealt(plats, d, more)| == |Dealt(plats, d, names)| + |Dealt(plats, d, {s})|
  {
    assert Dealt(plats, d, more) == Dealt(plats, d, names) + Dealt(plats, d, {s});
    assert Dealt(plats, d, names) !! Dealt(plats, d, {s});
  }

  lemma {:induction false} DealtAll(plats: seq<string>, d: set<nat>, names: set<string>)
    requires |plats| > 0 && forall s | s !in names :: |Dealt(plats, d, {s})| == 0
    ensures Dealt(plats, d, names) == d
  {
    forall j | j in d ensures j in Dealt(plats, d, names) {
      var s := plats[j % |plats|];
      assert j in Dealt(plats, d, {s});
    }
  }

  method CountList(list: seq<NodeInfo>) returns (ok: bool, localDead: nat, localLive: nat)
    ensures ok <==> Placed(list)
    ensures ok ==> localDead == Inactive(list) && localDead + localLive == |list|
  {
    localDead, localLive := 0, 0;
    for t := 0 to |list|
      invariant Placed(list[..t]) && localDead == Inactive(list[..t]) && localDead + localLive == t
    {
      var node := list[t];
      if node.id < 0 {
        return false, 0, 0;
      }
      assert list[..t + 1][..t] == list[..t];
      if !node.active {
        localDead := localDead + 1;
      } else {
        localLive := localLive + 1;
      }
    }
    assert list[..|list|] == list;
    return true, localDead, localLive;
  }

  /** verifyAllocation, which panics when the answer is false. */
  method VerifyAllocation(allocation: Allocation, total: nat, offline: nat, ghost plats: seq<string>, ghost u: set<nat>,
                          ghost d: set<nat>) returns (ok: bool)
    requires |plats| > 0 && forall s :: Counted(plats, s, At(allocation, s), u, d)
    ensures ok <==> (forall s | s in allocation :: Placed(allocation[s])) && |d| == offline && |u| == total
  {
    var dead, live := 0, 0;
    var keys := allocation.Keys;
    ghost var done: set<string> := {};
    while keys != {}
      invariant keys !! done && allocation.Keys == keys + done
      invariant dead == |Dealt(plats, d, done)| && dead + live == |Dealt(plats, u, done)|
      invariant forall s | s in done :: Placed(allocation[s])
      decreases |keys|
    {
      var k :| k in keys;
      assert Counted(plats, k, At(allocation, k), u, d);
      var placed, localDead, localLive := CountList(allocation[k]);
      if !placed {
        return false;
      }
      DealtMore(plats, d, done, k, done + {k});
      DealtMore(plats, u, done, k, done + {k});
      dead, live := dead + localDead, live + localLive;
      keys, done := keys - {k}, done + {k};
    }
    forall s | s !in done ensures |Dealt(plats, d, {s})| == 0 == |Dealt(plats, u, {s})| {
      assert Counted(plats, s, At(allocation, s), u, d);
    }
    DealtAll(plats, d, done);
    DealtAll(plats, u, done);
    return dead == offline && dead + live == total;
  }

  lemma {:induction false} DealtNext(plats: seq<string>, d: set<nat>, j: nat, s: string, more: set<nat>)
    requires |plats| > 0 && j !in d && more == d + {j}
    ensures |Dealt(plats, more, {s})| == |Dealt(plats, d, {s})| + if plats[j % |plats|] == s then 1 else 0
  {
    if plats[j % |plats|] == s {
      assert Dealt(plats, more, {s}) == Dealt(plats, d, {s}) + {j};
    } else {
      assert Dealt(plats, more, {s}) == Dealt(plats, d, {s});
    }
  }

  /** As many ids are dealt to s as the sequence of its ids says. */
  lemma {:induction false} IdsDealt(plats: seq<string>, s: string, k: nat)
    requires |plats| > 0
    ensures |Ids(plats, s, k)| == |Dealt(plats, Upto(k), {s})|
  {
    if k > 0 {
      IdsDealt(plats, s, k - 1);
      DealtNext(plats, Upto(k - 1), k - 1, s, Upto(k));
    }
  }

  lemma {:induction false} FilledInactive(plats: seq<string>, s: string, list: seq<NodeInfo>, total: nat, dead: set<nat>, k: nat)
    requires |plats| > 0 && FilledAt(plats, s, list, total, total, dead) && k <= total
    ensures |Ids(plats, s, k)| <= |list|
    ensures Inactive(list[..|Ids(plats, s, k)|]) == |Dealt(plats, dead * Upto(k), {s})|
  {
    IdsGrow(plats, s, k, total);
    if k > 0 {
      var j: nat := k - 1;
      FilledInactive(plats, s, list, total, dead, j);
      if j in dead {
        DealtNext(plats, dead * Upto(j), j, s, dead * Upto(k));
      } else {
        assert dead * Upto(k) == dead * Upto(j);
      }
      if plats[j % |plats|] == s {
        var m := |Ids(plats, s, j)|;
        assert Ids(plats, s, k)[m] == j;
        assert list[..m + 1][..m] == list[..m];
      }
    }
  }

  lemma {:induction false} FilledCounted(plats: seq<string>, out: Allocation, total: nat, dead: set<nat>, s: string)
    requires |plats| > 0 && Filled(plats, out, total, total, dead) && Below(dead, total)
    ensures Counted(plats, s, At(out, s), Upto(total), dead) && Placed(At(out, s))
  {
    var list := At(out, s);
    assert FilledAt(plats, s, list, total, total, dead);
    FilledInactive(plats, s, list, total, dead, total);
    IdsDealt(plats, s, total);
    assert dead * Upto(total) == dead && list[..|list|] == list;
  }

  /** There are exactly as many nodes in the schedule as should be offline. */
  lemma {:induction false} ScheduleCard(total: nat, offline: nat)
    requires offline <= total
    ensures |Schedule(total, offline)| == offline && Below(Schedule(total, offline), total)
  {
    if offline > 0 {
      MultiplesBelow(total, offline);
      MultiplesCard(total / offline, offline);
    }
  }

  /** Node id is one of the first multiples of total / offline, of which there are to be offline. */
  ghost predicate IsOffline(id: nat, total: nat, offline: nat) {
    offline > 0 && exists k: nat :: k < offline && id == Product(k, total / offline)
  }

  lemma {:induction false} ScheduleIs(total: nat, offline: nat, id: nat)
    ensures id in Schedule(total, offline) <==> IsOffline(id, total, offline)
  {
    MultiplesMembers(Bucket(total, offline), offline, id);
  }

  /** The id has exactly one place: on platform id mod n, active or not as said. */
  ghost predicate OnePlace(plats: seq<string>, out: Allocation, id: nat, active: bool)
    requires |plats| > 0
  {
    var home := plats[id % |plats|];
    exists at: nat ::
      && at < |At(out, home)| && At(out, home)[at] == NodeInfo(id, active)
      && forall s, t | 0 <= t < |At(out, s)| && At(out, s)[t].id == id :: s == home && t == at
  }

  /** Every place holds an id below total. */
  ghost predicate OnlyIds(out: Allocation, total: nat) {
    forall s, t | 0 <= t < |At(out, s)| :: 0 <= At(out, s)[t].id < total
  }

  lemma {:induction false} AllPlacedOnce(plats: seq<string>, out: Allocation, total: nat, offline: nat)
    requires |plats| > 0 && Filled(plats, out, total, total, Schedule(total, offline))
    ensures forall id: nat | id < total :: OnePlace(plats, out, id, !IsOffline(id, total, offline))
    ensures OnlyIds(out, total)
  {
    forall id: nat | id < total ensures OnePlace(plats, out, id, !IsOffline(id, total, offline)) {
      ScheduleIs(total, offline, id);
      var at := PlacedOnce(plats, out, total, Schedule(total, offline), id);
    }
    forall s, t | 0 <= t < |At(out, s)| ensures 0 <= At(out, s)[t].id < total {
      assert FilledAt(plats, s, At(out, s), total, total, Schedule(total, offline));
      assert At(out, s)[t].id == Ids(plats, s, total)[t];
    }
  }

  /** RoundRobin.Allocate; it would not terminate on zero nodes of which some are to be offline. */
  method AllocateRoundRobin(plats: seq<string>, total: nat, offline: nat) returns (r: Outcome)
    requires |plats| > 0 && (total > 0 || offline == 0)
    ensures r.Allocated? <==> offline <= total
    ensures r.Allocated? ==> Filled(plats, r.out, total, total, Schedule(total, offline))
    ensures r.Allocated? ==>
              OnlyIds(r.out, total) && forall id: nat | id < total :: OnePlace(plats, r.out, id, !IsOffline(id, total, offline))
  {
    var reserved := Reserve(plats, total);
    BlankFilled(plats, reserved, total, Schedule(total, offline));
    r := PlaceScheduled(plats, total, offline, reserved);
    if r.Allocated? {
      ScheduleCard(total, offline);
      UptoCard(total);
      forall s ensures Counted(plats, s, At(r.out, s), Upto(total), Schedule(total, offline)) && Placed(At(r.out, s)) {
        FilledCounted(plats, r.out, total, Schedule(total, offline), s);
      }
      assert forall s | s in r.out :: Placed(At(r.out, s));
      AllPlacedOnce(plats, r.out, total, offline);
      var ok := VerifyAllocation(r.out, total, offline, plats, Upto(total), Schedule(total, offline));
      if !ok {
        return Panicked;
      }
    }
  }

  lemma {:induction false} BlankFilled(plats: seq<string>, out: Allocation, total: nat, dead: set<nat>)
    requires |plats| > 0 && forall s :: Blank(At(out, s), |Ids(plats, s, total)|)
    ensures Filled(plats, out, 0, total, dead)
  {
    forall s ensures FilledAt(plats, s, At(out, s), 0, total, dead) {
      assert Blank(At(out, s), |Ids(plats, s, total)|);
    }
  }

  /** Every id has exactly one place: on platform id mod n, and active unless it is in dead. */
  lemma {:induction false} PlacedOnce(plats: seq<string>, out: Allocation, total: nat, dead: set<nat>, id: nat) returns (at: nat)
    requires |plats| > 0 && Filled(plats, out, total, total, dead) && id < total
    ensures var home := plats[id % |plats|];
            && at < |At(out, home)| && At(out, home)[at] == NodeInfo(id, id !in dead)
            && forall s, t | 0 <= t < |At(out, s)| && At(out, s)[t].id == id :: s == home && t == at
  {
    var home := plats[id % |plats|];
    assert FilledAt(plats, home, At(out, home), total, total, dead);
    IdsMembers(plats, home, total);
    at :| 0 <= at < |Ids(plats, home, total)| && Ids(plats, home, total)[at] == id;
    forall s, t | 0 <= t < |At(out, s)| && At(out, s)[t].id == id ensures s == home && t == at {
      assert FilledAt(plats, s, At(out, s), total, total, dead);
      IdsMembers(plats, s, total);
      assert Ids(plats, s, total)[t] in Ids(plats, s, total);
    }
  }

  lemma {:induction false} CountDistinct(plats: seq<string>, p: nat, k: nat)
    requires p < |plats| && k <= |plats| && forall i, j | 0 <= i < j < |plats| :: plats[i] != plats[j]
    ensures Count(plats, plats[p], k) == if p < k then 1 else 0
  {
    if k > 0 { CountDistinct(plats, p, k - 1); }
  }

  /** With distinct names each platform is dealt the quotient, and the first ones one more. */
  lemma {:induction false} IdsShare(plats: seq<string>, k: nat, p: nat, q: nat, r: nat)
    requires p < |plats| && forall i, j | 0 <= i < j < |plats| :: plats[i] != plats[j]
    requires k == q * |plats| + r && r < |plats|
    ensures |Ids(plats, plats[p], k)| == q + if p < r then 1 else 0
  {
    IdsCount(plats, plats[p], q, r);
    CountDistinct(plats, p, |plats|);
    CountDistinct(plats, p, r);
    assert q * 1 == q;
  }

  /** With distinct names the loads of the platforms differ by at most one. */
  lemma {:induction false} LoadsEven(plats: seq<string>, out: Allocation, total: nat, dead: set<nat>, p: nat)
    requires p < |plats| && forall i, j | 0 <= i < j < |plats| :: plats[i] != plats[j]
    requires Filled(plats, out, total, total, dead)
    ensures |At(out, plats[p])| == total / |plats| + if p < total % |plats| then 1 else 0
  {
    assert FilledAt(plats, plats[p], At(out, plats[p]), total, total, dead);
    IdsShare(plats, total, p, total / |plats|, total % |plats|);
  }

  // ----- Choosing the offline nodes at random

  /** The list of s with its ids dealt out, and v nodes made inactive in turn over all the platforms. */
  ghost predicate DrawnAt(plats: seq<string>, s: string, list: seq<NodeInfo>, total: nat, v: nat)
    requires |plats| > 0
  {
    var ids := Ids(plats, s, total);
    && |list| == |ids| && (forall t | 0 <= t < |ids| :: list[t].id == ids[t])
    && Inactive(list) == |Ids(plats, s, v)|
  }

  ghost predicate Drawn(plats: seq<string>, out: Allocation, total: nat, v: nat)
    requires |plats| > 0
  {
    forall s :: DrawnAt(plats, s, At(out, s), total, v)
  }

  lemma {:induction false} SomeActive(list: seq<NodeInfo>)
    requires Inactive(list) < |list|
    ensures exists i :: 0 <= i < |list| && list[i].active
  {
    if !list[|list| - 1].active {
      SomeActive(list[..|list| - 1]);
      var i :| 0 <= i < |list| - 1 && list[..|list| - 1][i].active;
      assert list[i].active;
    }
  }

  lemma {:induction false} Deactivate(list: seq<NodeInfo>, i: nat)
    requires i < |list| && list[i].active
    ensures Inactive(list[i := list[i].(active := false)]) == Inactive(list) + 1
  {
    var m, next := |list| - 1, list[i := list[i].(active := false)];
    if i < m {
      Deactivate(list[..m], i);
      assert next[..m] == list[..m][i := list[i].(active := false)];
    } else {
      assert next[..m] == list[..m];
    }
  }

  /** Every platform visited still has an active node to choose. */
  lemma {:induction false} DrawPossible(plats: seq<string>, out: Allocation, total: nat, v: nat)
    requires |plats| > 0 && Drawn(plats, out, total, v) && v < total
    ensures Inactive(At(out, plats[v % |plats|])) < |At(out, plats[v % |plats|])|
    ensures exists i :: 0 <= i < |At(out, plats[v % |plats|])| && At(out, plats[v % |plats|])[i].active
  {
    var s := plats[v % |plats|];
    assert DrawnAt(plats, s, At(out, s), total, v);
    IdsGrow(plats, s, v + 1, total);
    SomeActive(At(out, s));
  }

  lemma {:induction false} DrawNext(plats: seq<string>, out: Allocation, total: nat, v: nat, s: string, i: nat, next: Allocation)
    requires |plats| > 0 && Drawn(plats, out, total, v) && v < total && s == plats[v % |plats|]
    requires i < |At(out, s)| && At(out, s)[i].active && next == out[s := At(out, s)[i := At(out, s)[i].(active := false)]]
    ensures Drawn(plats, next, total, v + 1)
  {
    forall r ensures DrawnAt(plats, r, At(next, r), total, v + 1) {
      assert DrawnAt(plats, r, At(out, r), total, v);
      if r == s { Deactivate(At(out, s), i); }
    }
  }

  /** Makes any active node of a platform inactive. */
  method DrawOne(plats: seq<string>, s: string, out: Allocation, total: nat, ghost v: nat) returns (next: Allocation)
    requires |plats| > 0 && Drawn(plats, out, total, v) && v < total && s == plats[v % |plats|]
    ensures Drawn(plats, next, total, v + 1)
  {
    DrawPossible(plats, out, total, v);
    var list := At(out, s);
    var i :| 0 <= i < |list| && list[i].active;
    next := out[s := list[i := list[i].(active := false)]];
    DrawNext(plats, out, total, v, s, i, next);
  }

  /** The second loop of RoundRandomOffline: any choice of active nodes, platform after platform. */
  method DrawOffline(plats: seq<string>, total: nat, offline: nat, placed: Allocation) returns (out: Allocation)
    requires |plats| > 0 && offline <= total && Drawn(plats, placed, total, 0)
    ensures Drawn(plats, out, total, offline)
  {
    var n: nat, left: nat := |plats|, offline;
    out := placed;
    ghost var base := 0;
    while left > 0
      invariant left <= offline && Drawn(plats, out, total, offline - left)
      invariant left > 0 ==> offline - left == base && base % n == 0
      decreases left
    {
      for p := 0 to n
        invariant 0 < left <= offline && Drawn(plats, out, total, offline - left) && offline - left == base + p
      {
        InNextRound(base, n, p);
        out := DrawOne(plats, plats[p], out, total, offline - left);
        left := left - 1;
        if left == 0 {
          return;
        }
      }
      InNextRound(base, n, 0);
      base := base + n;
    }
  }

  /** The first loop of RoundRandomOffline. */
  method PlaceAll(plats: seq<string>, total: nat, reserved: Allocation) returns (out: Allocation)
    requires |plats| > 0 && Filled(plats, reserved, 0, total, {})
    ensures Filled(plats, out, total, total, {})
  {
    var n, i: nat := |plats|, 0;
    out := reserved;
    ghost var base := 0;
    while i < total
      invariant i == Min(total, base) && base % n == 0 && Filled(plats, out, i, total, {})
      decreases total - i
    {
      for p := 0 to n
        invariant i == Min(total, base + p) && Filled(plats, out, i, total, {})
      {
        var s := plats[p];
        var list := At(out, s);
        var idx := FindFree(list);
        if i == total {
          NoneFree(plats, out, total, {}, s, idx);
        } else {
          InNextRound(base, n, p);
          PlaceNext(plats, out, i, total, {}, s, list, idx,
                    if idx < |list| then out[s := list[idx := NodeInfo(i, true)]] else out);
        }
        if idx < |list| {
          out, i := out[s := list[idx := NodeInfo(i, true)]], i + 1;
        }
      }
      InNextRound(base, n, 0);
      base := base + n;
    }
  }

  lemma {:induction false} AllActive(list: seq<NodeInfo>)
    requires forall t | 0 <= t < |list| :: list[t].active
    ensures Inactive(list) == 0
  {
    if list != [] { AllActive(list[..|list| - 1]); }
  }

  lemma {:induction false} FilledDrawn(plats: seq<string>, out: Allocation, total: nat)
    requires |plats| > 0 && Filled(plats, out, total, total, {})
    ensures Drawn(plats, out, total, 0)
  {
    forall s ensures DrawnAt(plats, s, At(out, s), total, 0) {
      assert FilledAt(plats, s, At(out, s), total, total, {});
      AllActive(At(out, s));
    }
  }

  lemma {:induction false} DrawnCounted(plats: seq<string>, out: Allocation, total: nat, offline: nat, s: string)
    requires |plats| > 0 && Drawn(plats, out, total, offline)
    ensures Counted(plats, s, At(out, s), Upto(total), Upto(offline)) && Placed(At(out, s))
  {
    assert DrawnAt(plats, s, At(out, s), total, offline);
    IdsDealt(plats, s, total);
    IdsDealt(plats, s, offline);
  }

  /** RoundRandomOffline.Allocate */
  method AllocateRandomOffline(plats: seq<string>, total: nat, offline: nat) returns (r: Outcome)
    requires |plats| > 0 && offline <= total
    ensures r.Allocated? && Drawn(plats, r.out, total, offline)
  {
    var out := Reserve(plats, total);
    BlankFilled(plats, out, total, {});
    out := PlaceAll(plats, total, out);
    FilledDrawn(plats, out, total);
    out := DrawOffline(plats, total, offline, out);
    UptoCard(total);
    UptoCard(offline);
    forall s ensures Counted(plats, s, At(out, s), Upto(total), Upto(offline)) && Placed(At(out, s)) {
      DrawnCounted(plats, out, total, offline, s);
    }
    assert forall s | s in out :: Placed(At(out, s));
    var ok := VerifyAllocation(out, total, offline, plats, Upto(total), Upto(offline));
    if !ok {
      return Panicked;
    }
    return Allocated(out);
  }

  /** With distinct names the numbers of offline nodes on the platforms differ by at most one. */
  lemma {:induction false} OfflineEven(plats: seq<string>, out: Allocation, total: nat, offline: nat, p: nat)
    requires p < |plats| && forall i, j | 0 <= i < j < |plats| :: plats[i] != plats[j]
    requires Drawn(plats, out, total, offline)
    ensures Inactive(At(out, plats[p])) == offline / |plats| + if p < offline % |plats| then 1 else 0
  {
    assert DrawnAt(plats, plats[p], At(out, plats[p]), total, offline);
    IdsShare(plats, offline, p, offline / |plats|, offline % |plats|);
  }
}
