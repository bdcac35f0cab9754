/** Choosing workers for a job, and falling back when one cannot be reached. */
module LoadBalancing {
  import opened Collections
  import opened Graph
  import opened Workflows
  import opened FanIns
  import opened Expansion
  import Scheduler
  import opened Execution

  const U32 := 0x1_0000_0000
  const USIZE := 0x1_0000_0000_0000_0000

  datatype WorkerConfig = Simple(url: string) | Full(url: string, weight: nat)

  function WeightOf(w: WorkerConfig): nat {
    if w.Simple? then 1 else w.weight
  }

  function Weights(workers: seq<WorkerConfig>): (ws: seq<nat>)
    ensures |ws| == |workers| && forall i :: 0 <= i < |ws| ==> ws[i] == WeightOf(workers[i])
  {
    seq(|workers|, i requires 0 <= i < |workers| => WeightOf(workers[i]))
  }

  function Sum(ws: seq<nat>): nat {
    if ws == [] then 0 else Sum(ws[..|ws| - 1]) + ws[|ws| - 1]
  }

  lemma {:induction false} SumPrefix(ws: seq<nat>, i: nat)
    requires i <= |ws|
    ensures Sum(ws[..i]) <= Sum(ws)
    ensures i < |ws| ==> Sum(ws[..i + 1]) == Sum(ws[..i]) + ws[i] <= Sum(ws)
  {
    if i == |ws| {
      assert ws[..i] == ws;
    } else {
      assert ws[..i + 1][..i] == ws[..i];
      if i + 1 == |ws| {
        assert ws[..i + 1] == ws;
      } else {
        SumPrefix(ws[..|ws| - 1], i);
        assert ws[..|ws| - 1][..i] == ws[..i] && ws[..|ws| - 1][..i + 1] == ws[..i + 1];
      }
    }
  }

  // -- Weighted round-robin --------------------------------------------------

  /** The worker whose stretch of the weight line contains the slot. */
  predicate Owns(ws: seq<nat>, slot: nat, i: nat) {
    i < |ws| && Sum(ws[..i]) <= slot < Sum(ws[..i]) + ws[i]
  }

  /** The shared atomic counter; it wraps at 64 bits. */
  class Counter {
    var value: nat

    constructor ()
      ensures value == 0
    {
      value := 0;
    }

    method FetchAdd() returns (before: nat)
      modifies this
      ensures before == old(value) && value == (old(value) + 1) % 0x1_0000_0000_0000_0000
    {
      before := value;
      value := (value + 1) % USIZE;
    }
  }

  /** The index loop, in 32-bit arithmetic.  While the weights add up to less than 2^32 it
      finds the worker that owns the slot, and the trailing fallback is never reached. */
  method OwnerOf(ws: seq<nat>, slot: nat) returns (i: nat)
    ensures ws != [] ==> i < |ws|
    ensures slot < Sum(ws) < U32 ==> Owns(ws, slot, i)
  {
    assert ws[..|ws|] == ws;
    var acc: nat := 0;
    i := 0;
    while i < |ws|
      invariant i <= |ws| && (Sum(ws) < U32 ==> acc == Sum(ws[..i]) && acc <= slot)
    {
      SumPrefix(ws, i);
      acc := (acc + ws[i]) % U32;
      if slot < acc { return; }
      i := i + 1;
    }
    i := 0;
  }

  /** `pick_weighted`.  None is the one panic: no configured worker at all. */
  method PickWeighted(workers: seq<WorkerConfig>, rr: Counter) returns (r: Option<nat>)
    modifies rr
    ensures rr.value == (old(rr.value) + 1) % 0x1_0000_0000_0000_0000
    ensures r.None? <==> workers == []
    ensures r.Some? ==> r.value < |workers|
    ensures var total := Sum(Weights(workers));
            r.Some? && total < 0x1_0000_0000 ==>
              if total == 0 then r.value == old(rr.value) % |workers|
              else Owns(Weights(workers), (old(rr.value) % 0x1_0000_0000) % total, r.value)
  {
    var ws := Weights(workers);
    var total: nat := 0;
    for i := 0 to |ws|
      invariant total < U32 && (Sum(ws) < U32 ==> total == Sum(ws[..i])) && rr.value == old(rr.value)
      invariant ws == [] ==> total == 0
    {
      SumPrefix(ws, i);
      total := (total + ws[i]) % U32;
    }
    assert ws[..|ws|] == ws;
    var n := rr.FetchAdd();
    if total == 0 {
      return if workers == [] then None else Some(n % |workers|);
    }
    var i := OwnerOf(ws, SlotAt(total, U32, n));
    r := Some(i);
  }

  lemma OwnerUnique(ws: seq<nat>, slot: nat, i: nat, k: nat)
    requires Owns(ws, slot, i) && i < k < |ws|
    ensures !Owns(ws, slot, k)
  {
    SumPrefix(ws[..k], i);
    assert ws[..k][..i] == ws[..i] && ws[..k][..i + 1] == ws[..i + 1];
  }

  /** Every slot of the weight line has an owner. */
  function OwnerAt(ws: seq<nat>, slot: nat): (i: nat)
    requires slot < Sum(ws)
    ensures Owns(ws, slot, i)
  {
    var front := ws[..|ws| - 1];
    if slot < Sum(front) then
      var i := OwnerAt(front, slot);
      assert ws[..i] == front[..i];
      i
    else |ws| - 1
  }

  // -- Proportionality -------------------------------------------------------

  /** The counter cast to `wrap` values, taken modulo the total weight. */
  function SlotAt(total: nat, wrap: nat, x: nat): (slot: nat)
    requires total > 0 && wrap > 0
    ensures slot < total
  {
    (x % wrap) % total
  }

  /** How many of the counter values c, c+1, …, c+n-1 pick worker i. */
  function Picks(ws: seq<nat>, wrap: nat, c: nat, n: nat, i: nat): nat
    requires wrap > 0 && Sum(ws) > 0
  {
    if n == 0 then 0
    else Picks(ws, wrap, c, n - 1, i) + if Owns(ws, SlotAt(Sum(ws), wrap, c + n - 1), i) then 1 else 0
  }

  /** The picks of the first k workers together. */
  function PicksOfFirst(ws: seq<nat>, wrap: nat, c: nat, n: nat, k: nat): nat
    requires wrap > 0 && Sum(ws) > 0
  {
    if k == 0 then 0 else PicksOfFirst(ws, wrap, c, n, k - 1) + Picks(ws, wrap, c, n, k - 1)
  }

  lemma {:induction false} OneMorePick(ws: seq<nat>, wrap: nat, c: nat, n: nat, k: nat)
    requires wrap > 0 && Sum(ws) > 0 && k <= |ws|
    ensures PicksOfFirst(ws, wrap, c, n + 1, k) ==
        PicksOfFirst(ws, wrap, c, n, k) + if SlotAt(Sum(ws), wrap, c + n) < Sum(ws[..k]) then 1 else 0
  {
    hide SlotAt, Sum;
    if k > 0 {
      OneMorePick(ws, wrap, c, n, k - 1);
      SumPrefix(ws, k - 1);
    } else {
      EmptySum(ws);
    }
  }

  lemma EmptySum(ws: seq<nat>)
    ensures Sum(ws[..0]) == 0
  {
  }

  /** Every counter value picks exactly one worker: all picks together are as many as counters. */
  lemma {:induction false} PicksAddUp(ws: seq<nat>, wrap: nat, c: nat, n: nat)
    requires wrap > 0 && Sum(ws) > 0
    ensures PicksOfFirst(ws, wrap, c, n, |ws|) == n
  {
    hide SlotAt, Sum, Picks;
    if n == 0 {
      NothingPicked(ws, wrap, c, |ws|);
    } else {
      PicksAddUp(ws, wrap, c, n - 1);
      OneMorePick(ws, wrap, c, n - 1, |ws|);
      assert ws[..|ws|] == ws;
    }
  }

  lemma {:induction false} NothingPicked(ws: seq<nat>, wrap: nat, c: nat, k: nat)
    requires wrap > 0 && Sum(ws) > 0
    ensures PicksOfFirst(ws, wrap, c, 0, k) == 0
  {
    if k > 0 { NothingPicked(ws, wrap, c, k - 1); }
  }

  function Clamp(x: int, high: nat): nat {
    if x < 0 then 0 else if x > high then high else x
  }

  /** On a stretch of counters whose slots are 0, 1, 2, … worker i is picked throughout
      its own part of the weight line and nowhere else. */
  lemma {:induction false} PicksFromZero(ws: seq<nat>, wrap: nat, c: nat, n: nat, i: nat)
    requires i < |ws| && 0 < Sum(ws) && wrap > 0
    requires forall y :: c <= y < c + n ==> SlotAt(Sum(ws), wrap, y) == y - c
    ensures Picks(ws, wrap, c, n, i) == Clamp(n - Sum(ws[..i]), ws[i])
  {
    if n > 0 { PicksFromZero(ws, wrap, c, n - 1, i); }
  }

  lemma {:induction false} PicksSplit(ws: seq<nat>, wrap: nat, c: nat, m: nat, n: nat, i: nat)
    requires wrap > 0 && Sum(ws) > 0
    ensures Picks(ws, wrap, c, m + n, i) == Picks(ws, wrap, c, m, i) + Picks(ws, wrap, c + m, n, i)
  {
    if n > 0 {
      PicksSplit(ws, wrap, c, m, n - 1, i);
      assert c + (m + n) - 1 == (c + m) + n - 1;
    }
  }

  /** Counters below c have the same slot one full turn later. */
  ghost predicate Periodic(total: nat, wrap: nat, c: nat)
    requires total > 0 && wrap > 0
  {
    forall y: nat :: y < c ==> SlotAt(total, wrap, y + total) == SlotAt(total, wrap, y)
  }

  lemma MulAtLeast(k: int, d: int)
    requires d > 0
    ensures k >= 1 ==> k * d >= d
    ensures k <= -1 ==> k * d <= -d
  {
    if k >= 1 { assert k * d == d + (k - 1) * d; }
    if k <= -1 { assert k * d == -d + (k + 1) * d; }
  }

  lemma RemainderUnique(x: nat, q: nat, r: nat, d: nat)
    requires d > 0 && r < d && x == q * d + r
    ensures x % d == r
  {
    var q', r' := x / d, x % d;
    assert x == q' * d + r';
    assert (q - q') * d == q * d - q' * d == r' - r;
    MulAtLeast(q - q', d);
  }

  lemma ModAddMultiple(a: nat, m: nat, d: nat)
    requires d > 0
    ensures (a + m * d) % d == a % d
  {
    var q, r := a / d, a % d;
    assert (q + m) * d == q * d + m * d;
    RemainderUnique(a + m * d, q + m, r, d);
  }

  lemma PeriodicBeforeWrap(total: nat, wrap: nat, c: nat)
    requires 0 < total && c + total <= wrap
    ensures Periodic(total, wrap, c)
  {
    forall y: nat | y < c ensures SlotAt(total, wrap, y + total) == SlotAt(total, wrap, y) {
      RemainderUnique(y, 0, y, wrap);
      RemainderUnique(y + total, 0, y + total, wrap);
      ModAddMultiple(y, 1, total);
    }
  }

  lemma PeriodicAcrossWrap(total: nat, wrap: nat, c: nat)
    requires 0 < total && 0 < wrap && wrap % total == 0
    ensures Periodic(total, wrap, c)
  {
    forall y: nat | y < c ensures SlotAt(total, wrap, y + total) == SlotAt(total, wrap, y) {
      ModOfMod(y, wrap, total);
      ModOfMod(y + total, wrap, total);
      ModAddMultiple(y, 1, total);
    }
  }

  lemma ModOfMod(y: nat, wrap: nat, total: nat)
    requires 0 < total && 0 < wrap && wrap % total == 0
    ensures (y % wrap) % total == y % total
  {
    var q, r, m := y / wrap, y % wrap, wrap / total;
    assert wrap == m * total;
    assert y == q * wrap + r;
    Regroup(q, m, total, wrap);
    ModAddMultiple(r, q * m, total);
  }

  lemma Regroup(q: nat, m: nat, total: nat, wrap: nat)
    requires wrap == m * total
    ensures q * wrap == (q * m) * total
  {
  }

  /** One full turn gives every worker exactly its weight, wherever it starts. */
  lemma {:induction false} FullTurn(ws: seq<nat>, wrap: nat, c: nat, i: nat)
    requires i < |ws| && 0 < Sum(ws) <= wrap && Periodic(Sum(ws), wrap, c)
    ensures Picks(ws, wrap, c, Sum(ws), i) == ws[i]
  {
    var total := Sum(ws);
    if c == 0 {
      forall y: nat | y < total ensures SlotAt(total, wrap, y) == y {
        RemainderUnique(y, 0, y, wrap);
        RemainderUnique(y, 0, y, total);
      }
      PicksFromZero(ws, wrap, 0, total, i);
      SumPrefix(ws, i);
    } else {
      hide SlotAt, Owns, Sum;
      FullTurn(ws, wrap, c - 1, i);
      PicksSplit(ws, wrap, c - 1, 1, total, i);
      PicksSplit(ws, wrap, c - 1, total, 1, i);
      assert SlotAt(total, wrap, (c - 1) + total) == SlotAt(total, wrap, c - 1);
      assert 1 + total == total + 1;
    }
  }

  lemma {:induction false} ManyTurns(ws: seq<nat>, wrap: nat, c: nat, k: nat, i: nat)
    requires i < |ws| && 0 < Sum(ws) <= wrap && Periodic(Sum(ws), wrap, c + k * Sum(ws))
    ensures Picks(ws, wrap, c, k * Sum(ws), i) == k * ws[i]
  {
    if k > 0 {
      var total := Sum(ws);
      assert k * total == (k - 1) * total + total;
      ManyTurns(ws, wrap, c, k - 1, i);
      PicksSplit(ws, wrap, c, (k - 1) * total, total, i);
      FullTurn(ws, wrap, c + (k - 1) * total, i);
      assert (k - 1) * ws[i] + ws[i] == k * ws[i];
    }
  }

  /** The counter only matters modulo 2^32. */
  lemma {:induction false} PicksShift(ws: seq<nat>, c: nat, q: nat, n: nat, i: nat)
    requires Sum(ws) > 0
    ensures Picks(ws, U32, q * U32 + c, n, i) == Picks(ws, U32, c, n, i)
  {
    hide Owns, Sum, SlotAt;
    if n > 0 {
      PicksShift(ws, c, q, n - 1, i);
      SlotShift(Sum(ws), c + n - 1, q);
    }
  }

  lemma SlotShift(total: nat, x: nat, q: nat)
    requires total > 0
    ensures SlotAt(total, U32, q * U32 + x) == SlotAt(total, U32, x)
  {
    ModAddMultiple(x, q, U32);
  }

  /** Weighted round-robin is exactly proportional: k full turns of consecutive counter
      values that do not cross a multiple of 2^32 pick worker i exactly k times its weight. */
  lemma ExactlyProportional(ws: seq<nat>, c: nat, k: nat, i: nat)
    requires i < |ws| && Sum(ws) > 0 && k > 0 && c % 0x1_0000_0000 + k * Sum(ws) <= 0x1_0000_0000
    ensures Picks(ws, U32, c, k * Sum(ws), i) == k * ws[i]
  {
    var total, c', q := Sum(ws), c % U32, c / U32;
    TurnsFit(ws, c', k);
    WithinWrap(ws, c', k, i);
    PicksShift(ws, c', q, k * total, i);
    assert c == q * U32 + c';
  }

  lemma TurnsFit(ws: seq<nat>, c: nat, k: nat)
    requires Sum(ws) > 0 && k > 0 && c + k * Sum(ws) <= U32
    ensures Sum(ws) <= k * Sum(ws) <= U32
  {
    MulAtLeast(k, Sum(ws));
  }

  function Times(k: nat, x: nat): nat {
    k * x
  }

  lemma OneMore(k: nat, x: nat)
    ensures Times(0, x) == 0
    ensures k > 0 ==> Times(k, x) == Times(k - 1, x) + x
  {
    if k > 0 { assert k * x == (k - 1) * x + x; }
  }

  /** Turn by turn, so that no slot beyond the last counter is looked at. */
  lemma {:induction false} WithinWrap(ws: seq<nat>, c: nat, k: nat, i: nat)
    requires i < |ws| && 0 < Sum(ws) && c + Times(k, Sum(ws)) <= U32
    ensures Picks(ws, U32, c, Times(k, Sum(ws)), i) == Times(k, ws[i])
  {
    hide Times, Sum, Owns, SlotAt, Periodic;
    OneMore(k, Sum(ws));
    OneMore(k, ws[i]);
    if k > 0 {
      WithinWrap(ws, c, k - 1, i);
      LastTurn(ws, c, Times(k - 1, Sum(ws)), i);
    }
  }

  lemma LastTurn(ws: seq<nat>, c: nat, before: nat, i: nat)
    requires i < |ws| && 0 < Sum(ws) && c + before + Sum(ws) <= U32
    ensures Picks(ws, U32, c, before + Sum(ws), i) == Picks(ws, U32, c, before, i) + ws[i]
  {
    hide Sum, Owns, SlotAt, Periodic, Picks;
    PicksSplit(ws, U32, c, before, Sum(ws), i);
    PeriodicBeforeWrap(Sum(ws), U32, c + before);
    FullTurn(ws, U32, c + before, i);
  }

  ghost predicate AlwaysProportional(ws: seq<nat>)
    requires Sum(ws) > 0
  {
    forall c: nat, k: nat, i: nat :: i < |ws| ==> Picks(ws, U32, c, k * Sum(ws), i) == k * ws[i]
  }

  /** Windows that do cross a wrap are proportional too exactly if the total weight
      divides 2^32, or one worker carries all the weight. */
  lemma ProportionalAcrossWrap(ws: seq<nat>)
    requires 0 < Sum(ws) <= 0x1_0000_0000
    ensures AlwaysProportional(ws) <==> 0x1_0000_0000 % Sum(ws) == 0 || exists i :: 0 <= i < |ws| && ws[i] == Sum(ws)
  {
    if U32 % Sum(ws) == 0 {
      forall c: nat, k: nat, i: nat | i < |ws| ensures Picks(ws, U32, c, k * Sum(ws), i) == k * ws[i] {
        PeriodicAcrossWrap(Sum(ws), U32, c + k * Sum(ws));
        ManyTurns(ws, U32, c, k, i);
      }
    } else if i :| 0 <= i < |ws| && ws[i] == Sum(ws) {
      OnlyWorker(ws, i);
    } else {
      var i := OwnerAt(ws, Sum(ws) - 1);
      WrapStarves(ws, i);
      assert 1 * Sum(ws) == Sum(ws);
      assert Picks(ws, U32, U32 - U32 % Sum(ws), 1 * Sum(ws), i) != 1 * ws[i];
    }
  }

  lemma OnlyWorker(ws: seq<nat>, i: nat)
    requires i < |ws| && ws[i] == Sum(ws) > 0
    ensures AlwaysProportional(ws)
  {
    forall c: nat, k: nat, j: nat | j < |ws| ensures Picks(ws, U32, c, k * Sum(ws), j) == k * ws[j] {
      AlwaysPicked(ws, i, c, k * Sum(ws), j);
      if j != i { OthersWeightless(ws, i, j); }
    }
  }

  lemma OthersWeightless(ws: seq<nat>, i: nat, j: nat)
    requires i < |ws| && j < |ws| && i != j && ws[i] == Sum(ws)
    ensures ws[j] == 0
  {
    SumPrefix(ws, i);
    SumPrefix(ws, j);
    if j < i {
      SumPrefix(ws[..i], j);
      assert ws[..i][..j] == ws[..j] && ws[..i][..j + 1] == ws[..j + 1];
    } else {
      SumPrefix(ws[..j], i);
      assert ws[..j][..i] == ws[..i] && ws[..j][..i + 1] == ws[..i + 1];
    }
  }

  lemma {:induction false} AlwaysPicked(ws: seq<nat>, i: nat, c: nat, n: nat, j: nat)
    requires i < |ws| && j < |ws| && ws[i] == Sum(ws) > 0
    ensures Picks(ws, U32, c, n, j) == if j == i then n else 0
  {
    SumPrefix(ws, i);
    if j != i { OthersWeightless(ws, i, j); }
    if n > 0 { AlwaysPicked(ws, i, c, n - 1, j); }
  }

  /** The turn that straddles the wrap serves the first slots twice and the last never. */
  lemma WrapStarves(ws: seq<nat>, i: nat)
    requires 0 < Sum(ws) <= U32 && U32 % Sum(ws) != 0
    requires Owns(ws, Sum(ws) - 1, i) && ws[i] != Sum(ws)
    ensures Picks(ws, U32, U32 - U32 % Sum(ws), Sum(ws), i) < ws[i]
  {
    hide SlotAt, Picks, Clamp, Sum;
    var total := Sum(ws);
    StraddlingSlots(total);
    SumPrefix(ws, i);
    StarvedTurn(ws, U32 - U32 % total, U32 % total, i);
  }

  lemma StarvedTurn(ws: seq<nat>, c: nat, r: nat, i: nat)
    requires i < |ws| && 0 < r < Sum(ws) && c + r == U32
    requires forall y :: c <= y < c + r ==> SlotAt(Sum(ws), U32, y) == y - c
    requires forall y :: U32 <= y < U32 + (Sum(ws) - r) ==> SlotAt(Sum(ws), U32, y) == y - U32
    requires Sum(ws[..i]) + ws[i] == Sum(ws) && 0 < Sum(ws[..i]) && 0 < ws[i]
    ensures Picks(ws, U32, c, Sum(ws), i) < ws[i]
  {
    hide SlotAt, Sum, Picks, Clamp;
    var total := Sum(ws);
    PicksFromZero(ws, U32, c, r, i);
    PicksFromZero(ws, U32, U32, total - r, i);
    PicksSplit(ws, U32, c, r, total - r, i);
    assert r + (total - r) == total;
    TwoShortParts(total, Sum(ws[..i]), ws[i], r);
  }

  lemma TwoShortParts(total: nat, a: nat, w: nat, r: nat)
    requires a + w == total && 0 < a && 0 < w && 0 < r < total
    ensures Clamp(r - a, w) + Clamp(total - r - a, w) < w
  {
  }

  lemma StraddlingSlots(total: nat)
    requires 0 < total <= U32
    ensures var r := U32 % total;
            && (forall y :: U32 - r <= y < U32 ==> SlotAt(total, U32, y) == y - (U32 - r))
            && (forall y :: U32 <= y < U32 + (total - r) ==> SlotAt(total, U32, y) == y - U32)
  {
    var r, q := U32 % total, U32 / total;
    forall y | U32 - r <= y < U32 ensures SlotAt(total, U32, y) == y - (U32 - r) {
      RemainderUnique(y, q, y - (U32 - r), total);
    }
    forall y | U32 <= y < U32 + (total - r) ensures SlotAt(total, U32, y) == y - U32 {
      RemainderUnique(y, 1, y - U32, U32);
      RemainderUnique(y - U32, 0, y - U32, total);
    }
  }

  // -- Candidate lists -------------------------------------------------------

  datatype Strategy = RoundRobin | Weighted | LeastConn

  /** All workers once, beginning with number `start`. */
  function Rotation<T>(workers: seq<T>, start: nat): (r: seq<T>)
    requires workers != []
    ensures |r| == |workers|
  {
    var n := |workers|;
    seq(n, i requires 0 <= i < n => workers[(start + i) % n])
  }

  lemma RotatedIndex(start: nat, n: nat, i: nat)
    requires i < n
    ensures var s := start % n; (start + i) % n == if s + i < n then s + i else s + i - n
  {
    var s, q := start % n, start / n;
    if s + i < n {
      RemainderUnique(start + i, q, s + i, n);
    } else {
      assert (q + 1) * n == q * n + n;
      RemainderUnique(start + i, q + 1, s + i - n, n);
    }
  }

  lemma RotationIsPermutation<T>(workers: seq<T>, start: nat)
    requires workers != []
    ensures multiset(Rotation(workers, start)) == multiset(workers)
    ensures Rotation(workers, start)[0] == workers[start % |workers|]
    ensures var s := start % |workers|; Rotation(workers, start) == workers[s..] + workers[..s]
  {
    var n, s := |workers|, start % |workers|;
    var r := Rotation(workers, start);
    forall i | 0 <= i < n ensures r[i] == (workers[s..] + workers[..s])[i] {
      RotatedIndex(start, n, i);
    }
    assert r == workers[s..] + workers[..s];
    assert workers == workers[..s] + workers[s..];
  }

  /** `resolve_workers`; `leastLoaded` is the index a health poll came up with.  None is a
      panic: the weighted strategy divides by the number of configured workers, which is
      zero when all healthy workers were discovered rather than configured. */
  method ResolveWorkers(pinned: Option<string>, healthy: seq<string>, configured: seq<WorkerConfig>,
                        strategy: Strategy, leastLoaded: nat, rr: Counter) returns (r: Option<seq<string>>)
    modifies rr
    ensures r.None? <==> pinned.None? && healthy != [] && strategy.Weighted? && configured == []
    ensures rr.value == if pinned.None? && healthy != [] && !strategy.LeastConn?
                        then (old(rr.value) + 1) % 0x1_0000_0000_0000_0000 else old(rr.value)
    ensures pinned.Some? ==> r == Some([pinned.value])
    ensures pinned.None? && healthy == [] ==> r == Some([])
    ensures pinned.None? && r.Some? ==> multiset(r.value) == multiset(healthy)
    ensures pinned.None? && r.Some? && healthy != [] ==>
        exists s :: 0 <= s < |healthy| && r.value == healthy[s..] + healthy[..s]
    ensures pinned.None? && healthy != [] && strategy.RoundRobin? ==> r.value[0] == healthy[old(rr.value) % |healthy|]
    ensures pinned.None? && healthy != [] && strategy.LeastConn? ==> r.value[0] == healthy[leastLoaded % |healthy|]
    ensures pinned.None? && healthy != [] && strategy.Weighted? && 0 < Sum(Weights(configured)) < U32 ==>
        exists i: nat :: Owns(Weights(configured), SlotAt(Sum(Weights(configured)), U32, old(rr.value)), i)
                 && r.value[0] == healthy[i % |healthy|]
    ensures pinned.None? && healthy != [] && strategy.Weighted? && configured != [] && Sum(Weights(configured)) == 0 ==>
        r.value[0] == healthy[(old(rr.value) % |configured|) % |healthy|]
  {
    if pinned.Some? { return Some([pinned.value]); }
    if healthy == [] { return Some([]); }
    var start := leastLoaded;
    if strategy.RoundRobin? {
      var n := rr.FetchAdd();
      start := n % |healthy|;
    } else if strategy.Weighted? {
      var picked := PickWeighted(configured, rr);
      if picked.None? { return None; }
      start := picked.value;
    }
    RotationIsPermutation(healthy, start);
    if strategy.RoundRobin? { RemainderUnique(start, 0, start, |healthy|); }
    r := Some(Rotation(healthy, start));
  }

  // -- Weights per URL -------------------------------------------------------

  function Urls(workers: seq<WorkerConfig>): (r: seq<string>)
    ensures |r| == |workers| && forall i :: 0 <= i < |r| ==> r[i] == workers[i].url
  {
    seq(|workers|, i requires 0 <= i < |workers| => workers[i].url)
  }

  /** The worker tried first at counter value x: the index found among the configured
      workers is used on the list of healthy ones. */
  function Primary(configured: seq<WorkerConfig>, healthy: seq<string>, x: nat): string
    requires Sum(Weights(configured)) > 0 && healthy != []
  {
    healthy[OwnerAt(Weights(configured), SlotAt(Sum(Weights(configured)), U32, x)) % |healthy|]
  }

  /** How many of the counter values c, …, c+n-1 try url first. */
  function Firsts(configured: seq<WorkerConfig>, healthy: seq<string>, c: nat, n: nat, url: string): nat
    requires Sum(Weights(configured)) > 0 && healthy != []
  {
    if n == 0 then 0
    else Firsts(configured, healthy, c, n - 1, url) + if Primary(configured, healthy, c + n - 1) == url then 1 else 0
  }

  lemma OwnerIs(ws: seq<nat>, slot: nat, i: nat)
    requires slot < Sum(ws) && i < |ws|
    ensures Owns(ws, slot, i) <==> OwnerAt(ws, slot) == i
  {
    var o := OwnerAt(ws, slot);
    hide OwnerAt;
    if o < i { OwnerUnique(ws, slot, o, i); }
    if i < o && Owns(ws, slot, i) { OwnerUnique(ws, slot, i, o); }
  }

  /** The weight that falls to url: each configured worker's weight goes to the healthy
      worker that stands at its index, counted around. */
  function Share(ws: seq<nat>, healthy: seq<string>, url: string): nat
    requires healthy != []
  {
    if ws == [] then 0
    else
      var n := |ws| - 1;
      Share(ws[..n], healthy, url) + if healthy[n % |healthy|] == url then ws[n] else 0
  }

  /** The picks, among the first m workers, that try url first. */
  function PicksFor(ws: seq<nat>, healthy: seq<string>, c: nat, n: nat, url: string, m: nat): nat
    requires Sum(ws) > 0 && healthy != []
  {
    if m == 0 then 0
    else PicksFor(ws, healthy, c, n, url, m - 1)
         + if healthy[(m - 1) % |healthy|] == url then Picks(ws, U32, c, n, m - 1) else 0
  }

  lemma {:induction false} NextPickFor(ws: seq<nat>, healthy: seq<string>, c: nat, n: nat, url: string, m: nat)
    requires Sum(ws) > 0 && healthy != [] && m <= |ws|
    ensures var o := OwnerAt(ws, SlotAt(Sum(ws), U32, c + n));
            PicksFor(ws, healthy, c, n + 1, url, m) ==
              PicksFor(ws, healthy, c, n, url, m) + if o < m && healthy[o % |healthy|] == url then 1 else 0
  {
    hide OwnerAt, SlotAt, Sum, Owns;
    if m > 0 {
      NextPickFor(ws, healthy, c, n, url, m - 1);
      OwnerIs(ws, SlotAt(Sum(ws), U32, c + n), m - 1);
    }
  }

  lemma {:induction false} NoPickFor(ws: seq<nat>, healthy: seq<string>, c: nat, url: string, m: nat)
    requires Sum(ws) > 0 && healthy != []
    ensures PicksFor(ws, healthy, c, 0, url, m) == 0
  {
    if m > 0 { NoPickFor(ws, healthy, c, url, m - 1); }
  }

  lemma {:induction false} FirstsArePicks(configured: seq<WorkerConfig>, healthy: seq<string>,
                                        c: nat, n: nat, url: string)
    requires Sum(Weights(configured)) > 0 && healthy != []
    ensures Firsts(configured, healthy, c, n, url) == PicksFor(Weights(configured), healthy, c, n, url, |configured|)
  {
    hide OwnerAt, Owns, SlotAt, Sum, PicksFor;
    var ws := Weights(configured);
    if n > 0 {
      FirstsArePicks(configured, healthy, c, n - 1, url);
      NextPickFor(ws, healthy, c, n - 1, url, |ws|);
      OwnerInRange(ws, SlotAt(Sum(ws), U32, c + n - 1));
    } else {
      NoPickFor(ws, healthy, c, url, |ws|);
    }
  }

  lemma {:induction false} PicksAreShares(ws: seq<nat>, healthy: seq<string>, c: nat, k: nat, url: string, m: nat)
    requires healthy != [] && m <= |ws| && 0 < Sum(ws) && k > 0 && c % U32 + k * Sum(ws) <= U32
    ensures PicksFor(ws, healthy, c, k * Sum(ws), url, m) == k * Share(ws[..m], healthy, url)
  {
    hide Sum, Picks;
    if m > 0 {
      PicksAreShares(ws, healthy, c, k, url, m - 1);
      ExactlyProportional(ws, c, k, m - 1);
      assert ws[..m][..m - 1] == ws[..m - 1];
      Distribute(k, Share(ws[..m - 1], healthy, url), ws[m - 1]);
    }
  }

  lemma Distribute(k: nat, a: nat, b: nat)
    ensures k * (a + b) == k * a + k * b
  {
  }

  lemma OwnerInRange(ws: seq<nat>, slot: nat)
    requires slot < Sum(ws)
    ensures OwnerAt(ws, slot) < |ws|
  {
  }

  /** The general law: whatever workers are healthy, k turns try each URL first exactly k times
      its share. */
  lemma FirstsAreShares(configured: seq<WorkerConfig>, healthy: seq<string>, c: nat, k: nat, url: string)
    requires healthy != [] && k > 0
    requires 0 < Sum(Weights(configured)) && c % U32 + k * Sum(Weights(configured)) <= U32
    ensures Firsts(configured, healthy, c, k * Sum(Weights(configured)), url) ==
          k * Share(Weights(configured), healthy, url)
  {
    hide Sum, Firsts, PicksFor, Share;
    var ws := Weights(configured);
    FirstsArePicks(configured, healthy, c, k * Sum(ws), url);
    PicksAreShares(ws, healthy, c, k, url, |ws|);
    assert ws[..|ws|] == ws;
  }

  /** So a worker is tried in proportion to its own weight exactly if its share is its weight. */
  lemma ProportionalExactly(configured: seq<WorkerConfig>, healthy: seq<string>, c: nat, k: nat, i: nat)
    requires healthy != [] && i < |configured| && k > 0
    requires 0 < Sum(Weights(configured)) && c % U32 + k * Sum(Weights(configured)) <= U32
    ensures Firsts(configured, healthy, c, k * Sum(Weights(configured)), configured[i].url) ==
          k * WeightOf(configured[i])
       <==> Share(Weights(configured), healthy, configured[i].url) == WeightOf(configured[i])
  {
    hide Sum, Firsts, Share;
    FirstsAreShares(configured, healthy, c, k, configured[i].url);
    var a, b := Share(Weights(configured), healthy, configured[i].url), WeightOf(configured[i]);
    if k * a == k * b {
      assert k * (a - b) == 0;
      MulAtLeast(a - b, k);
    }
  }

  lemma {:induction false} ShareOfConfigured(configured: seq<WorkerConfig>, m: nat, i: nat)
    requires m <= |configured| && i < |configured| && NoDup(Urls(configured))
    ensures Share(Weights(configured)[..m], Urls(configured), configured[i].url) ==
          if i < m then WeightOf(configured[i]) else 0
  {
    if m > 0 {
      ShareOfConfigured(configured, m - 1, i);
      assert Weights(configured)[..m][..m - 1] == Weights(configured)[..m - 1];
      RemainderUnique(m - 1, 0, m - 1, |configured|);
      assert Urls(configured)[m - 1] == configured[i].url <==> m - 1 == i;
    }
  }

  /** While the healthy workers are the configured ones, every URL is tried first in exact
      proportion to its weight. */
  lemma EachUrlGetsItsWeight(configured: seq<WorkerConfig>, c: nat, k: nat, i: nat)
    requires i < |configured| && NoDup(Urls(configured)) && k > 0
    requires Sum(Weights(configured)) > 0 && c % U32 + k * Sum(Weights(configured)) <= U32
    ensures Firsts(configured, Urls(configured), c, k * Sum(Weights(configured)), configured[i].url) ==
          k * WeightOf(configured[i])
  {
    hide Sum, Firsts;
    FirstsAreShares(configured, Urls(configured), c, k, configured[i].url);
    ShareOfConfigured(configured, |configured|, i);
    assert Weights(configured)[..|configured|] == Weights(configured);
  }

  /** Workers given by their URL only share equally. */
  lemma PlainWorkersShareEqually(configured: seq<WorkerConfig>, c: nat, k: nat, i: nat)
    requires i < |configured| && NoDup(Urls(configured)) && k > 0 && (forall w :: w in configured ==> w.Simple?)
    requires Sum(Weights(configured)) > 0 && c % U32 + k * Sum(Weights(configured)) <= U32
    ensures Firsts(configured, Urls(configured), c, k * Sum(Weights(configured)), configured[i].url) == k
  {
    hide Sum, Firsts;
    EachUrlGetsItsWeight(configured, c, k, i);
    assert WeightOf(configured[i]) == 1;
  }

  /** With one worker down they are not: a, b and c have weights 1, 1 and 2; while a is down,
      b is tried first three times out of four. */
  lemma WeightsShiftWhenAWorkerIsDown(c: nat, k: nat)
    requires k > 0 && c % U32 + k * 4 <= U32
    ensures var configured := [Full("a", 1), Full("b", 1), Full("c", 2)];
            && Sum(Weights(configured)) == 4
            && Firsts(configured, ["b", "c"], c, k * 4, "b") == k * 3
            && Firsts(configured, ["b", "c"], c, k * 4, "c") == k
  {
    var configured := [Full("a", 1), Full("b", 1), Full("c", 2)];
    SmallWeights();
    SmallShares();
    hide Sum, Firsts, Share;
    FirstsAreShares(configured, ["b", "c"], c, k, "b");
    FirstsAreShares(configured, ["b", "c"], c, k, "c");
  }

  lemma SmallWeights()
    ensures var ws: seq<nat> := [1, 1, 2]; Weights([Full("a", 1), Full("b", 1), Full("c", 2)]) == ws && Sum(ws) == 4
  {
    var ws: seq<nat> := [1, 1, 2];
    assert ws[..2] == [1, 1] && ws[..2][..1] == [1];
    assert [1, 1][..1] == [1] && [1][..0] == [];
    assert Sum([]) == 0 && Sum([1]) == 1 && Sum([1, 1]) == 2;
  }

  lemma ShareNext(ws: seq<nat>, w: nat, healthy: seq<string>, url: string)
    requires healthy != []
    ensures Share(ws + [w], healthy, url) == Share(ws, healthy, url) + if healthy[|ws| % |healthy|] == url then w else 0
  {
    assert (ws + [w])[..|ws|] == ws;
  }

  lemma SmallShares()
    ensures var ws: seq<nat> := [1, 1, 2]; Share(ws, ["b", "c"], "b") == 3 && Share(ws, ["b", "c"], "c") == 1
  {
    var ws: seq<nat> := [1, 1, 2];
    var healthy := ["b", "c"];
    assert ws == ([] + [1] + [1]) + [2];
    assert healthy[0] == "b" && healthy[1] == "c" && "b" != "c" by { assert "b"[0] != "c"[0]; }
    forall url | url in healthy ensures Share(ws, healthy, url) == if url == "b" then 3 else 1 {
      ShareNext([], 1, healthy, url);
      ShareNext([] + [1], 1, healthy, url);
      ShareNext([] + [1] + [1], 2, healthy, url);
    }
  }

  // -- Failover --------------------------------------------------------------

  datatype Answer = Output(bytes: Bytes) | Unreachable | ExecutionFailed(why: string)

  datatype Dispatch = Delivered(bytes: Bytes) | Rejected(tried: seq<string>) | Panicked

  /** The first worker that is not unreachable, or the last one. */
  function Decider(workers: seq<string>, ask: nat -> Answer): (i: nat)
    requires workers != []
    ensures i < |workers| && forall k :: 0 <= k < i ==> ask(k).Unreachable?
    ensures i == |workers| - 1 || !ask(i).Unreachable?
  {
    FirstReachable(workers, ask, 0)
  }

  function FirstReachable(workers: seq<string>, ask: nat -> Answer, from: nat): (i: nat)
    requires from < |workers|
    ensures from <= i < |workers| && forall k :: from <= k < i ==> ask(k).Unreachable?
    ensures i == |workers| - 1 || !ask(i).Unreachable?
    decreases |workers| - from
  {
    if from == |workers| - 1 || !ask(from).Unreachable? then from else FirstReachable(workers, ask, from + 1)
  }

  /** `run_with_failover`: every worker up to the deciding one is asked exactly once, in
      order; later ones never.  ask(i) is what the i-th worker would answer. */
  method RunWithFailover(workers: seq<string>, ask: nat -> Answer) returns (r: Dispatch, asked: seq<string>)
    ensures r.Panicked? <==> workers == []
    ensures workers != [] ==> var i := Decider(workers, ask);
        && asked == workers[..i + 1]
        && (ask(i).Output? ==> r == Delivered(ask(i).bytes))
        && (!ask(i).Output? ==> r == Rejected(workers[..i + 1]))
  {
    asked := [];
    for i := 0 to |workers|
      invariant asked == workers[..i]
      invariant i < |workers| ==> Decider(workers, ask) == FirstReachable(workers, ask, i)
      invariant workers != [] ==> i < |workers|
    {
      asked := asked + [workers[i]];
      var last := i + 1 == |workers|;
      match ask(i)
      case Output(bytes) => return Delivered(bytes), asked;
      case Unreachable => if last { return Rejected(asked), asked; }
      case ExecutionFailed(_) => return Rejected(asked), asked;
    }
    r := Panicked;
  }

  /** A remote job has candidates if it names a worker or a healthy one exists. */
  lemma RemoteJobsHaveCandidates(jobs: map<Id, JobDef>, healthy: seq<string>, j: Id, candidates: seq<string>)
    requires j in jobs && jobs[j].executor.Remote?
    requires healthy != [] || forall k :: k in jobs && jobs[k].executor == Remote ==> jobs[k].worker != None
    requires jobs[j].worker.Some? ==> candidates == [jobs[j].worker.value]
    requires jobs[j].worker.None? ==> multiset(candidates) == multiset(healthy)
    ensures candidates != []
  {
    if jobs[j].worker.None? { assert healthy[0] in multiset(healthy); }
  }

  /** The i-th worker answers, the earlier ones are unreachable. */
  ghost predicate FirstToAnswer(urls: seq<string>, answers: string -> Answer, i: int) {
    && 0 <= i < |urls| && !answers(urls[i]).Unreachable?
    && forall k :: 0 <= k < i ==> answers(urls[k]).Unreachable?
  }

  lemma FirstIsDecider(urls: seq<string>, answers: string -> Answer, ask: nat -> Answer)
    requires urls != [] && forall i: nat :: i < |urls| ==> ask(i) == answers(urls[i])
    ensures forall i :: FirstToAnswer(urls, answers, i) ==> Decider(urls, ask) == i
    ensures (forall i :: 0 <= i < |urls| ==> answers(urls[i]).Unreachable?) ==> Decider(urls, ask) == |urls| - 1
  {
    hide FirstReachable;
    var d := Decider(urls, ask);
    forall i | FirstToAnswer(urls, answers, i) ensures d == i {
      assert ask(i) == answers(urls[i]) && ask(d) == answers(urls[d]);
      assert !(i < d) && !(d < i);
    }
  }

  /** The failover for workers known by their URLs. */
  method AskByUrl(urls: seq<string>, answers: string -> Answer) returns (d: Dispatch)
    requires urls != []
    ensures !d.Panicked?
    ensures d.Delivered? ==> exists url :: url in urls && answers(url) == Output(d.bytes)
    ensures forall i :: FirstToAnswer(urls, answers, i) ==>
        d == match answers(urls[i]) { case Output(bytes) => Delivered(bytes) case _ => Rejected(urls[..i + 1]) }
    ensures (forall i :: 0 <= i < |urls| ==> answers(urls[i]).Unreachable?) ==> d == Rejected(urls)
  {
    hide Decider, FirstReachable;
    var ask := (i: nat) => if i < |urls| then answers(urls[i]) else Unreachable;
    var asked;
    d, asked := RunWithFailover(urls, ask);
    FirstIsDecider(urls, answers, ask);
    ghost var i := Decider(urls, ask);
    assert ask(i) == answers(urls[i]) && urls[i] in urls;
    assert urls[..|urls|] == urls;
  }

  /** From the check before the run to the answer of a worker.  Refused workflows dispatch
      nothing; otherwise a remote job of the expanded workflow is never dispatched to an
      empty list, so the one panic left is the weighted strategy's.  answers(url) is what
      the worker at url would answer. */
  method DispatchRemote(wf: Workflow, ex: Extractor, j: Id, healthy: seq<string>, configured: seq<WorkerConfig>,
                        strategy: Strategy, leastLoaded: nat, rr: Counter, answers: string -> Answer)
    returns (r: Option<Dispatch>, urls: seq<string>)
    requires wf.WellFormed()
    modifies rr
    ensures r.Some? <==> Accepted(wf, healthy != [], ex)
                         && var jobs := Expand(wf, None, ex).value.workflow.jobs; j in jobs && jobs[j].executor.Remote?
    ensures r.Some? ==>
        var pinned := Expand(wf, None, ex).value.workflow.jobs[j].worker;
        && (r.value.Panicked? <==> pinned.None? && strategy.Weighted? && configured == [])
        && (r.value.Delivered? ==> exists url :: (if pinned.Some? then url == pinned.value else url in healthy)
                                                 && answers(url) == Output(r.value.bytes))
    ensures r.Some? && !r.value.Panicked? ==>
        var pinned := Expand(wf, None, ex).value.workflow.jobs[j].worker;
        && urls != []
        && (pinned.Some? ==> urls == [pinned.value])
        && (pinned.None? ==> multiset(urls) == multiset(healthy) && healthy != [])
        && (pinned.None? && strategy.RoundRobin? ==> urls[0] == healthy[old(rr.value) % |healthy|])
        && (pinned.None? && strategy.LeastConn? ==> urls[0] == healthy[leastLoaded % |healthy|])
    ensures r.Some? && !r.value.Panicked? ==> forall i :: FirstToAnswer(urls, answers, i) ==>
        r.value == match answers(urls[i]) { case Output(bytes) => Delivered(bytes) case _ => Rejected(urls[..i + 1]) }
    ensures r.Some? && !r.value.Panicked? && (forall i :: 0 <= i < |urls| ==> answers(urls[i]).Unreachable?) ==>
        r.value == Rejected(urls)
  {
    hide Expand, FirstToAnswer, Scheduler.ValidConfig, Refused;
    r, urls := None, [];
    var prepared := Prepare(wf, healthy != [], map[], ex, NoCodec(), (_, _) => Scheduler.Output(""));
    if prepared.Err? { return; }
    var jobs := prepared.value.wf.jobs;
    if j !in jobs || !jobs[j].executor.Remote? { return; }
    var candidates := ResolveWorkers(jobs[j].worker, healthy, configured, strategy, leastLoaded, rr);
    if candidates.None? { return Some(Panicked), []; }
    RemoteJobsHaveCandidates(jobs, healthy, j, candidates.value);
    urls := candidates.value;
    assert forall url :: url in urls ==> url in multiset(urls);
    assert forall url :: url in multiset(healthy) ==> url in healthy;
    var d := AskByUrl(urls, answers);
    r := Some(d);
  }

  function NoCodec(): Codec {
    Codec(_ => None, _ => None, (_, _) => None)
  }
}
