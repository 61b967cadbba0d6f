/** Choice of a backend for a host with high availability: round robin on a 64-bit counter, or
    failover to the first reachable backend. */
module RoundRobin {

  const TWO64 := 0x1_0000_0000_0000_0000

  datatype Backend = Backend(name: string, raw: string)

  function NameOf(b: Backend): string {
    if b.name == "" then b.raw else b.name
  }

  function NamesOf(bs: seq<Backend>): seq<string> {
    seq(|bs|, i requires 0 <= i < |bs| => NameOf(bs[i]))
  }

  /** A backend goes by its name, or by its address if it has none. */
  lemma NamedOrAddressed(b: Backend)
    ensures b.name != "" ==> NameOf(b) == b.name
    ensures b.name == "" ==> NameOf(b) == b.raw
  {
  }

  class Route {
    const backends: seq<Backend>
    const roundRobin: bool
    var rr: nat

    constructor (backends: seq<Backend>, roundRobin: bool)
      ensures this.backends == backends && this.roundRobin == roundRobin && rr == 0
    {
      this.backends, this.roundRobin, rr := backends, roundRobin, 0;
    }

    /** Round robin takes the next pick of the counter. Failover returns the first reachable
        backend and names exactly those before it as offline, or all of them if none is
        reachable. */
    method SelectBackendIndex(reachable: seq<bool>) returns (index: int, online: nat, total: nat, offline: seq<string>)
      requires rr < TWO64 && |reachable| == |backends|
      modifies this`rr
      ensures rr < TWO64
      ensures backends == [] ==> index == -1 && online == total == 0 && offline == [] && rr == old(rr)
      ensures backends != [] && roundRobin ==>
        index == Pick(old(rr), |backends|, 0) && online == total == |backends| && offline == [] &&
        rr == (old(rr) + 1) % TWO64
      ensures backends != [] && !roundRobin ==>
        && rr == old(rr) && total == |backends| && -1 <= index < |backends|
        && (index >= 0 ==> online == 1 && reachable[index])
        && (index < 0 ==> online == 0)
        && (forall i :: 0 <= i < (if index < 0 then |backends| else index) ==> !reachable[i])
        && offline == NamesOf(if index < 0 then backends else backends[..index])
    {
      var n := |backends|;
      offline := [];
      if n == 0 {
        return -1, 0, 0, [];
      }
      if roundRobin {
        rr := (rr + 1) % TWO64;
        var counter := if rr == 0 then TWO64 - 1 else rr - 1;
        RemQuoAreModDiv(counter, n);
        return counter % n, n, n, [];
      }
      for i := 0 to n
        invariant forall j :: 0 <= j < i ==> !reachable[j]
        invariant offline == NamesOf(backends[..i])
      {
        if reachable[i] {
          return i, 1, n, offline;
        }
        offline := offline + [NameOf(backends[i])];
      }
      assert backends[..n] == backends;
      return -1, 0, n, offline;
    }
  }

  /** Remainder and quotient by repeated subtraction. */
  function Rem(x: nat, n: nat): nat
    requires n > 0
  {
    if x < n then x else Rem(x - n, n)
  }

  function Quo(x: nat, n: nat): nat
    requires n > 0
  {
    if x < n then 0 else 1 + Quo(x - n, n)
  }

  lemma {:induction false} RemQuoAre(x: nat, n: nat, q: nat, r: nat)
    requires n > 0 && x == q * n + r && r < n
    ensures Rem(x, n) == r && Quo(x, n) == q
    decreases q
  {
    if q > 0 {
      assert q * n == (q - 1) * n + n;
      assert (q - 1) * n >= 0;
      RemQuoAre(x - n, n, q - 1, r);
    }
  }

  lemma RemQuoAreModDiv(x: nat, n: nat)
    requires n > 0
    ensures Rem(x, n) == x % n && Quo(x, n) == x / n
  {
    assert x == (x / n) * n + x % n;
    RemQuoAre(x, n, x / n, x % n);
  }

  lemma {:induction false} RemSmall(x: nat, n: nat)
    requires n > 0
    ensures Rem(x, n) < n
    decreases x
  {
    if x >= n {
      RemSmall(x - n, n);
    }
  }

  lemma {:induction false} NextRem(x: nat, n: nat)
    requires n > 0
    ensures if Rem(x, n) == n - 1 then Rem(x + 1, n) == 0 && Quo(x + 1, n) == Quo(x, n) + 1
            else Rem(x + 1, n) == Rem(x, n) + 1 && Quo(x + 1, n) == Quo(x, n)
    decreases x
  {
    if x >= n {
      NextRem(x - n, n);
    }
  }

  /** Adding to the counter commutes with the remainder. */
  lemma {:induction false} RemAdd(a: nat, n: nat, j: nat)
    requires n > 0
    ensures Rem(a + j, n) == Rem(Rem(a, n) + j, n)
    decreases a
  {
    if a >= n {
      RemAdd(a - n, n, j);
      assert Rem(a + j, n) == Rem(a - n + j, n);
    }
  }

  // ---------- Picks ----------

  /** The backend chosen `j` picks after the counter stood at `start`; the counter wraps. */
  function Pick(start: nat, n: nat, j: nat): nat
    requires n > 0
  {
    Rem((start + j) % TWO64, n)
  }

  /** How often backend `i` is chosen in `k` picks. */
  function Times(start: nat, n: nat, k: nat, i: nat): nat
    requires n > 0
  {
    if k == 0 then 0 else Times(start, n, k - 1, i) + if Pick(start, n, k - 1) == i then 1 else 0
  }

  lemma PickBeforeWrap(start: nat, n: nat, j: nat)
    requires n > 0 && start + j < TWO64
    ensures Pick(start, n, j) == Rem(start + j, n)
  {
  }

  lemma {:induction false} SharesInRounds(n: nat, k: nat, i: nat)
    requires 0 < n && k <= TWO64 && i < n
    ensures Times(0, n, k, i) == Quo(k, n) + if i < Rem(k, n) then 1 else 0
    decreases k
  {
    if k > 0 {
      SharesInRounds(n, k - 1, i);
      PickBeforeWrap(0, n, k - 1);
      NextRem(k - 1, n);
    }
  }

  /** On a fresh route and before the counter wraps, every backend gets its fair share: after `k`
      picks backend `i` was chosen `k / n` times, and once more if it is among the first `k % n`. */
  lemma FairShare(n: nat, k: nat, i: nat)
    requires 0 < n && k <= TWO64 && i < n
    ensures Times(0, n, k, i) == k / n + if i < k % n then 1 else 0
  {
    SharesInRounds(n, k, i);
    RemQuoAreModDiv(k, n);
  }

  lemma {:induction false} TimesAdd(n: nat, a: nat, b: nat, i: nat)
    requires n > 0
    ensures Times(0, n, a + b, i) == Times(0, n, a, i) + Times(a, n, b, i)
    decreases b
  {
    if b > 0 {
      TimesAdd(n, a, b - 1, i);
      assert Pick(0, n, a + b - 1) == Pick(a, n, b - 1);
    }
  }

  /** The next `n` picks choose every backend exactly once. */
  predicate Permutes(start: nat, n: nat)
    requires n > 0
  {
    forall i :: 0 <= i < n ==> Times(start, n, n, i) == 1
  }

  lemma ConsecutivePicksPermute(start: nat, n: nat)
    requires 0 < n && start + n <= TWO64
    ensures Permutes(start, n)
  {
    forall i | 0 <= i < n
      ensures Times(start, n, n, i) == 1
    {
      TimesAdd(n, start, n, i);
      SharesInRounds(n, start, i);
      SharesInRounds(n, start + n, i);
    }
  }

  /** Any `n` consecutive picks permute the backends, also across the wrap of the counter,
      exactly when the number of backends divides 2^64. */
  lemma WrapIsSeamlessIff(n: nat)
    requires 0 < n < TWO64
    ensures TWO64 % n == 0 <==> forall start: nat | start < TWO64 :: Permutes(start, n)
  {
    RemQuoAreModDiv(TWO64, n);
    if Rem(TWO64, n) == 0 {
      forall start: nat | start < TWO64
        ensures Permutes(start, n)
      {
        WrapIsSeamless(start, n);
      }
    } else {
      LastBackendIsSkipped(n);
    }
  }

  lemma WrapIsSeamless(start: nat, n: nat)
    requires 0 < n < TWO64 && Rem(TWO64, n) == 0 && start < TWO64
    ensures Permutes(start, n)
  {
    // Earlier by whole rounds, the same picks do not wrap.
    var low := Rem(start, n);
    RemSmall(start, n);
    assert Rem(TWO64, n) == Rem(TWO64 - n, n);
    ConsecutivePicksPermute(low, n);
    forall i | 0 <= i < n
      ensures Times(start, n, n, i) == 1
    {
      SameTimes(start, low, n, n, i);
    }
  }

  lemma RemOfWrapped(x: nat, n: nat)
    requires n > 0 && Rem(TWO64, n) == 0 && x < 2 * TWO64
    ensures Rem(x % TWO64, n) == Rem(x, n)
  {
    if x >= TWO64 {
      assert x % TWO64 == x - TWO64;
      RemAdd(TWO64, n, x - TWO64);
    }
  }

  /** If `n` divides 2^64, only the counter modulo `n` matters. */
  lemma {:induction false} SameTimes(a: nat, b: nat, n: nat, k: nat, i: nat)
    requires 0 < n && Rem(TWO64, n) == 0 && Rem(a, n) == Rem(b, n) && a < TWO64 && b < TWO64 && k <= TWO64
    ensures Times(a, n, k, i) == Times(b, n, k, i)
    decreases k
  {
    if k > 0 {
      SameTimes(a, b, n, k - 1, i);
      PickModulo(a, n, k - 1);
      PickModulo(b, n, k - 1);
    }
  }

  lemma PickModulo(a: nat, n: nat, j: nat)
    requires 0 < n && Rem(TWO64, n) == 0 && a < TWO64 && j <= TWO64
    ensures Pick(a, n, j) == Rem(Rem(a, n) + j, n)
  {
    RemOfWrapped(a + j, n);
    RemAdd(a, n, j);
  }

  /** Otherwise the window that starts at the last counter value skips the last backend. */
  lemma LastBackendIsSkipped(n: nat)
    requires 0 < n < TWO64 && Rem(TWO64, n) != 0
    ensures !Permutes(TWO64 - 1, n)
  {
    RemSmall(TWO64 - 1, n);
    NextRem(TWO64 - 1, n);
    SkipsLast(n, n);
    assert Times(TWO64 - 1, n, n, n - 1) == 0;
  }

  lemma {:induction false} SkipsLast(n: nat, k: nat)
    requires 0 < n < TWO64 && k <= n && Rem(TWO64 - 1, n) < n - 1
    ensures Times(TWO64 - 1, n, k, n - 1) == 0
    decreases k
  {
    if k > 0 {
      SkipsLast(n, k - 1);
      if k > 1 {
        assert (TWO64 - 1 + (k - 1)) % TWO64 == k - 2;
      } else {
        PickBeforeWrap(TWO64 - 1, n, 0);
      }
    }
  }
}
