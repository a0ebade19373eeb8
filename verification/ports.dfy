/** The round-robin media port allocator (`PortPool`, src/session.rs). */
module Ports {

  const U16 := 65536

  /** The place in the range that the `k`-th call of `take` lands on: the counter starts at
      `lo`, wraps at 16 bits, and `lo` is subtracted from it with the same wrap. */
  function Offset(span: int, k: nat): int
    requires span > 0
  {
    (k % U16) % span
  }

  class PortPool {
    const lo: int
    const hi: int
    var next: int
    ghost var takes: nat

    ghost predicate Valid()
      reads this
    {
      && 0 <= lo <= hi < U16 && hi - lo + 1 < U16
      && next == (lo + takes) % U16
    }

    /** A range of all 65536 ports would make the source divide by zero. */
    constructor (lo: int, hi: int)
      requires 0 <= lo <= hi < U16 && hi - lo + 1 < U16
      ensures Valid() && this.lo == lo && this.hi == hi && takes == 0
    {
      this.lo := lo;
      this.hi := hi;
      next := lo;
      takes := 0;
    }

    method Take() returns (port: int)
      requires Valid()
      modifies this
      ensures Valid() && takes == old(takes) + 1
      ensures lo <= port <= hi
      ensures port == lo + Offset(hi - lo + 1, old(takes))
    {
      CounterArithmetic(lo, takes);
      var span := hi - lo + 1;
      var n := next;
      next := (n + 1) % U16;
      var step := ((n - lo) % U16) % span;
      port := (lo + step) % U16;
      takes := takes + 1;
    }
  }

  lemma CounterArithmetic(lo: int, takes: nat)
    ensures ((lo + takes) % U16 + 1) % U16 == (lo + takes + 1) % U16
    ensures ((lo + takes) % U16 - lo) % U16 == takes % U16
  {
    var m := (lo + takes) / U16;
    assert (lo + takes) % U16 == lo + takes - U16 * m;
    assert (takes - U16 * m) % U16 == takes % U16;
  }

  // ---------------------------------------------------------------------------
  // Residues
  // ---------------------------------------------------------------------------

  lemma DivisionUnique(a: int, n: int, q: int, r: int)
    requires n > 0 && 0 <= r < n && a == n * q + r
    ensures a / n == q && a % n == r
  {
    var p, s := a / n, a % n;
    assert a == n * p + s;
    if p < q {
      MultiplesApart(n, p, q);
    } else if q < p {
      MultiplesApart(n, q, p);
    }
  }

  lemma MultiplesApart(n: int, a: int, b: int)
    requires n > 0 && a < b
    ensures n * a + n <= n * b
  {
    var d := b - a - 1;
    assert n * d >= 0;
    assert n * b == n * (a + 1 + d) == n * a + n + n * d;
  }

  lemma ResidueMoves(a: nat, d: nat, n: int)
    requires 0 < d < n
    ensures (a + d) % n != a % n
  {
    var q, r := a / n, a % n;
    assert a == n * q + r;
    if r + d < n {
      DivisionUnique(a + d, n, q, r + d);
    } else {
      assert n * (q + 1) == n * q + n;
      DivisionUnique(a + d, n, q + 1, r + d - n);
    }
  }

  lemma ResidueRepeats(a: nat, n: int)
    requires 0 < n
    ensures (a + n) % n == a % n
  {
    var q, r := a / n, a % n;
    assert n * (q + 1) == n * q + n;
    DivisionUnique(a + n, n, q + 1, r);
  }

  // ---------------------------------------------------------------------------
  // The distance between two uses of one port
  // ---------------------------------------------------------------------------

  /** How many calls after call `k` its port comes round again. */
  function Gap(span: int, k: nat): int
    requires 0 < span < U16
  {
    if k % U16 + span < U16 then span
    else if Offset(span, k) < U16 % span then U16 % span
    else span + U16 % span
  }

  /** When the 16-bit counter wraps before the port returns. */
  lemma GapAcrossWrap(span: int, k: nat)
    requires 0 < span < U16 && k % U16 + span >= U16
    ensures Gap(span, k) == U16 - k % U16 + Offset(span, k)
  {
    var j := k % U16;
    var q, o := j / span, j % span;
    var n, r := U16 / span, U16 % span;
    assert j == span * q + o && U16 == span * n + r;
    var m := if o < r then n else n - 1;
    assert span * (n - 1) == span * n - span;
    if q < m {
      MultiplesApart(span, q, m);
    } else if q > m {
      MultiplesApart(span, m, q);
    }
  }

  /** A port is used again exactly `Gap` calls later: `span`, `65536 mod span` or their
      sum, and never in between. */
  lemma PortReturnsAfterGap(span: int, k: nat)
    requires 0 < span < U16
    ensures Gap(span, k) > 0
    ensures Offset(span, k + Gap(span, k)) == Offset(span, k)
    ensures forall i: nat :: k < i < k + Gap(span, k) ==> Offset(span, i) != Offset(span, k)
    ensures Gap(span, k) in {span, U16 % span, span + U16 % span}
  {
    if k % U16 + span < U16 {
      UseBeforeWrap(span, k);
    } else {
      GapAcrossWrap(span, k);
      forall i: nat | k < i <= k + Gap(span, k)
        ensures Offset(span, i) == Offset(span, k) <==> i == k + Gap(span, k)
      {
        UseAcrossWrap(span, k, i);
      }
    }
  }

  lemma UseBeforeWrap(span: int, k: nat)
    requires 0 < span < U16 && k % U16 + span < U16
    ensures Offset(span, k + span) == Offset(span, k)
    ensures forall i: nat :: k < i < k + span ==> Offset(span, i) != Offset(span, k)
  {
    var j := k % U16;
    ShortOfWrap(k, span);
    ResidueRepeats(j, span);
    forall i: nat | k < i < k + span
      ensures Offset(span, i) != Offset(span, k)
    {
      ShortOfWrap(k, i - k);
      ResidueMoves(j, i - k, span);
    }
  }

  lemma ShortOfWrap(k: nat, d: nat)
    requires k % U16 + d < U16
    ensures (k + d) % U16 == k % U16 + d
  {
  }

  lemma UseAcrossWrap(span: int, k: nat, i: nat)
    requires 0 < span < U16 && k % U16 + span >= U16
    requires k < i <= k + (U16 - k % U16 + Offset(span, k))
    ensures Offset(span, i) == Offset(span, k) <==> i == k + (U16 - k % U16 + Offset(span, k))
  {
    var j := k % U16;
    var d := i - k;
    if j + d < U16 {
      assert i % U16 == j + d;
      ResidueMoves(j, d, span);
    } else {
      assert i % U16 == j + d - U16;
      DivisionUnique(j + d - U16, span, 0, j + d - U16);
    }
  }

  lemma NextResidue(j: nat, n: int)
    requires 0 < n
    ensures (j + 1) % n == if j % n == n - 1 then 0 else j % n + 1
  {
    var q, o := j / n, j % n;
    assert j == n * q + o;
    if o == n - 1 {
      assert n * (q + 1) == n * q + n;
      DivisionUnique(j + 1, n, q + 1, 0);
    } else {
      DivisionUnique(j + 1, n, q, o + 1);
    }
  }

  /** The first port is the lowest, and ports ascend one by one: after the highest comes the
      lowest again, and so it does whenever the 16-bit counter has wrapped. */
  lemma PortsAscend(span: int, k: nat)
    requires 0 < span < U16
    ensures Offset(span, 0) == 0
    ensures Offset(span, k + 1) == if (k + 1) % U16 == 0 || Offset(span, k) == span - 1 then 0 else Offset(span, k) + 1
  {
    DivisionUnique(0, span, 0, 0);
    NextResidue(k, U16);
    NextResidue(k % U16, span);
  }

  /** The production range 40000-40999. */
  lemma ProductionGaps(k: nat)
    ensures Gap(1000, k) in {1000, 536, 1536}
  {
    PortReturnsAfterGap(1000, k);
  }

  // ---------------------------------------------------------------------------
  // How many recent sessions are safe from sharing a port
  // ---------------------------------------------------------------------------

  ghost predicate WindowDistinct(span: int, k: nat, w: nat)
    requires 0 < span < U16
  {
    forall i: nat, j: nat :: k <= i < j < k + w ==> Offset(span, i) != Offset(span, j)
  }

  function SafeWindow(span: int): int
    requires 0 < span < U16
  {
    if U16 % span == 0 then span else U16 % span
  }

  lemma GapAtLeastSafe(span: int, k: nat)
    requires 0 < span < U16
    ensures Gap(span, k) >= SafeWindow(span)
  {
  }

  /** Any `w` consecutive calls hand out different ports, wherever they start, exactly when
      `w` is at most `65536 mod span` (or `span` itself where it divides 65536). */
  lemma WindowTheorem(span: int, w: nat)
    requires 0 < span < U16
    ensures (forall k: nat :: WindowDistinct(span, k, w)) <==> w <= SafeWindow(span)
  {
    if w <= SafeWindow(span) {
      forall k: nat
        ensures WindowDistinct(span, k, w)
      {
        SafeWindowIsDistinct(span, k, w);
      }
    } else {
      WideWindowRepeats(span, w);
    }
  }

  lemma SafeWindowIsDistinct(span: int, k: nat, w: nat)
    requires 0 < span < U16 && w <= SafeWindow(span)
    ensures WindowDistinct(span, k, w)
  {
    forall i: nat, j: nat | k <= i < j < k + w
      ensures Offset(span, i) != Offset(span, j)
    {
      PortReturnsAfterGap(span, i);
      GapAtLeastSafe(span, i);
    }
  }

  lemma WideWindowRepeats(span: int, w: nat)
    requires 0 < span < U16 && w > SafeWindow(span)
    ensures !WindowDistinct(span, U16 - SafeWindow(span), w)
  {
    var r := SafeWindow(span);
    var k: nat := U16 - r;
    var q := if U16 % span == 0 then U16 / span - 1 else U16 / span;
    assert U16 == span * (U16 / span) + U16 % span;
    assert k == span * q + 0;
    DivisionUnique(k, span, q, 0);
    DivisionUnique(0, span, 0, 0);
    assert (k + r) % U16 == 0;
    assert Offset(span, k) == Offset(span, k + r);
  }

  /** The session ceiling is meant to keep allocation from reaching a port still in use.
      Two of 900 sessions provisioned in a row can share a port all the same. */
  lemma CeilingDoesNotProtectPorts()
    ensures exists k: nat :: !WindowDistinct(1000, k, 900)
    ensures forall k: nat :: WindowDistinct(1000, k, 536)
  {
    WindowTheorem(1000, 900);
    WindowTheorem(1000, 536);
  }

  /** Until the counter first wraps, `span` calls in a row hand out every port once. */
  lemma FullCycle(span: int, k: nat, o: int)
    requires 0 < span < U16 && k + span <= U16 && 0 <= o < span
    ensures WindowDistinct(span, k, span)
    ensures exists i: nat :: k <= i < k + span && Offset(span, i) == o
  {
    forall i: nat, j: nat | k <= i < j < k + span
      ensures Offset(span, i) != Offset(span, j)
    {
      ResidueMoves(i, j - i, span);
    }
    PortInCycle(span, k, o);
  }

  lemma PortInCycle(span: int, k: nat, o: int)
    requires 0 < span < U16 && k + span <= U16 && 0 <= o < span
    ensures exists i: nat :: k <= i < k + span && Offset(span, i) == o
  {
    var q, r := k / span, k % span;
    assert k == span * q + r;
    var i: nat := if o >= r then k + (o - r) else k + span + (o - r);
    if o >= r {
      DivisionUnique(i, span, q, o);
    } else {
      assert span * (q + 1) == span * q + span;
      DivisionUnique(i, span, q + 1, o);
    }
    assert Offset(span, i) == o;
  }
}
