/**
  Round-robin over a pool of backends with a 32-bit counter that wraps around
  (gateway/pool.go).
 */
module ProxyPools {

  /** The counter is a uint32. */
  const WRAP: nat := 0x1_0000_0000

  class ProxyPool<Backend> {
    const proxies: seq<Backend>
    var next: nat

    ghost predicate Valid()
      reads this
    {
      0 < |proxies| < WRAP && next < WRAP
    }

    constructor (proxies: seq<Backend>)
      requires 0 < |proxies| < WRAP
      ensures Valid() && this.proxies == proxies && next == 0
    {
      this.proxies := proxies;
      next := 0;
    }

    method Pick() returns (i: nat)
      requires Valid()
      modifies this`next
      ensures Valid() && next == (old(next) + 1) % WRAP
      ensures i == Picked(|proxies|, old(next), 0) && i < |proxies|
    {
      CounterBefore(next);
      next := (next + 1) % WRAP;
      var n := (next + WRAP - 1) % WRAP;
      i := n % |proxies|;
    }
  }

  /** Subtracting one again undoes the increment, across the wrap too. */
  lemma CounterBefore(next: nat)
    requires next < WRAP
    ensures ((next + 1) % WRAP + WRAP - 1) % WRAP == next
  {
    if next + 1 == WRAP { assert (next + 1) % WRAP == 0; }
  }

  /** The backend chosen by pick number `j` of a pool of `n` whose counter stood at `c`. */
  function Picked(n: nat, c: nat, j: nat): (i: nat)
    requires n > 0
    ensures i < n
  {
    ((c + j) % WRAP) % n
  }

  /** How many of the next `k` picks go to backend `i`. */
  function Load(n: nat, c: nat, k: nat, i: nat): nat
    requires n > 0
  {
    if k == 0 then 0 else Load(n, c, k - 1, i) + if Picked(n, c, k - 1) == i then 1 else 0
  }

  /** The same count over a counter that never wraps. */
  function Hits(n: nat, c: nat, k: nat, i: nat): nat
    requires n > 0
  {
    if k == 0 then 0 else Hits(n, c, k - 1, i) + if (c + k - 1) % n == i then 1 else 0
  }

  // ---------------------------------------------------------------- division

  lemma MulGap(a: nat, b: nat, n: nat)
    requires a < b
    ensures a * n + n <= b * n
  {
    assert b * n == (a + 1) * n + (b - a - 1) * n;
  }

  lemma DivUnique(y: nat, n: nat, q: nat, r: nat)
    requires n > 0 && r < n && y == q * n + r
    ensures y / n == q && y % n == r
  {
    QuotientUnique(n, q, r, y / n, y % n);
  }

  lemma QuotientUnique(n: nat, q: nat, r: nat, q': nat, r': nat)
    requires r < n && r' < n && q * n + r == q' * n + r'
    ensures q == q' && r == r'
  {
    if q < q' {
      MulGap(q, q', n);
    } else if q' < q {
      MulGap(q', q, n);
    }
  }

  lemma DivMod(u: nat, n: nat)
    requires n > 0
    ensures u == (u / n) * n + u % n && 0 <= u / n && 0 <= u % n < n
  {
  }

  /** Dividing a sum loses or gains less than one whole. */
  lemma DivSum(u: nat, k: nat, n: nat)
    requires n > 0
    ensures k / n <= (u + k) / n - u / n <= k / n + 1
    ensures k % n == 0 ==> (u + k) / n - u / n == k / n
  {
    DivMod(u, n);
    DivMod(k, n);
    DivSumOf(u + k, u / n, u % n, k / n, k % n, n);
  }

  lemma DivSumOf(y: nat, q: nat, r: nat, q': nat, r': nat, n: nat)
    requires r < n && r' < n && y == q * n + r + (q' * n + r')
    ensures y / n == q + q' + if r + r' < n then 0 else 1
  {
    if r + r' < n {
      assert y == (q + q') * n + (r + r');
      DivUnique(y, n, q + q', r + r');
    } else {
      assert y == (q + q' + 1) * n + (r + r' - n);
      DivUnique(y, n, q + q' + 1, r + r' - n);
    }
  }

  /** The multiples of `n` below `y + 1` grow exactly when `y + 1` is one. */
  lemma DivStep(y: nat, n: nat)
    requires n > 0
    ensures (y + 1) / n == y / n + if (y + 1) % n == 0 then 1 else 0
  {
    var q, r := y / n, y % n;
    assert y == q * n + r;
    if r + 1 < n {
      DivUnique(y + 1, n, q, r + 1);
    } else {
      assert y + 1 == (q + 1) * n + 0;
      DivUnique(y + 1, n, q + 1, 0);
    }
  }

  lemma ModShift(x: nat, n: nat, i: nat)
    requires i < n
    ensures (x + n - i) % n == 0 <==> x % n == i
  {
    var q, r := x / n, x % n;
    assert x == q * n + r;
    if r == i {
      assert x + n - i == (q + 1) * n + 0;
      DivUnique(x + n - i, n, q + 1, 0);
    } else if r < i {
      assert x + n - i == q * n + (r + n - i);
      DivUnique(x + n - i, n, q, r + n - i);
    } else {
      assert x + n - i == (q + 1) * n + (r - i);
      DivUnique(x + n - i, n, q + 1, r - i);
    }
  }

  // ---------------------------------------------------------------- fairness without a wrap

  lemma {:induction false} HitsClosedForm(n: nat, c: nat, k: nat, i: nat)
    requires i < n
    ensures Hits(n, c, k, i) == (c + k + n - 1 - i) / n - (c + n - 1 - i) / n
  {
    if k > 0 {
      HitsClosedForm(n, c, k - 1, i);
      DivStep(c + k - 1 + n - 1 - i, n);
      ModShift(c + k - 1, n, i);
    }
  }

  /** Any `k` consecutive picks without a wrap load every backend `k / n` times, rounded down
      or up. */
  lemma {:induction false} StraightRunIsFair(n: nat, c: nat, k: nat, i: nat)
    requires i < n && c + k <= WRAP
    ensures k / n <= Load(n, c, k, i) <= k / n + 1
    ensures k % n == 0 ==> Load(n, c, k, i) == k / n
  {
    LoadIsHits(n, c, k, i);
    HitsClosedForm(n, c, k, i);
    DivSum(c + n - 1 - i, k, n);
  }

  lemma {:induction false} LoadIsHits(n: nat, c: nat, k: nat, i: nat)
    requires n > 0 && c + k <= WRAP
    ensures Load(n, c, k, i) == Hits(n, c, k, i)
  {
    if k > 0 {
      LoadIsHits(n, c, k - 1, i);
      var turn := Picked(n, c, k - 1);
      assert turn == (c + k - 1) % n by { PickedStraight(n, c, k - 1); }
      assert Load(n, c, k, i) == Load(n, c, k - 1, i) + if turn == i then 1 else 0;
      assert Hits(n, c, k, i) == Hits(n, c, k - 1, i) + if turn == i then 1 else 0;
    }
  }

  // ---------------------------------------------------------------- across wraps

  lemma {:induction false} LoadSplit(n: nat, c: nat, k: nat, l: nat, i: nat)
    requires n > 0
    ensures Load(n, c, k + l, i) == Load(n, c, k, i) + Load(n, c + k, l, i)
  {
    if l > 0 { LoadSplit(n, c, k, l - 1, i); }
  }

  lemma PickedStraight(n: nat, c: nat, j: nat)
    requires n > 0 && c + j < WRAP
    ensures Picked(n, c, j) == (c + j) % n
  {
    assert (c + j) % WRAP == c + j;
  }

  lemma PickedWrapped(n: nat, c: nat, j: nat)
    requires n > 0
    ensures Picked(n, c + WRAP, j) == Picked(n, c, j)
  {
    assert (c + WRAP + j) % WRAP == (c + j) % WRAP;
  }

  /** Only the counter's value modulo the wrap matters. */
  lemma {:induction false} LoadWrapped(n: nat, c: nat, k: nat, i: nat)
    requires n > 0
    ensures Load(n, c + WRAP, k, i) == Load(n, c, k, i)
  {
    if k > 0 {
      LoadWrapped(n, c, k - 1, i);
      PickedWrapped(n, c, k - 1);
    }
  }

  lemma OneWrapLess(y: nat)
    requires y > WRAP
    ensures y / WRAP == (y - WRAP) / WRAP + 1
  {
  }

  /** A run across a wrap is a run up to it and one from zero. */
  lemma SplitAtWrap(n: nat, c: nat, k: nat, i: nat)
    requires n > 0 && c < WRAP < c + k
    ensures Load(n, c, k, i) == Load(n, c, WRAP - c, i) + Load(n, 0, c + k - WRAP, i)
  {
    var first := WRAP - c;
    LoadSplit(n, c, first, k - first, i);
    LoadWrapped(n, 0, k - first, i);
  }

  /** Two backends differ by at most one more than the number of wraps in the run. */
  lemma {:induction false} LoadsStayClose(n: nat, c: nat, k: nat, i: nat, j: nat)
    requires i < n && j < n && c < WRAP
    ensures Load(n, c, k, i) <= Load(n, c, k, j) + 1 + (c + k) / WRAP
    decreases k
  {
    if c + k <= WRAP {
      StraightRunIsFair(n, c, k, i);
      StraightRunIsFair(n, c, k, j);
    } else {
      var first := WRAP - c;
      StraightRunIsFair(n, c, first, i);
      StraightRunIsFair(n, c, first, j);
      SplitAtWrap(n, c, k, i);
      SplitAtWrap(n, c, k, j);
      LoadsStayClose(n, 0, k - first, i, j);
      OneWrapLess(c + k);
    }
  }

  /** So any run of at most 2^32 picks, wherever the counter stands, leaves loads within two. */
  lemma OneWrapWithinTwo(n: nat, c: nat, k: nat, i: nat, j: nat)
    requires i < n && j < n && c < WRAP && k <= WRAP
    ensures Load(n, c, k, i) <= Load(n, c, k, j) + 2
  {
    LoadsStayClose(n, c, k, i, j);
    assert (c + k) / WRAP <= 1;
  }

  // ---------------------------------------------------------------- exactly when it is fair

  /** Every run from every counter value spreads its picks evenly. */
  ghost predicate AlwaysFair(n: nat)
    requires n > 0
  {
    forall c: nat, k: nat, i: nat, j: nat | c < WRAP && i < n && j < n ::
      Load(n, c, k, i) <= Load(n, c, k, j) + 1
  }

  lemma WrapKeepsResidue(n: nat, x: nat)
    requires n > 0 && WRAP % n == 0
    ensures (x % WRAP) % n == x % n
  {
    var q, m := x / WRAP, WRAP / n;
    assert WRAP == m * n;
    assert x == q * WRAP + x % WRAP;
    var r := x % WRAP;
    assert r == (r / n) * n + r % n;
    assert q * WRAP == (q * m) * n by { assert q * (m * n) == (q * m) * n; }
    assert x == (q * m + r / n) * n + r % n;
    DivUnique(x, n, q * m + r / n, r % n);
  }

  lemma {:induction false} LoadIsHitsWhenDividing(n: nat, c: nat, k: nat, i: nat)
    requires n > 0 && WRAP % n == 0
    ensures Load(n, c, k, i) == Hits(n, c, k, i)
  {
    if k > 0 {
      LoadIsHitsWhenDividing(n, c, k - 1, i);
      WrapKeepsResidue(n, c + k - 1);
    }
  }

  /** The pool is fair across every wrap if and only if its size divides 2^32. */
  lemma FairIffDividing(n: nat)
    requires 0 < n < WRAP
    ensures AlwaysFair(n) <==> WRAP % n == 0
  {
    if WRAP % n == 0 {
      forall c: nat, k: nat, i: nat, j: nat | c < WRAP && i < n && j < n
        ensures Load(n, c, k, i) <= Load(n, c, k, j) + 1
      {
        LoadIsHitsWhenDividing(n, c, k, i);
        LoadIsHitsWhenDividing(n, c, k, j);
        HitsClosedForm(n, c, k, i);
        HitsClosedForm(n, c, k, j);
        DivSum(c + n - 1 - i, k, n);
        DivSum(c + n - 1 - j, k, n);
      }
    } else {
      UnfairAtTheWrap(n);
    }
  }

  /** The failing family: the last pick before the wrap is repeated within the first
      `2^32 % n` picks after it, before backend `2^32 % n` gets its turn. */
  lemma UnfairAtTheWrap(n: nat)
    requires 0 < n < WRAP && WRAP % n != 0
    ensures var r := WRAP % n;
            Load(n, WRAP - 1, r + 1, r - 1) == 2 && Load(n, WRAP - 1, r + 1, r) == 0
  {
    var r := WRAP % n;
    var q := WRAP / n;
    assert WRAP - 1 == q * n + (r - 1);
    DivUnique(WRAP - 1, n, q, r - 1);
    forall i: nat | i < n ensures Load(n, WRAP - 1, r + 1, i) == Load(n, WRAP - 1, 1, i) + Hits(n, 0, r, i) {
      LoadSplit(n, WRAP - 1, 1, r, i);
      LoadWrapped(n, 0, r, i);
      LoadIsHits(n, 0, r, i);
    }
    FirstRound(n, r, r - 1);
    FirstRound(n, r, r);
    assert Picked(n, WRAP - 1, 0) == r - 1;
    assert Load(n, WRAP - 1, 1, r - 1) == 1 && Load(n, WRAP - 1, 1, r) == 0;
  }

  lemma {:induction false} FirstRound(n: nat, k: nat, i: nat)
    requires k <= n && i < n
    ensures Hits(n, 0, k, i) == if i < k then 1 else 0
  {
    if k > 0 {
      FirstRound(n, k - 1, i);
      DivUnique(k - 1, n, 0, k - 1);
    }
  }
}
