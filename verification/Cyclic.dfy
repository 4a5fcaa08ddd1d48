/** Indexing round a circle of `n` places. */
module Cyclic {

  /** `x % n`, by repeated subtraction. */
  function Wrap(x: nat, n: nat): (r: nat)
    requires 0 < n
    ensures r < n
    ensures x < n ==> r == x
    ensures n <= x < 2 * n ==> r == x - n
  {
    if x < n then x else Wrap(x - n, n)
  }

  lemma WrapIsRemainder(x: nat, n: nat)
    requires 0 < n
    ensures Wrap(x, n) == x % n
  {
    var q := WrapDivides(x, n);
    var q' := RemainderDivides(x, n);
    RemainderUnique(n, q, Wrap(x, n), q', x % n);
  }

  lemma {:induction false} WrapDivides(x: nat, n: nat) returns (q: nat)
    requires 0 < n
    ensures x == q * n + Wrap(x, n)
  {
    if x < n {
      q := 0;
    } else {
      var q' := WrapDivides(x - n, n);
      OneMore(q', n);
      q := q' + 1;
    }
  }

  lemma RemainderDivides(x: nat, n: nat) returns (q: nat)
    requires 0 < n
    ensures x == q * n + x % n && x % n < n
  {
    q := x / n;
  }

  lemma RemainderUnique(n: nat, q: nat, m: nat, q': nat, m': nat)
    requires m < n && m' < n && q * n + m == q' * n + m'
    ensures m == m'
  {
    if q < q' {
      Apart(q, q', n);
    } else if q' < q {
      Apart(q', q, n);
    }
  }

  lemma OneMore(k: nat, n: nat)
    ensures (k + 1) * n == k * n + n
  {
  }

  lemma {:induction false} Apart(k: nat, k': nat, n: nat)
    requires k < k'
    ensures k' * n >= k * n + n
  {
    OneMore(k' - 1, n);
    if k + 1 < k' {
      Apart(k, k' - 1, n);
    }
  }

  // ------------------------------------------------ counting over consecutive values

  /** How many of `c, ..., c + n - 1` satisfy `f`. */
  function Hits(f: nat -> bool, c: nat, n: nat): (k: nat)
    ensures k <= n
  {
    if n == 0 then 0 else Hits(f, c, n - 1) + (if f(c + (n - 1)) then 1 else 0)
  }

  lemma {:induction false} HitsSplit(f: nat -> bool, c: nat, m: nat, n: nat)
    ensures Hits(f, c, m + n) == Hits(f, c, m) + Hits(f, c + m, n)
  {
    if n == 0 {
    } else {
      HitsSplit(f, c, m, n - 1);
      assert m + n - 1 == m + (n - 1);
      assert c + (m + n - 1) == (c + m) + (n - 1);
    }
  }

  lemma HitsOne(f: nat -> bool, c: nat)
    ensures Hits(f, c, 1) == if f(c) then 1 else 0
  {
  }

  ghost predicate Periodic(f: nat -> bool, t: nat) {
    forall x: nat :: f(x + t) == f(x)
  }

  /** A window of one period holds the same number wherever it starts. */
  lemma {:induction false} PeriodSlides(f: nat -> bool, t: nat, c: nat)
    requires Periodic(f, t)
    ensures Hits(f, c, t) == Hits(f, 0, t)
  {
    if c == 0 {
    } else {
      PeriodSlides(f, t, c - 1);
      HitsSplit(f, c - 1, 1, t);
      HitsSplit(f, c - 1, t, 1);
      HitsOne(f, c - 1);
      HitsOne(f, c - 1 + t);
      assert f((c - 1) + t) == f(c - 1);
      assert 1 + t == t + 1;
    }
  }

  lemma {:induction false} PeriodsAdd(f: nat -> bool, t: nat, c: nat, k: nat)
    requires Periodic(f, t)
    ensures Hits(f, c, k * t) == k * Hits(f, 0, t)
  {
    if k == 0 {
      assert k * t == 0;
    } else {
      var before := (k - 1) * t;
      PeriodsAdd(f, t, c, k - 1);
      OneMore(k - 1, t);
      OneMore(k - 1, Hits(f, 0, t));
      HitsSplit(f, c, before, t);
      PeriodSlides(f, t, c + before);
    }
  }

  /** Any `k` periods and `r` more hold between `k * w` and `k * w + min(r, w)` hits. */
  lemma PeriodBounds(f: nat -> bool, t: nat, w: nat, c: nat, k: nat, r: nat)
    requires Periodic(f, t) && r <= t && w == Hits(f, 0, t)
    ensures k * w <= Hits(f, c, k * t + r) <= k * w + (if r < w then r else w)
  {
    var past := c + k * t;
    PeriodsAdd(f, t, c, k);
    HitsSplit(f, c, k * t, r);
    HitsSplit(f, past, r, t - r);
    assert r + (t - r) == t;
    PeriodSlides(f, t, past);
  }
}
