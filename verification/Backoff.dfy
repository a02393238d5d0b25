/** The worker-side retry delay of app.go, over the reals; durations are whole nanoseconds. */
module Backoff {
  const MAX_DURATION: int := 0x7FFF_FFFF_FFFF_FFFF

  function Pow(m: real, n: nat): real { if n == 0 then 1.0 else m * Pow(m, n - 1) }

  /** computeRetryDelay. */
  function Delay(base: int, multiplier: real, cap: int, n: int): int {
    if base <= 0 then 0
    else
      var m := if multiplier < 1.0 then 1.0 else multiplier;
      var k := if n < 1 then 1 else n;
      Capped(Scaled(base, Pow(m, k - 1)), cap)
  }

  function Scaled(base: int, factor: real): real { base as real * factor }

  /** A cap that is not positive is none; a duration saturates. */
  function Capped(d: real, cap: int): int {
    if cap > 0 && d > cap as real then cap
    else if d >= MAX_DURATION as real then MAX_DURATION
    else d.Floor
  }

  lemma CappedGrows(x: real, y: real, cap: int)
    requires x <= y && cap <= MAX_DURATION
    ensures Capped(x, cap) <= Capped(y, cap)
  {
  }

  /** retryDelay: with full jitter a random part of it, from [0, 1). */
  function Jittered(delay: int, full: bool, random: real): int {
    if full && delay > 0 then (random * delay as real).Floor else delay
  }

  lemma {:induction false} PowGrows(m: real, a: nat, b: nat)
    requires m >= 1.0 && a <= b
    ensures 1.0 <= Pow(m, a) <= Pow(m, b)
  {
    if b > 0 {
      if a == b {
        PowGrows(m, a - 1, b - 1);
        Grows(m, Pow(m, a - 1));
      } else {
        PowGrows(m, a, b - 1);
        Grows(m, Pow(m, b - 1));
      }
    }
  }

  lemma Grows(m: real, x: real)
    requires m >= 1.0 && x >= 1.0
    ensures m * x >= x
  {
    assert (m - 1.0) * x >= 0.0;
  }

  lemma Scales(base: int, x: real, y: real)
    requires base > 0 && x <= y
    ensures Scaled(base, x) <= Scaled(base, y)
  {
    assert base as real * (y - x) >= 0.0;
  }

  lemma ScaledByOne(base: int)
    ensures Scaled(base, 1.0) == base as real
  {
  }

  /** Never above a positive cap, never overflowing, never negative, and at least the base until it is capped. */
  lemma DelayIsBounded(base: int, multiplier: real, cap: int, n: int)
    requires cap <= MAX_DURATION
    ensures 0 <= Delay(base, multiplier, cap, n) <= MAX_DURATION
    ensures cap > 0 ==> Delay(base, multiplier, cap, n) <= cap
    ensures 0 < base <= MAX_DURATION && (cap <= 0 || base <= cap) ==> Delay(base, multiplier, cap, n) >= base
  {
    if base > 0 {
      var m := if multiplier < 1.0 then 1.0 else multiplier;
      var k := if n < 1 then 1 else n;
      PowGrows(m, 0, k - 1);
      hide Pow, Scaled;
      Scales(base, 1.0, Pow(m, k - 1));
      ScaledByOne(base);
      CappedGrows(base as real, Scaled(base, Pow(m, k - 1)), cap);
    }
  }

  /** Never decreasing in the attempt. */
  lemma DelayGrows(base: int, multiplier: real, cap: int, n: int)
    requires cap <= MAX_DURATION
    ensures Delay(base, multiplier, cap, n) <= Delay(base, multiplier, cap, n + 1)
  {
    if base > 0 {
      var m := if multiplier < 1.0 then 1.0 else multiplier;
      var a := if n < 1 then 1 else n;
      var b := if n + 1 < 1 then 1 else n + 1;
      PowGrows(m, a - 1, b - 1);
      hide Pow, Capped, Scaled;
      Scales(base, Pow(m, a - 1), Pow(m, b - 1));
      CappedGrows(Scaled(base, Pow(m, a - 1)), Scaled(base, Pow(m, b - 1)), cap);
    }
  }

  /** Full jitter stays between 0 and the delay. */
  lemma JitterIsBounded(delay: int, full: bool, random: real)
    requires 0.0 <= random < 1.0 && delay >= 0
    ensures 0 <= Jittered(delay, full, random) <= delay
  {
    if full && delay > 0 {
      assert random * delay as real >= 0.0;
      assert (1.0 - random) * delay as real >= 0.0;
    }
  }

  /** It is that part of the delay, in whole nanoseconds; without jitter it is the delay. */
  lemma JitterIs(delay: int, full: bool, random: real)
    requires 0.0 <= random < 1.0
    ensures var d := Jittered(delay, full, random);
      if full && delay > 0 then d as real <= random * delay as real < (d + 1) as real else d == delay
  {
  }

  // ---------- The delay of each attempt ----------

  /** What the first n delays are before they are capped and rounded: the base, and each next one multiplied. */
  predicate AreDelays(xs: seq<real>, base: int, m: real, n: nat) {
    && |xs| == n > 0 && xs[0] == base as real
    && forall i :: 0 < i < n ==> xs[i] == xs[i - 1] * m
  }

  /** The n-th delay is the base multiplied n - 1 times, or the cap when that is above it; a multiplier below 1 counts
      as 1, and an attempt below 1 as the first. Without a base there is no delay. */
  lemma DelayIs(base: int, multiplier: real, cap: int, n: int, xs: seq<real>)
    requires AreDelays(xs, base, if multiplier < 1.0 then 1.0 else multiplier, if n < 1 then 1 else n)
    ensures base <= 0 ==> Delay(base, multiplier, cap, n) == 0
    ensures var x := xs[|xs| - 1]; var d := Delay(base, multiplier, cap, n);
      base > 0 ==>
        && (cap > 0 && x > cap as real ==> d == cap)
        && (!(cap > 0 && x > cap as real) ==> d == if x >= MAX_DURATION as real then MAX_DURATION else x.Floor)
  {
    DelaysArePowers(xs, base, if multiplier < 1.0 then 1.0 else multiplier, |xs| - 1);
    hide Pow;
  }

  lemma {:induction false} DelaysArePowers(xs: seq<real>, base: int, m: real, i: nat)
    requires AreDelays(xs, base, m, |xs|) && i < |xs|
    ensures xs[i] == Scaled(base, Pow(m, i))
  {
    if i > 0 {
      DelaysArePowers(xs, base, m, i - 1);
      Reassociate(base as real, m, Pow(m, i - 1));
    }
  }

  lemma Reassociate(b: real, m: real, p: real)
    ensures (b * p) * m == b * (m * p)
  {
  }

  /** In whole numbers: the first delay is the base, and until the cap each next one is the multiplier times the one
      before. */
  lemma {:induction false} DelayMultiplies(base: int, k: int, cap: int, n: nat)
    requires base > 0 && k >= 1 && n >= 1 && (cap <= 0 || base <= cap) && base < MAX_DURATION && cap <= MAX_DURATION
    ensures Delay(base, k as real, cap, 1) == base
    ensures var d := Delay(base, k as real, cap, n);
      d * k < MAX_DURATION && (cap <= 0 || d * k <= cap) ==> Delay(base, k as real, cap, n + 1) == d * k
  {
    WholePower(k, 0);
    WholePower(k, n - 1);
    WholePower(k, n);
    hide Pow, Delay;
    WholeDelay(base, k, cap, 1);
    WholeDelay(base, k, cap, n);
    WholeDelay(base, k, cap, n + 1);
    NextPower(base, k, n);
    hide WholePow;
    var d := base * WholePow(k, n - 1);
    if Cut(d, cap) * k < MAX_DURATION && (cap <= 0 || Cut(d, cap) * k <= cap) { CutMultiplies(d, k, cap); }
  }

  lemma NextPower(base: int, k: int, n: nat)
    requires base > 0 && k >= 1 && n >= 1 && WholePow(k, n - 1) >= 1
    ensures base * WholePow(k, n) == (base * WholePow(k, n - 1)) * k && base * WholePow(k, n - 1) >= 1
    ensures base * WholePow(k, 0) == base
  {
    var p := WholePow(k, n - 1);
    assert base * (k * p) == (base * p) * k;
    AtLeastItself(base, p);
  }

  function Cut(d: int, cap: int): int {
    if cap > 0 && d > cap then cap else if d >= MAX_DURATION then MAX_DURATION else d
  }

  lemma CutMultiplies(d: int, k: int, cap: int)
    requires d >= 1 && k >= 1 && cap <= MAX_DURATION
    requires Cut(d, cap) * k < MAX_DURATION && (cap <= 0 || Cut(d, cap) * k <= cap)
    ensures Cut(d * k, cap) == Cut(d, cap) * k
  {
    AtLeastItself(d, k);
    AtLeastItself(Cut(d, cap), k);
    if Cut(d, cap) != d {
      assert Cut(d, cap) * k == Cut(d, cap);
    }
  }

  function WholePow(k: int, n: nat): int { if n == 0 then 1 else k * WholePow(k, n - 1) }

  lemma {:induction false} WholePower(k: int, n: nat)
    requires k >= 1
    ensures Pow(k as real, n) == WholePow(k, n) as real && WholePow(k, n) >= 1
  {
    if n > 0 {
      WholePower(k, n - 1);
      var p := WholePow(k, n - 1);
      assert (k * p) as real == k as real * p as real;
    }
  }

  lemma WholeDelay(base: int, k: int, cap: int, n: nat)
    requires base > 0 && k >= 1 && n >= 1
    requires Pow(k as real, n - 1) == WholePow(k, n - 1) as real
    ensures Delay(base, k as real, cap, n) == Cut(base * WholePow(k, n - 1), cap)
  {
    hide Pow, WholePow;
    var p := WholePow(k, n - 1);
    assert base as real * p as real == (base * p) as real;
  }

  lemma AtLeastItself(d: int, k: int)
    requires d >= 0 && k >= 1
    ensures d * k >= d
  {
  }
}
