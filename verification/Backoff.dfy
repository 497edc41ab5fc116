/** Retry timing in the source's own arithmetic: durations are nanoseconds in wrapping 64-bit integers. */
module Backoff {
  import opened Model
  import opened Arithmetic

  const TWO_62: int := 0x4000_0000_0000_0000
  const TWO_63: int := 0x8000_0000_0000_0000
  const TWO_64: int := 0x1_0000_0000_0000_0000
  const MILLISECOND: int := 1_000_000
  const SECOND: int := 1_000_000_000
  const MIN_DELAY: int := 100_000_000

  predicate IsInt64(x: int) { -TWO_63 <= x < TWO_63 }

  // What a 64-bit register holds of x.
  function Wrap(x: int): (r: int)
    ensures IsInt64(r) && (IsInt64(x) ==> r == x)
  {
    (x + TWO_63) % TWO_64 - TWO_63
  }

  // Wrapping takes off whole turns.
  lemma WrapTurns(x: int)
    ensures (x - Wrap(x)) % TWO_64 == 0
  {}

  lemma OneMoreWraps(x: int)
    requires IsInt64(x)
    ensures Wrap(x + 1) == if x == TWO_63 - 1 then -TWO_63 else x + 1
  {}

  function Min(a: int, b: int): int { if a <= b then a else b }
  function Max(a: int, b: int): int { if a >= b then a else b }

  // Go's division of a duration by a positive constant truncates toward zero.
  function Quot(x: int, d: int): (q: int)
    requires d > 0
    ensures if x >= 0 then 0 <= x - q * d < d else -d < x - q * d <= 0
  {
    if x >= 0 then x / d else -((-x) / d)
  }

  // ---- The window ----

  /** The design's window for the n-th failure. */
  function Window(n: nat, base: int, maxWindow: int): int
    requires n >= 1
  {
    Min(maxWindow, base * Pow(2, n - 1))
  }

  // What doubling `steps` times leaves in the register, given that it stops at the cap.
  function Doubled(steps: nat, base: int, maxWindow: int): int {
    if steps == 0 then base
    else
      var w := Doubled(steps - 1, base, maxWindow);
      if w >= maxWindow then w else Wrap(w * 2)
  }

  lemma {:induction false} DoubledStays(steps: nat, more: nat, base: int, maxWindow: int)
    requires Doubled(steps, base, maxWindow) >= maxWindow
    ensures Doubled(steps + more, base, maxWindow) == Doubled(steps, base, maxWindow)
  {
    if more == 0 {
    } else {
      DoubledStays(steps, more - 1, base, maxWindow);
    }
  }

  lemma {:induction false} DoubledIsExact(steps: nat, base: int, maxWindow: int)
    requires 0 <= base < TWO_63 && 0 <= maxWindow <= TWO_62
    ensures Min(maxWindow, Doubled(steps, base, maxWindow)) == Window(steps + 1, base, maxWindow)
    ensures 0 <= Doubled(steps, base, maxWindow) < TWO_63
    ensures Doubled(steps, base, maxWindow) < maxWindow ==> Doubled(steps, base, maxWindow) == base * Pow(2, steps)
    ensures Doubled(steps, base, maxWindow) >= maxWindow ==> base * Pow(2, steps) >= maxWindow
  {
    if steps == 0 {
    } else {
      DoubledIsExact(steps - 1, base, maxWindow);
      TwiceTimes(base, Pow(2, steps - 1));
    }
  }

  lemma TwiceTimes(x: int, y: int)
    ensures x * (2 * y) == 2 * (x * y)
  {}

  lemma CappedIsWindow(n: nat, base: int, maxWindow: int)
    requires n >= 1 && 0 <= base < TWO_63 && 0 <= maxWindow <= TWO_62
    ensures 0 <= Min(maxWindow, Doubled(n - 1, base, maxWindow)) == Window(n, base, maxWindow)
  {
    DoubledIsExact(n - 1, base, maxWindow);
  }

  /** Up to a cap of 2^62 nanoseconds the doubling loop never overflows and yields min(cap, base * 2^(n-1)), whatever
      the base and the attempt; above it some base goes wrong at the second attempt. */
  lemma WindowIsExactIff(maxWindow: int)
    requires 0 <= maxWindow < TWO_63
    ensures (forall base, n: nat | 0 <= base < TWO_63 && n >= 1 ::
               Min(maxWindow, Doubled(n - 1, base, maxWindow)) == Window(n, base, maxWindow))
            <==> maxWindow <= TWO_62
  {
    if maxWindow <= TWO_62 {
      forall base, n: nat | 0 <= base < TWO_63 && n >= 1
        ensures Min(maxWindow, Doubled(n - 1, base, maxWindow)) == Window(n, base, maxWindow)
      {
        CappedIsWindow(n, base, maxWindow);
      }
    } else {
      var base, n: nat := TWO_62, 2;
      assert Doubled(0, base, maxWindow) == base;
      assert Doubled(1, base, maxWindow) == -TWO_63;
      assert Pow(2, 1) == 2 * Pow(2, 0);
      assert Min(maxWindow, Doubled(n - 1, base, maxWindow)) != Window(n, base, maxWindow);
    }
  }

  /** A draw from a range is any value it holds: below the bound given, and not below zero. */
  ghost predicate Draws(pick: int -> int) { forall n | n > 0 :: 0 <= pick(n) < n }

  /** Drawn from zero to the window of the attempt, both included, then held above the least delay. */
  ghost predicate FullJitter(attempt: int, base: int, maxWindow: int, pick: int -> int, delay: int) {
    var window := Window(Max(1, attempt), base, maxWindow);
    delay == Max(MIN_DELAY, pick(window + 1)) && MIN_DELAY <= delay <= Max(MIN_DELAY, window)
  }

  lemma DrawnIsJitter(attempt: int, base: int, maxWindow: int, pick: int -> int)
    requires 0 <= base < TWO_63 && 0 <= maxWindow <= TWO_62 && Draws(pick)
    ensures var window := Min(maxWindow, Doubled(Max(1, attempt) - 1, base, maxWindow));
            0 <= window <= TWO_62 && FullJitter(attempt, base, maxWindow, pick, Max(MIN_DELAY, pick(window + 1)))
  {
    CappedIsWindow(Max(1, attempt), base, maxWindow);
    var window := Window(Max(1, attempt), base, maxWindow);
    assert 0 <= pick(window + 1) < window + 1;
  }

  /** One backoff.  None is the panic of drawing from an empty range. */
  method Backoff(attempt: int, base: int, maxWindow: int, pick: int -> int) returns (delay: Option<int>)
    requires IsInt64(base) && IsInt64(maxWindow) && Draws(pick)
    ensures 0 <= base && 0 <= maxWindow <= TWO_62 ==>
              delay.Some? && FullJitter(attempt, base, maxWindow, pick, delay.value)
    ensures delay.Some? ==> MIN_DELAY <= delay.value
    ensures var window := Min(maxWindow, Doubled(Max(1, attempt) - 1, base, maxWindow));
            delay.None? <==> window < 0 || window == TWO_63 - 1
  {
    var n := if attempt < 1 then 1 else attempt;
    var window := base;
    var i := 1;
    while i < n
      invariant 1 <= i <= n
      invariant window == Doubled(i - 1, base, maxWindow)
      invariant IsInt64(window)
    {
      if window >= maxWindow {
        DoubledStays(i - 1, n - i, base, maxWindow);
        break;
      }
      window := Wrap(window * 2);
      i := i + 1;
    }
    assert window == Doubled(n - 1, base, maxWindow);
    if window > maxWindow {
      window := maxWindow;
    }
    if 0 <= base && 0 <= maxWindow <= TWO_62 {
      DrawnIsJitter(attempt, base, maxWindow, pick);
    }
    OneMoreWraps(window);
    var bound := Wrap(window + 1);
    if bound <= 0 {
      return None;
    }
    var d := pick(bound);
    if d < MIN_DELAY {
      d := MIN_DELAY;
    }
    return Some(d);
  }

  // ---- Sums of windows ----

  function WindowSum(m: nat, base: int, maxWindow: int): int {
    if m == 0 then 0 else WindowSum(m - 1, base, maxWindow) + Window(m, base, maxWindow)
  }

  lemma {:induction false} PowersGrow(a: nat, b: nat)
    requires a <= b
    ensures Pow(2, a) <= Pow(2, b)
  {
    if a == b {
    } else {
      PowersGrow(a, b - 1);
    }
  }

  lemma {:induction false} DoublingSum(m: nat, base: int, maxWindow: int)
    requires base >= 0
    requires m > 0 ==> base * Pow(2, m - 1) <= maxWindow
    ensures WindowSum(m, base, maxWindow) == base * (Pow(2, m) - 1)
  {
    if m == 0 {
    } else {
      if m > 1 {
        TimesGrows(base, Pow(2, m - 2), Pow(2, m - 1));
      }
      DoublingSum(m - 1, base, maxWindow);
      assert Window(m, base, maxWindow) == base * Pow(2, m - 1);
      assert base * (Pow(2, m) - 1) == base * (Pow(2, m - 1) - 1) + base * Pow(2, m - 1) by {
        assert Pow(2, m) == Pow(2, m - 1) + Pow(2, m - 1);
      }
    }
  }

  lemma {:induction false} CappedSum(m: nat, k: nat, base: int, maxWindow: int)
    requires base >= 0 && k <= m && maxWindow <= base * Pow(2, k)
    ensures WindowSum(m, base, maxWindow) == WindowSum(k, base, maxWindow) + (m - k) * maxWindow
  {
    if m == k {
    } else {
      CappedSum(m - 1, k, base, maxWindow);
      PowersGrow(k, m - 1);
      TimesGrows(base, Pow(2, k), Pow(2, m - 1));
      assert Window(m, base, maxWindow) == maxWindow;
      assert (m - k) * maxWindow == (m - 1 - k) * maxWindow + maxWindow;
    }
  }

  /** The total wait in closed form, where k is the number of windows the cap does not cut short. */
  lemma WindowSumClosed(m: nat, k: nat, base: int, maxWindow: int)
    requires base >= 0
    requires k > 0 ==> base * Pow(2, k - 1) <= maxWindow
    requires maxWindow <= base * Pow(2, k)
    ensures WindowSum(m, base, maxWindow) ==
            if m <= k then base * (Pow(2, m) - 1) else base * (Pow(2, k) - 1) + (m - k) * maxWindow
  {
    if m <= k {
      if m > 0 {
        PowersGrow(m - 1, k - 1);
        TimesGrows(base, Pow(2, m - 1), Pow(2, k - 1));
      }
      DoublingSum(m, base, maxWindow);
    } else {
      DoublingSum(k, base, maxWindow);
      CappedSum(m, k, base, maxWindow);
    }
  }

  /** With the default base of 1 s, cap of 1 h and 24 attempts, the 23 waits between them take at most 43,695 s. */
  lemma DefaultWaits()
    ensures WindowSum(23, SECOND, 3600 * SECOND) == 43_695 * SECOND
  {
    assert Pow(2, 4) == 16 && Pow(2, 8) == 256 by {
      assert Pow(2, 2) == 4;
      assert Pow(2, 4) == 4 * Pow(2, 2);
      assert Pow(2, 6) == 4 * Pow(2, 4);
    }
    assert Pow(2, 11) == 2048 && Pow(2, 12) == 4096 by {
      assert Pow(2, 10) == 4 * Pow(2, 8);
    }
    WindowSumClosed(23, 12, SECOND, 3600 * SECOND);
  }

  // ---- Retry-After ----

  // The header as the parser sees it: seconds that fit an integer, a date as its distance from now, or neither.
  datatype RetryAfter = Absent | Seconds(secs: int) | Date(fromNow: int) | Unreadable

  function ClampWindow(d: int, maxWindow: int): int {
    if d > maxWindow then maxWindow else if d < MIN_DELAY then MIN_DELAY else d
  }

  function ParseRetryAfter(h: RetryAfter, maxWindow: int): (r: Option<int>)
    ensures MIN_DELAY <= maxWindow && r.Some? ==> MIN_DELAY <= r.value <= maxWindow
    ensures r.Some? <==> (h.Seconds? && h.secs >= 0) || (h.Date? && h.fromNow > 0)
    ensures h.Seconds? && 0 <= h.secs <= 9_223_372_036 && MIN_DELAY <= maxWindow ==>
              (if h.secs == 0 then r == Some(MIN_DELAY)
               else if h.secs * 1_000_000_000 <= maxWindow then r == Some(h.secs * 1_000_000_000)
               else r == Some(maxWindow))
    ensures h.Date? && 0 < h.fromNow && MIN_DELAY <= maxWindow ==>
              (if h.fromNow < MIN_DELAY then r == Some(MIN_DELAY)
               else if h.fromNow <= maxWindow then r == Some(h.fromNow)
               else r == Some(maxWindow))
  {
    match h
    case Absent => None
    case Unreadable => None
    case Seconds(secs) => if secs < 0 then None else Some(ClampWindow(Wrap(secs * SECOND), maxWindow))
    case Date(fromNow) => if fromNow <= 0 then None else Some(ClampWindow(fromNow, maxWindow))
  }

  /** To come back after so many seconds, at least the least delay and at most the cap. */
  predicate Obeys(r: Option<int>, secs: int, maxWindow: int) {
    if secs * SECOND < MIN_DELAY then r == Some(MIN_DELAY)
    else if secs * SECOND <= maxWindow then r == Some(secs * SECOND)
    else r == Some(maxWindow)
  }

  /** A number of seconds is obeyed exactly when converting it to nanoseconds does not wrap or wraps to something past
      the cap all the same. */
  lemma SecondsAreObeyedIff(secs: int, maxWindow: int)
    requires 0 <= secs < TWO_63 && MIN_DELAY < maxWindow < TWO_63
    ensures Obeys(ParseRetryAfter(Seconds(secs), maxWindow), secs, maxWindow)
            <==> secs <= 9_223_372_036 || Wrap(secs * SECOND) >= maxWindow
  {}

  /** A vendor that asks for 317 years gets the shortest delay there is, not the cap. */
  lemma HugeSecondsWrap()
    ensures ParseRetryAfter(Seconds(10_000_000_000), 3600 * SECOND) == Some(MIN_DELAY)
  {
    assert Wrap(10_000_000_000 * SECOND) == -8_446_744_073_709_551_616;
  }
}
