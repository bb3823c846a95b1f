/** The pure fixed-window arithmetic of the rate limiter. Instants and durations are whole
    nanoseconds; the epoch is 0. */
module Window {
  const SECOND: int := 1_000_000_000

  /** Go's `%`, which truncates toward zero. */
  function GoRem(a: int, b: int): int
    requires b > 0
  {
    if a >= 0 then a % b else -((-a) % b)
  }

  /** limiter.WindowStart: whole Unix seconds, whole seconds of the window. */
  function WindowStart(now: int, window: int): int
    requires window >= SECOND
  {
    var size := window / SECOND;
    var secs := now / SECOND;
    (secs - GoRem(secs, size)) * SECOND
  }

  /** The store's floor(epoch / window) * window, exactly. */
  function SqlWindowStart(now: int, window: int): int
    requires window > 0
  {
    (now / window) * window
  }

  predicate WholeSeconds(window: int) { window >= SECOND && window % SECOND == 0 }

  // ---- Division facts -----------------------------------------------------------------

  lemma DivUnique(n: int, d: int, q: int)
    requires d > 0 && q * d <= n < (q + 1) * d
    ensures n / d == q
  {
    var r := n / d;
    assert n == r * d + n % d;
    if r < q { MulMono(r + 1, q, d); }
    if q < r { MulMono(q + 1, r, d); }
  }

  lemma MulMono(a: int, b: int, d: int)
    requires a <= b && d > 0
    ensures a * d <= b * d
  {
    assert b * d - a * d == (b - a) * d;
  }

  /** Dividing by whole seconds and then by the size is dividing by the window. */
  lemma DivDiv(n: int, size: int)
    requires size > 0
    ensures (n / SECOND) / size == n / (size * SECOND)
  {
    var s := n / SECOND;
    var q := s / size;
    var w := size * SECOND;
    assert s == q * size + s % size;
    MulMono(q * size, s, SECOND);
    MulMono(s + 1, (q + 1) * size, SECOND);
    assert q * w == q * size * SECOND;
    assert (q + 1) * w == (q + 1) * size * SECOND;
    DivUnique(n, w, q);
  }

  // ---- The two formulas ---------------------------------------------------------------

  /** With a whole-second window the Go and SQL formulas agree at an instant exactly when it is
      not before the epoch, or falls on a window boundary second. */
  lemma FormulasAgreeAt(now: int, window: int)
    requires WholeSeconds(window)
    ensures WindowStart(now, window) == SqlWindowStart(now, window)
            <==> now >= 0 || (now / SECOND) % (window / SECOND) == 0
  {
    var size := window / SECOND;
    var secs := now / SECOND;
    assert window == size * SECOND;
    DivDiv(now, size);
    assert SqlWindowStart(now, window) == (secs / size) * size * SECOND;
    assert secs == (secs / size) * size + secs % size;
    if now < 0 {
      assert secs < 0;
      NegRem(secs, size);
    }
  }

  lemma NegRem(a: int, b: int)
    requires a < 0 && b > 0
    ensures a % b == 0 ==> (-a) % b == 0
    ensures a % b != 0 ==> GoRem(a, b) != a % b
  {
    var q := a / b;
    assert a == q * b + a % b;
    if a % b == 0 {
      assert -a == (-q) * b;
      DivUnique(-a, b, -q);
    }
  }

  /** The two formulas agree at every instant from the epoch on if and only if the window is a
      whole number of seconds; the configuration only demands at least one second. */
  lemma FormulasAgreeIffWholeSeconds(window: int)
    requires window >= SECOND
    ensures (forall now :: now >= 0 ==> WindowStart(now, window) == SqlWindowStart(now, window))
            <==> WholeSeconds(window)
  {
    if WholeSeconds(window) {
      forall now | now >= 0 ensures WindowStart(now, window) == SqlWindowStart(now, window) {
        FormulasAgreeAt(now, window);
      }
    } else {
      DivUnique(window, window, 1);
      assert SqlWindowStart(window, window) == window;
      var k := window / SECOND - GoRem(window / SECOND, window / SECOND);
      assert WindowStart(window, window) == k * SECOND;
      assert WindowStart(window, window) % SECOND == 0 by { DivUnique(k * SECOND, SECOND, k); }
      assert WindowStart(window, window) != SqlWindowStart(window, window);
    }
  }

  /** Windows of any length partition time: an instant lies in exactly one aligned window, the
      one the store names; with whole seconds that is the one Go names too. */
  lemma WindowsPartition(now: int, window: int, k: int)
    requires window > 0
    ensures SqlWindowStart(now, window) <= now < SqlWindowStart(now, window) + window
    ensures k * window <= now < (k + 1) * window <==> SqlWindowStart(now, window) == k * window
    ensures WholeSeconds(window) && now >= 0 ==> WindowStart(now, window) == SqlWindowStart(now, window)
  {
    if WholeSeconds(window) { FormulasAgreeAt(now, window); }
    var q := now / window;
    assert now == q * window + now % window;
    assert (k + 1) * window == k * window + window;
    if k * window <= now < (k + 1) * window { DivUnique(now, window, k); }
  }

  /** Time passing never moves the window back, and it moves it on exactly at the boundary. */
  lemma LaterWindow(now: int, later: int, window: int)
    requires window > 0 && now <= later
    ensures SqlWindowStart(now, window) <= SqlWindowStart(later, window)
    ensures SqlWindowStart(later, window) > SqlWindowStart(now, window)
            <==> later >= SqlWindowStart(now, window) + window
  {
    WindowsPartition(now, window, now / window);
    WindowsPartition(later, window, later / window);
    var a, b := now / window, later / window;
    assert (b + 1) * window == b * window + window;
    assert (a + 1) * window == a * window + window;
    if b < a { MulMono(b + 1, a, window); }
    if a < b { MulMono(a + 1, b, window); }
  }

  // ---- Decisions ----------------------------------------------------------------------

  datatype Decision = Decision(allowed: bool, limit: int, remaining: int, resetAt: int,
                               retryAfter: int, degraded: bool)

  /** `count` already includes the current request. */
  function Decide(count: int, limit: int, start: int, window: int, now: int): Decision {
    var resetAt := start + window;
    var allowed := count <= limit;
    Decision(allowed, limit, if limit - count > 0 then limit - count else 0, resetAt,
             if allowed then 0 else if resetAt - now > 0 then resetAt - now else 0, false)
  }

  /** The Retry-After header: whole seconds, rounded up. */
  function RetryAfterSeconds(d: Decision): int {
    if d.retryAfter <= 0 then 0 else (d.retryAfter + SECOND - 1) / SECOND
  }

  /** A denied request is told to wait at least one second, and the number it is told is the
      least whole number of seconds after which it falls in a later window. */
  lemma RetryAfterIsLeast(count: int, limit: int, now: int, window: int, m: nat)
    requires window > 0 && count > limit
    ensures var start := SqlWindowStart(now, window);
            var d := Decide(count, limit, start, window, now);
            && !d.allowed && RetryAfterSeconds(d) >= 1
            && (SqlWindowStart(now + m * SECOND, window) > start <==> m >= RetryAfterSeconds(d))
  {
    var start := SqlWindowStart(now, window);
    WindowsPartition(now, window, 0);
    var left := start + window - now;
    var n := (left + SECOND - 1) / SECOND;
    assert left + SECOND - 1 == n * SECOND + (left + SECOND - 1) % SECOND;
    assert n >= 1;
    LaterWindow(now, now + m * SECOND, window);
    if m >= n { MulMono(n, m, SECOND); } else { MulMono(m + 1, n, SECOND); }
  }

  /** The reset told with a decision is the first instant of the next window: a boundary, and
      later instants are in a later window exactly from it on. What is left is never negative. */
  lemma ResetStartsTheNextWindow(count: int, limit: int, now: int, window: int, later: int)
    requires window > 0 && now <= later
    ensures var start := SqlWindowStart(now, window);
            var d := Decide(count, limit, start, window, now);
            && now < d.resetAt && SqlWindowStart(d.resetAt, window) == d.resetAt
            && (SqlWindowStart(later, window) > start <==> later >= d.resetAt)
            && d.remaining >= 0 && (d.allowed <==> count <= limit)
            && d.retryAfter == (if count <= limit then 0 else d.resetAt - now)
  {
    var start := SqlWindowStart(now, window);
    WindowsPartition(now, window, now / window);
    LaterWindow(now, later, window);
    var k := now / window + 1;
    assert k * window == start + window && (k + 1) * window == k * window + window;
    WindowsPartition(start + window, window, k);
  }

  /** What a client is told to have left is what the limit will still let through: exactly the
      counts count + 1 .. count + remaining are allowed. */
  lemma RemainingIsExact(count: int, limit: int, start: int, window: int, now: int, next: int)
    requires next > count
    ensures Decide(next, limit, start, window, now).allowed
            <==> next - count <= Decide(count, limit, start, window, now).remaining
  {
  }
}
