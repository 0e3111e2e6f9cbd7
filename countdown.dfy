/** The divmod arithmetic of the countdown label (update_countdown): the time left before
    the scheduled moment, split into days, hours, minutes and seconds. */
module Countdown {

  /** The four numbers shown in "Time until execution: {d}d {h}h {m}m {s}s". */
  datatype Countdown = Countdown(days: nat, hours: nat, minutes: nat, seconds: nat)

  /** The number of seconds a countdown stands for. */
  function TotalSeconds(c: Countdown): nat {
    c.days * 86400 + c.hours * 3600 + c.minutes * 60 + c.seconds
  }

  /** Every field below its carry-over bound, as divmod leaves it. */
  predicate Normalized(c: Countdown) {
    c.hours < 24 && c.minutes < 60 && c.seconds < 60
  }

  /** The timedelta's days plus two divmod steps on its seconds-within-the-day. */
  function Decompose(remaining: nat): (c: Countdown)
    ensures Normalized(c)
    ensures TotalSeconds(c) == remaining
  {
    var days, secs := remaining / 86400, remaining % 86400;
    var hours, rest := secs / 3600, secs % 3600;
    var minutes, seconds := rest / 60, rest % 60;
    Countdown(days, hours, minutes, seconds)
  }

  /** Dividing `x` by `d` has only one quotient and remainder. */
  lemma {:induction false} DivModUnique(x: int, d: int, q: int, r: int)
    requires 0 < d && 0 <= r < d
    requires x == q * d + r
    ensures x / d == q && x % d == r
  {
    var q', r' := x / d, x % d;
    assert (q - q') * d == r' - r;
    if q > q' {
      MulAtLeast(q - q', d);
    } else if q < q' {
      MulAtLeast(q' - q, d);
    }
  }

  /** A positive multiple of `d` is at least `d`. */
  lemma {:induction false} MulAtLeast(k: int, d: int)
    requires k >= 1 && d > 0
    ensures k * d >= d
  {
    assert k * d == (k - 1) * d + d;
  }

  /** Decompose inverts TotalSeconds on normalized countdowns: no other split is displayed. */
  lemma {:induction false} DecomposeTotalSeconds(c: Countdown)
    requires Normalized(c)
    ensures Decompose(TotalSeconds(c)) == c
  {
    var inDay := c.hours * 3600 + c.minutes * 60 + c.seconds;
    var rest := c.minutes * 60 + c.seconds;
    DivModUnique(TotalSeconds(c), 86400, c.days, inDay);
    DivModUnique(inDay, 3600, c.hours, rest);
    DivModUnique(rest, 60, c.minutes, c.seconds);
  }

  /** Two remaining times give the same display only when they are equal. */
  lemma {:induction false} DecomposeInjective(a: nat, b: nat)
    requires Decompose(a) == Decompose(b)
    ensures a == b
  {
  }
}
