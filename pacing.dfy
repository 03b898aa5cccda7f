/** The deterministic pause between two candidate pages
    (BizreachScraper.scrape_multiple_candidates) and the log of time.sleep calls. */
module Pacing {
  import opened Wrappers

  /** Python's `%` on integers: the remainder takes the sign of the divisor
      (Dafny's own `%` is Euclidean and never negative). */
  function PyMod(a: int, b: int): int
    requires b != 0
  {
    var e := a % b;
    if b > 0 || e == 0 then e else e + b
  }

  /** Python's `//` on integers: the quotient rounded toward minus infinity. */
  function FloorDiv(a: int, b: int): int
    requires b != 0
  {
    var q := a / b;
    if b > 0 || a % b == 0 then q else q - 1
  }

  /** PyMod(a, b) is the remainder of a by b that lies between 0 and b:
      below b when b is positive, above it when b is negative, and
      a == b * (a // b) + a % b as in Python. */
  lemma PyModIsRemainder(a: int, b: int)
    requires b != 0
    ensures b > 0 ==> 0 <= PyMod(a, b) < b
    ensures b < 0 ==> b < PyMod(a, b) <= 0
    ensures a == b * FloorDiv(a, b) + PyMod(a, b)
  {
    var e := a % b;
    var q := a / b;
    assert a == b * q + e;
    if !(b > 0 || e == 0) {
      assert b * (q - 1) == b * q - b;
    }
  }

  /** The exceptions the pause can raise: `%` by zero when max == min - 1;
      time.sleep of a length whose count of nanoseconds does not fit a
      signed 64-bit integer (OverflowError); and time.sleep of a negative
      length (ValueError). */
  datatype PauseError = ZeroDivisionError | SleepOverflowError | NegativeSleepError

  /** The smallest whole number of seconds whose count of nanoseconds
      exceeds 2^63 - 1; time.sleep refuses it, and its negation, before it
      looks at the sign. */
  const SleepOverflowSeconds: int := 9223372037

  /** The pause issued after the i-th URL (1-based) for the wait range
      (lo, hi): lo + i mod (hi - lo + 1), or the exception it raises. */
  function PauseAfter(i: int, lo: int, hi: int): Result<nat, PauseError> {
    var span := hi - lo + 1;
    if span == 0 then Failure(ZeroDivisionError)
    else
      var wait := lo + PyMod(i, span);
      if wait >= SleepOverflowSeconds || wait <= -SleepOverflowSeconds then Failure(SleepOverflowError)
      else if wait < 0 then Failure(NegativeSleepError)
      else Success(wait)
  }

  /** For a sensible range the pause never fails and stays within [lo, hi]. */
  lemma PauseWithinRange(i: nat, lo: int, hi: int)
    requires 0 <= lo <= hi < SleepOverflowSeconds
    ensures PauseAfter(i, lo, hi) == Success(lo + i % (hi - lo + 1))
    ensures lo <= PauseAfter(i, lo, hi).value <= hi
  {
  }

  /** The pause (or exception) issued after each 1-based position of a run. */
  type Schedule = int -> Result<nat, PauseError>

  /** The schedule of scrape_multiple_candidates for the wait range (lo, hi). */
  function PauseSchedule(lo: int, hi: int): Schedule {
    i => PauseAfter(i, lo, hi)
  }

  /** The first position in [i, n) whose pause fails, or n if none does. */
  function FirstFailure(i: nat, n: nat, pause: Schedule): (k: nat)
    requires 1 <= i <= n
    ensures i <= k <= n
    ensures forall j :: i <= j < k ==> pause(j).Success?
    ensures k < n ==> pause(k).Failure?
    decreases n - i
  {
    if i == n || pause(i).Failure? then i else FirstFailure(i + 1, n, pause)
  }

  /** How many of n URLs a run scrapes before a pause raises (n if none does). */
  function Completed(n: nat, pause: Schedule): nat {
    if n == 0 then 0 else FirstFailure(1, n, pause)
  }

  /** Completed(n, pause) is the first 1-based position before n whose pause
      raises, or n when none does. */
  lemma CompletedIsFirstFailure(n: nat, pause: Schedule)
    ensures Completed(n, pause) <= n && (0 < n ==> 1 <= Completed(n, pause))
    ensures forall j :: 1 <= j < Completed(n, pause) ==> pause(j).Success?
    ensures Completed(n, pause) < n ==> pause(Completed(n, pause)).Failure?
  {
  }

  /** A run stops exactly at the first pause that raises. */
  lemma CompletedStopsAt(n: nat, pause: Schedule, j: nat)
    requires 1 <= j < n && j <= Completed(n, pause) && pause(j).Failure?
    ensures Completed(n, pause) == j
  {
    CompletedIsFirstFailure(n, pause);
  }

  /** A pause that succeeds lets the run go past it. */
  lemma CompletedPassesSuccess(n: nat, pause: Schedule, j: nat)
    requires 1 <= j < n && j <= Completed(n, pause) && pause(j).Success?
    ensures j < Completed(n, pause)
  {
    CompletedIsFirstFailure(n, pause);
  }

  /** With 0 <= lo <= hi (and hi below the overflow bound) every run scrapes
      all of its URLs. */
  lemma CompletedWhenRangeValid(n: nat, lo: int, hi: int)
    requires 0 <= lo <= hi < SleepOverflowSeconds
    ensures Completed(n, PauseSchedule(lo, hi)) == n
  {
    var k := Completed(n, PauseSchedule(lo, hi));
    CompletedIsFirstFailure(n, PauseSchedule(lo, hi));
    if k < n {
      PauseWithinRange(k, lo, hi);
    }
  }

  /** With max == min - 1 any run of two or more URLs stops after the first. */
  lemma CompletedWhenSpanIsZero(n: nat, lo: int)
    requires 2 <= n
    ensures Completed(n, PauseSchedule(lo, lo - 1)) == 1
  {
  }

  /** A wait range whose minimum is already too long for time.sleep stops
      any run of two or more URLs after the first. */
  lemma CompletedWhenSleepOverflows(n: nat, lo: int, hi: int)
    requires 2 <= n && SleepOverflowSeconds <= lo <= hi
    ensures PauseAfter(1, lo, hi) == Failure(SleepOverflowError)
    ensures Completed(n, PauseSchedule(lo, hi)) == 1
  {
    PyModIsRemainder(1, hi - lo + 1);
  }

  /** One call to time.sleep: the settle delay after a page loads, or a
      pacing delay between two URLs. */
  datatype Sleep = Settle | Pacing(seconds: nat)

  /** Seconds slept after a successful navigation. */
  const SettleSeconds: nat := 3

  function Seconds(s: Sleep): nat {
    match s
    case Settle => SettleSeconds
    case Pacing(n) => n
  }

  /** The lengths of the pacing delays in a log, in order. */
  function PacingSeconds(log: seq<Sleep>): seq<nat>
    decreases |log|
  {
    if log == [] then []
    else PacingSeconds(log[..|log| - 1]) + (if log[|log| - 1].Pacing? then [log[|log| - 1].seconds] else [])
  }

  lemma {:induction false} PacingSecondsAppend(a: seq<Sleep>, b: seq<Sleep>)
    ensures PacingSeconds(a + b) == PacingSeconds(a) + PacingSeconds(b)
    decreases |b|
  {
    if b != [] {
      var init := b[..|b| - 1];
      assert (a + b)[..|a + b| - 1] == a + init;
      PacingSecondsAppend(a, init);
    } else {
      assert a + b == a;
    }
  }

  /** A log of one sleep holds one pacing delay iff that sleep is one. */
  lemma PacingSecondsOfOne(s: Sleep)
    ensures PacingSeconds([s]) == if s.Pacing? then [s.seconds] else []
  {
    assert [s][..0] == [];
  }
}
