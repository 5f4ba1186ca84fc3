/** The words-per-minute, letters-per-minute and accuracy figures, computed both by
    the live refresh (lines 52-56) and at the end of a test (lines 80-83). The
    source divides in floating point and rounds with `Math.round`; here the
    division is exact and rounding is "nearest integer, halves upward". */
module Metrics {

  datatype Stats = Stats(wpm: nat, lpm: nat, accuracy: nat)

  /** `Math.round(num / den)` for non-negative operands: floor(num / den + 1/2). */
  function RoundDiv(num: nat, den: nat): (r: nat)
    requires den > 0
    ensures 2 * den * r <= 2 * num + den < 2 * den * (r + 1)
  {
    (2 * num + den) / (2 * den)
  }

  /** Elapsed seconds `duration - timeLeft`, never less than one: the source's
      `Math.max((duration - timeLeft) / 60, 1/60)` minutes, times 60. */
  function ElapsedSeconds(duration: int, timeLeft: int): (e: nat)
    ensures e >= 1 && e >= duration - timeLeft
    ensures e == 1 || e == duration - timeLeft
  {
    if duration - timeLeft >= 1 then duration - timeLeft else 1
  }

  /** `Math.round(count / elapsedMinutes)`: a count per minute over `elapsed`
      seconds, rounded to the nearest integer. */
  function PerMinute(count: nat, elapsed: nat): (r: nat)
    requires elapsed >= 1
    ensures 2 * elapsed * r <= 120 * count + elapsed < 2 * elapsed * (r + 1)
  {
    RoundDiv(60 * count, elapsed)
  }

  /** `Math.round((correctWords / (currentWordIndex || 1)) * 100)`: the percentage
      of correct words among the words passed, rounded, with an index of 0 read as 1. */
  function Accuracy(correctWords: nat, cursor: nat): (r: nat)
    ensures var c := if cursor == 0 then 1 else cursor;
            2 * c * r <= 200 * correctWords + c < 2 * c * (r + 1)
  {
    RoundDiv(100 * correctWords, if cursor == 0 then 1 else cursor)
  }

  /** The three figures from the session's counters and clock. */
  function Compute(correctWords: nat, correctLetters: nat, cursor: nat, duration: int, timeLeft: int): Stats
  {
    var e := ElapsedSeconds(duration, timeLeft);
    Stats(PerMinute(correctWords, e), PerMinute(correctLetters, e), Accuracy(correctWords, cursor))
  }

  /** Rounding a larger quotient never gives a smaller result. */
  lemma RoundDivMonotone(m: nat, n: nat, den: nat)
    requires den > 0 && m <= n
    ensures RoundDiv(m, den) <= RoundDiv(n, den)
  {
    var r, s := RoundDiv(m, den), RoundDiv(n, den);
    MultiplyCancel(2 * den, r, s + 1);
  }

  lemma MultiplyCancel(k: nat, x: nat, y: nat)
    requires k * x < k * y
    ensures x < y
  {
  }

  /** An exact quotient is not moved by rounding. */
  lemma RoundDivExact(q: nat, den: nat)
    requires den > 0
    ensures RoundDiv(q * den, den) == q
  {
    var r := RoundDiv(q * den, den);
    assert 2 * den * r <= 2 * den * q + den < 2 * den * (r + 1);
    MultiplyCancel(2 * den, r, q + 1);
    MultiplyCancel(2 * den, q, r + 1);
  }

  /** Accuracy is a percentage: at most 100 when no more words are correct than were
      passed, 0 when none is correct, 100 when every passed word is correct. */
  lemma AccuracyRange(correctWords: nat, cursor: nat)
    requires correctWords <= cursor
    ensures Accuracy(correctWords, cursor) <= 100
    ensures correctWords == 0 ==> Accuracy(correctWords, cursor) == 0
    ensures 0 < correctWords == cursor ==> Accuracy(correctWords, cursor) == 100
  {
    var c := if cursor == 0 then 1 else cursor;
    RoundDivMonotone(100 * correctWords, 100 * c, c);
    RoundDivExact(100, c);
    if correctWords == 0 {
      RoundDivExact(0, c);
    }
  }

  /** When the correct-word count moves in lockstep with the index, as it does in the
      session, accuracy can only be 0 (nothing passed yet) or 100. */
  lemma AccuracyLockstep(n: nat)
    ensures Accuracy(n, n) == if n == 0 then 0 else 100
  {
    AccuracyRange(n, n);
  }

  /** More letters than words always means at least as high a letter rate as word rate. */
  lemma LpmAtLeastWpm(correctWords: nat, correctLetters: nat, cursor: nat, duration: int, timeLeft: int)
    requires correctWords <= correctLetters
    ensures Compute(correctWords, correctLetters, cursor, duration, timeLeft).wpm
         <= Compute(correctWords, correctLetters, cursor, duration, timeLeft).lpm
  {
    RoundDivMonotone(60 * correctWords, 60 * correctLetters, ElapsedSeconds(duration, timeLeft));
  }

  /** Before any word is typed correctly every figure is zero, whatever the clock says. */
  lemma NothingTypedGivesZero(cursor: nat, duration: int, timeLeft: int)
    ensures Compute(0, 0, cursor, duration, timeLeft) == Stats(0, 0, 0)
  {
  }
}
