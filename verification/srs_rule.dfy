/** The pass/fail scheduling rule of the current review engine: how one answer
    moves a card's repetitions, interval, ease and due time. Ease values are in
    hundredths, so every step is exact integer arithmetic. */
module SrsRule {

  import opened Common
  import opened SrsStates

  const EASE_STEP_UP: int := 5      // new BigDecimal("0.05")
  const EASE_STEP_DOWN: int := 15   // new BigDecimal("0.15")

  /** setScale(0, RoundingMode.HALF_UP) of a decimal given in hundredths: the
      nearest whole number, halves rounded away from zero. */
  function RoundHalfUp(p: int): (r: int)
    ensures p >= 0 ==> 100 * r - 50 <= p < 100 * r + 50
    ensures p < 0 ==> 100 * r - 50 < p <= 100 * r + 50
  {
    if p >= 0 then (p + 50) / 100 else -((-p + 50) / 100)
  }

  /** minBD: the smaller of two decimals (the first on a tie). */
  function MinBD(a: int, b: int): (r: int)
    ensures r <= a && r <= b && (r == a || r == b)
  {
    if a <= b then a else b
  }

  /** maxBD: the larger of two decimals (the first on a tie). */
  function MaxBD(a: int, b: int): (r: int)
    ensures r >= a && r >= b && (r == a || r == b)
  {
    if a >= b then a else b
  }

  /** The state a card gets before its first answer: due now, interval 0,
      ease 2.50, no repetitions, last result 0. */
  function Bootstrap(now: Instant): (r: SrsRow)
    ensures RowValid(r) && r.version == 0
    ensures r.dueAt == now && r.updatedAt == now
    ensures r.intervalDays == 0 && r.ease == EASE_DEFAULT && r.repetitions == 0 && r.lastResult == 0
  {
    SrsRow(0, now, 0, EASE_DEFAULT, 0, 0, now)
  }

  /** The interval after a correct answer, given the repetition count it
      produced and the previous interval and ease: 1 day, then 3 days, then the
      previous interval times the previous ease, rounded, but at least 1. */
  function NextInterval(repetitions: int, interval: int, ease: int): (r: int)
    ensures r >= 1
    ensures repetitions == 1 ==> r == 1
    ensures repetitions == 2 ==> r == 3
  {
    if repetitions == 1 then 1
    else if repetitions == 2 then 3
    else Max(1, IntValue(RoundHalfUp(interval * ease)))
  }

  /** One answer applied to a state at time now. The version is left to the
      store, which bumps it on commit. */
  function Schedule(s: SrsRow, isCorrect: bool, now: Instant): (r: SrsRow)
    ensures r.version == s.version && r.updatedAt == now
    ensures r.intervalDays >= 1 && r.dueAt == PlusDays(now, r.intervalDays)
    ensures RowValid(s) ==> RowValid(r)
    ensures isCorrect ==> r.repetitions == s.repetitions + 1 && r.lastResult == 1
    ensures !isCorrect ==> r.repetitions == 0 && r.intervalDays == 1 && r.lastResult == 0
  {
    if isCorrect then
      var reps := s.repetitions + 1;
      var interval := NextInterval(reps, s.intervalDays, s.ease);
      SrsRow(s.version, PlusDays(now, interval), interval,
             MinBD(s.ease + EASE_STEP_UP, EASE_MAX), reps, 1, now)
    else
      SrsRow(s.version, PlusDays(now, 1), 1,
             MaxBD(s.ease - EASE_STEP_DOWN, EASE_MIN), 0, 0, now)
  }

  /** A correct answer raises the ease by 0.05 up to the cap 3.00; an incorrect
      one lowers it by 0.15 down to the floor 1.30. From a valid state the ease
      never moves the wrong way. */
  lemma {:induction false} EaseStep(s: SrsRow, isCorrect: bool, now: Instant)
    requires RowValid(s)
    ensures isCorrect ==> Schedule(s, isCorrect, now).ease == Min(s.ease + EASE_STEP_UP, EASE_MAX) >= s.ease
    ensures !isCorrect ==> Schedule(s, isCorrect, now).ease == Max(s.ease - EASE_STEP_DOWN, EASE_MIN) <= s.ease
  {
  }

  /** Once past the first two repetitions, a correct answer never shortens the
      interval, as long as the product stays within int range. */
  lemma {:induction false} IntervalNeverShrinks(s: SrsRow, now: Instant)
    requires RowValid(s) && s.repetitions >= 2 && s.intervalDays <= INT_MAX / 3
    ensures Schedule(s, true, now).intervalDays >= s.intervalDays
  {
    var p := s.intervalDays * s.ease;
    assert s.intervalDays * 100 <= p <= s.intervalDays * 300 by {
      MulBounds(s.intervalDays, s.ease, 100, 300);
    }
    var q := RoundHalfUp(p);
    assert s.intervalDays <= q <= 3 * s.intervalDays;
    assert IntValue(q) == q;
  }

  lemma {:induction false} MulBounds(a: int, b: int, lo: int, hi: int)
    requires a >= 0 && lo <= b <= hi
    ensures a * lo <= a * b <= a * hi
  {
  }

  /** The state after a run of answers, all at the same moment. */
  function Replay(s: SrsRow, answers: seq<bool>, now: Instant): SrsRow
    decreases |answers|
  {
    if answers == [] then s else Replay(Schedule(s, answers[0], now), answers[1..], now)
  }

  /** Any sequence of answers keeps a valid state valid: the ease stays in
      [1.30, 3.00], and the interval, repetitions and last result within their
      bounds. */
  lemma {:induction false} ReplayKeepsValid(s: SrsRow, answers: seq<bool>, now: Instant)
    requires RowValid(s)
    ensures RowValid(Replay(s, answers, now))
    ensures answers != [] ==> Replay(s, answers, now).intervalDays >= 1
    decreases |answers|
  {
    if answers != [] {
      ReplayKeepsValid(Schedule(s, answers[0], now), answers[1..], now);
    }
  }

  /** k incorrect answers in a row lower the ease by 0.15 each, stopping at 1.30. */
  lemma {:induction false} RepeatedLapses(s: SrsRow, k: nat, now: Instant)
    requires s.ease >= EASE_MIN
    ensures Replay(s, seq(k, _ => false), now).ease == Max(s.ease - EASE_STEP_DOWN * k, EASE_MIN)
    decreases k
  {
    if k > 0 {
      var t := Schedule(s, false, now);
      assert seq(k, _ => false)[1..] == seq(k - 1, _ => false);
      RepeatedLapses(t, k - 1, now);
    }
  }

  /** k correct answers in a row raise the ease by 0.05 each, stopping at 3.00. */
  lemma {:induction false} RepeatedSuccesses(s: SrsRow, k: nat, now: Instant)
    requires s.ease <= EASE_MAX
    ensures Replay(s, seq(k, _ => true), now).ease == Min(s.ease + EASE_STEP_UP * k, EASE_MAX)
    decreases k
  {
    if k > 0 {
      var t := Schedule(s, true, now);
      assert seq(k, _ => true)[1..] == seq(k - 1, _ => true);
      RepeatedSuccesses(t, k - 1, now);
    }
  }

  /** After a lapse the ladder starts again: the next correct answer gives one
      repetition and a one-day interval, whatever came before. */
  lemma {:induction false} LapseRestartsLadder(s: SrsRow, now: Instant, later: Instant)
    ensures var t := Schedule(Schedule(s, false, now), true, later);
            t.repetitions == 1 && t.intervalDays == 1 && t.dueAt == PlusDays(later, 1)
  {
  }

  /** A new card answered correctly three times: 1 day at ease 2.55, 3 days at
      ease 2.60, then round(3 x 2.60) = 8 days at ease 2.65. */
  lemma {:induction false} FirstThreeSuccesses(now: Instant)
    ensures var a := Schedule(Bootstrap(now), true, now);
            var b := Schedule(a, true, now);
            var c := Schedule(b, true, now);
            && a.intervalDays == 1 && a.ease == 255
            && b.intervalDays == 3 && b.ease == 260
            && c.intervalDays == 8 && c.ease == 265 && c.repetitions == 3
  {
    var b := Schedule(Schedule(Bootstrap(now), true, now), true, now);
    assert RoundHalfUp(3 * 260) == 8;
  }
}
