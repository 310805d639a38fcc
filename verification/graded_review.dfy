/** The graded scheduler of the second backend generation, a variant of SM-2:
    each answer carries a grade from 0 to 5; a grade below 3 is a lapse. The
    per-card review keeps a repetition count, a lapse count, an interval in
    days and an ease factor. The source computes the ease in double and
    stores it rounded to two decimals; every step it takes is a whole number
    of hundredths, so the model keeps the ease in hundredths (2.50 is 250). */
module LegacyReviews {

  import opened Common
  import opened SrsRule

  const MIN_EASE: int := 130          // BigDecimal.valueOf(1.30)
  const DEFAULT_EASE: int := 250      // new BigDecimal("2.50")
  const LAPSE_PENALTY: int := 20      // ease - 0.20
  const DEFAULT_SKIP_MINUTES: int := 10
  const MAX_STORED_EASE: int := 9999  // the ease column is numeric(4,2): at most 99.99

  /** A stored review row; its key is the card id. */
  datatype ReviewRow = ReviewRow(
    dueAt: Instant,
    intervalDays: int,
    ease: int,
    reps: int,
    lapses: int,
    lastReviewedAt: Option<Instant>)

  /** A stored review_log row. The previous interval is null when it was 0.
      The two eases are in hundredths, as the review holds them: the entity
      declares them Double but the service sets them from BigDecimal values,
      so the row keeps the value those calls mean. */
  datatype LogRow = LogRow(
    cardId: CardId,
    reviewedAt: Instant,
    grade: int,
    prevDueAt: Instant,
    newDueAt: Instant,
    prevInterval: Option<int>,
    newInterval: int,
    prevEase: int,
    newEase: int)

  datatype ReviewDto = ReviewDto(
    cardId: CardId, dueAt: Instant, intervalDays: int, ease: int, reps: int, lapses: int,
    lastReviewedAt: Option<Instant>)

  /** The interval is not negative, the ease at least 1.30, and the two
      counts are Java ints. */
  predicate ReviewValid(r: ReviewRow) {
    && r.intervalDays >= 0 && r.ease >= MIN_EASE
    && INT_MIN <= r.reps <= INT_MAX && INT_MIN <= r.lapses <= INT_MAX
  }

  // ---------------------------------------------------------------------
  // The rule
  // ---------------------------------------------------------------------

  /** The SM-2 ease change 0.1 - (5 - g) * (0.08 + (5 - g) * 0.02), in
      hundredths. */
  function EaseDelta(grade: int): (d: int)
    ensures grade == 5 ==> d == 10
    ensures grade == 4 ==> d == 0
    ensures grade == 3 ==> d == -14
    ensures 3 <= grade <= 5 ==> -14 <= d <= 10
  {
    var q := 5 - grade;
    10 - q * (8 + 2 * q)
  }

  /** Math.round of a value given in hundredths: floor(x + 0.5). */
  function MathRound(p: int): (r: int)
    ensures 100 * r - 50 <= p < 100 * r + 50
  {
    (p + 50) / 100
  }

  /** The interval a passing answer gives, from the repetition count it
      produced: 1 day, then 6 days, then the previous interval times the
      previous ease, rounded and truncated to int, but at least 1. */
  function PassInterval(reps: int, interval: int, ease: int): (r: int)
    ensures r >= 1
    ensures reps == 1 ==> r == 1
    ensures reps == 2 ==> r == 6
  {
    if reps == 1 then 1
    else if reps == 2 then 6
    else Max(1, IntValue(MathRound(interval * ease)))
  }

  /** One graded answer at time now, for a grade already checked to be in
      0..5. The repetition and lapse counts are ints and wrap past
      2^31 - 1. */
  function Graded(s: ReviewRow, grade: int, now: Instant): (r: ReviewRow)
    ensures r.intervalDays >= 1 && r.dueAt == PlusDays(now, r.intervalDays) && r.lastReviewedAt == Some(now)
    ensures r.ease >= MIN_EASE
    ensures grade < 3 ==> && r.lapses == IntValue(s.lapses + 1) && r.reps == 0 && r.intervalDays == 1
                          && r.ease == Max(MIN_EASE, s.ease - LAPSE_PENALTY)
    ensures grade >= 3 ==> && r.lapses == s.lapses && r.reps == IntValue(s.reps + 1)
                           && r.intervalDays == PassInterval(IntValue(s.reps + 1), s.intervalDays, s.ease)
                           && r.ease == Max(MIN_EASE, s.ease + EaseDelta(grade))
    ensures ReviewValid(s) ==> ReviewValid(r)
  {
    if grade < 3 then
      ReviewRow(PlusDays(now, 1), 1, Max(MIN_EASE, s.ease - LAPSE_PENALTY), 0, IntValue(s.lapses + 1), Some(now))
    else
      var reps := IntValue(s.reps + 1);
      var interval := PassInterval(reps, s.intervalDays, s.ease);
      ReviewRow(PlusDays(now, interval), interval, Max(MIN_EASE, s.ease + EaseDelta(grade)), reps, s.lapses, Some(now))
  }

  /** The review of a card answered for the first time: due now, interval 0,
      and the ease a missing value stands for, 2.50. */
  function FirstReview(now: Instant): (r: ReviewRow)
    ensures ReviewValid(r) && r.dueAt == now && r.ease == DEFAULT_EASE
    ensures r.intervalDays == 0 && r.reps == 0 && r.lapses == 0 && r.lastReviewedAt.None?
  {
    ReviewRow(now, 0, DEFAULT_EASE, 0, 0, None)
  }

  function ReviewBefore(reviews: map<CardId, ReviewRow>, id: CardId, now: Instant): (r: ReviewRow)
    ensures id in reviews ==> r == reviews[id]
    ensures id !in reviews ==> r == FirstReview(now)
  {
    if id in reviews then reviews[id] else FirstReview(now)
  }

  /** The log of one answer: the grade, and due time, interval and ease
      before and after; a previous interval of 0 is logged as null. */
  function LogOf(id: CardId, grade: int, now: Instant, before: ReviewRow, after: ReviewRow): (l: LogRow)
    ensures l.cardId == id && l.reviewedAt == now && l.grade == grade
    ensures l.prevDueAt == before.dueAt && l.newDueAt == after.dueAt
    ensures l.prevInterval.None? <==> before.intervalDays == 0
    ensures l.prevInterval.Some? ==> l.prevInterval.value == before.intervalDays
    ensures l.newInterval == after.intervalDays && l.prevEase == before.ease && l.newEase == after.ease
  {
    LogRow(id, now, grade, before.dueAt, after.dueAt,
           if before.intervalDays == 0 then None else Some(before.intervalDays),
           after.intervalDays, before.ease, after.ease)
  }

  /** toDto. */
  function ToReviewDto(id: CardId, r: ReviewRow): (d: ReviewDto)
    ensures d.cardId == id && d.dueAt == r.dueAt && d.intervalDays == r.intervalDays && d.ease == r.ease
    ensures d.reps == r.reps && d.lapses == r.lapses && d.lastReviewedAt == r.lastReviewedAt
  {
    ReviewDto(id, r.dueAt, r.intervalDays, r.ease, r.reps, r.lapses, r.lastReviewedAt)
  }

  /** The minutes skip postpones by: a non-positive request means 10. */
  function SkipMinutes(minutes: int): (m: int)
    ensures m >= 1
    ensures minutes > 0 ==> m == minutes
    ensures minutes <= 0 ==> m == DEFAULT_SKIP_MINUTES
  {
    if minutes <= 0 then DEFAULT_SKIP_MINUTES else minutes
  }

  // ---------------------------------------------------------------------
  // Properties of the rule
  // ---------------------------------------------------------------------

  /** Past the first two repetitions a passing answer never shortens the
      interval, because the ease is at least 1.30, as long as the rounded
      product fits in an int. */
  lemma {:induction false} IntervalGrowsOnPass(s: ReviewRow, grade: int, now: Instant)
    requires ReviewValid(s) && s.reps >= 2 && 3 <= grade <= 5
    requires s.intervalDays * s.ease < 100 * INT_MAX
    ensures Graded(s, grade, now).intervalDays >= s.intervalDays
  {
    var p := s.intervalDays * s.ease;
    assert p >= s.intervalDays * 100 by {
      MulBounds(s.intervalDays, s.ease, 100, s.ease);
    }
    var q := MathRound(p);
    assert s.intervalDays <= q <= INT_MAX;
    assert IntValue(q) == q;
  }

  /** The answers of a run of grades, all at the same moment. */
  function ReplayGrades(s: ReviewRow, grades: seq<int>, now: Instant): ReviewRow
    decreases |grades|
  {
    if grades == [] then s else ReplayGrades(Graded(s, grades[0], now), grades[1..], now)
  }

  /** The ease has no upper cap: k answers graded 5 raise it by 0.10 each,
      without bound. */
  lemma {:induction false} EaseHasNoCap(s: ReviewRow, k: nat, now: Instant)
    requires s.ease >= MIN_EASE
    ensures ReplayGrades(s, seq(k, _ => 5), now).ease == s.ease + 10 * k
    decreases k
  {
    if k > 0 {
      assert seq(k, _ => 5)[1..] == seq(k - 1, _ => 5);
      EaseHasNoCap(Graded(s, 5, now), k - 1, now);
    }
  }

  /** The rule outgrows the ease column: a new card answered 5 for the 975th
      time asks for 2.50 + 975 x 0.10 = 100.00, one step past what
      numeric(4,2) can hold, so the service refuses that answer. */
  lemma {:induction false} EaseOutgrowsColumn(now: Instant)
    ensures ReplayGrades(FirstReview(now), seq(974, _ => 5), now).ease <= MAX_STORED_EASE
    ensures ReplayGrades(FirstReview(now), seq(975, _ => 5), now).ease > MAX_STORED_EASE
  {
    EaseHasNoCap(FirstReview(now), 974, now);
    EaseHasNoCap(FirstReview(now), 975, now);
  }

  /** k lapses in a row lower the ease by 0.20 each, stopping at 1.30, and
      count k more lapses in int arithmetic. */
  lemma {:induction false} RepeatedLapsesFloor(s: ReviewRow, k: nat, now: Instant)
    requires s.ease >= MIN_EASE && INT_MIN <= s.lapses <= INT_MAX
    ensures ReplayGrades(s, seq(k, _ => 0), now).ease == Max(MIN_EASE, s.ease - LAPSE_PENALTY * k)
    ensures ReplayGrades(s, seq(k, _ => 0), now).lapses == IntValue(s.lapses + k)
    decreases k
  {
    if k > 0 {
      assert seq(k, _ => 0)[1..] == seq(k - 1, _ => 0);
      RepeatedLapsesFloor(Graded(s, 0, now), k - 1, now);
      IntValueAdd(s.lapses + 1, k - 1);
    }
  }

  /** A new card graded 5 three times: 1 day at ease 2.60, 6 days at 2.70,
      then round(6 x 2.70) = 16 days at 2.80. */
  lemma {:induction false} FirstThreeFives(now: Instant)
    ensures var a := Graded(FirstReview(now), 5, now);
            var b := Graded(a, 5, now);
            var c := Graded(b, 5, now);
            && a.intervalDays == 1 && a.ease == 260
            && b.intervalDays == 6 && b.ease == 270
            && c.intervalDays == 16 && c.ease == 280 && c.reps == 3 && c.lapses == 0
  {
    var b := Graded(Graded(FirstReview(now), 5, now), 5, now);
    assert MathRound(6 * 270) == 16;
  }

  /** Postponing a card does not change what its next answer computes: the
      rule never reads the due time. */
  lemma {:induction false} SkipThenAnswer(s: ReviewRow, minutes: int, now: Instant, grade: int, later: Instant)
    ensures Graded(s.(dueAt := PlusMinutes(now, SkipMinutes(minutes))), grade, later) == Graded(s, grade, later)
  {
  }

  // ---------------------------------------------------------------------
  // The entity and the service
  // ---------------------------------------------------------------------

  /** The Review entity: Java's null is None. A new one has no due time and
      no ease yet. */
  class Review {
    var cardId: CardId
    var dueAt: Option<Instant>
    var intervalDays: int
    var ease: Option<int>
    var reps: int
    var lapses: int
    var lastReviewedAt: Option<Instant>

    predicate Persistable()
      reads this
    {
      dueAt.Some? && ease.Some?
    }

    function Row(): (r: ReviewRow)
      reads this
      requires Persistable()
      ensures r.dueAt == dueAt.value && r.intervalDays == intervalDays && r.ease == ease.value
      ensures r.reps == reps && r.lapses == lapses && r.lastReviewedAt == lastReviewedAt
    {
      ReviewRow(dueAt.value, intervalDays, ease.value, reps, lapses, lastReviewedAt)
    }

    /** new Review() for a card: interval, repetitions and lapses 0. */
    constructor(id: CardId)
      ensures cardId == id && dueAt.None? && ease.None? && lastReviewedAt.None?
      ensures intervalDays == 0 && reps == 0 && lapses == 0
    {
      cardId := id;
      dueAt := None;
      intervalDays := 0;
      ease := None;
      reps := 0;
      lapses := 0;
      lastReviewedAt := None;
    }

    constructor Load(id: CardId, row: ReviewRow)
      ensures cardId == id && Persistable() && Row() == row
    {
      cardId := id;
      dueAt := Some(row.dueAt);
      intervalDays := row.intervalDays;
      ease := Some(row.ease);
      reps := row.reps;
      lapses := row.lapses;
      lastReviewedAt := row.lastReviewedAt;
    }

    /** @PrePersist: the due time defaults to now and the ease to 2.50, each
        only when unset. */
    method PrePersist(now: Instant)
      modifies this`dueAt, this`ease
      ensures dueAt == if old(dueAt).None? then Some(now) else old(dueAt)
      ensures ease == if old(ease).None? then Some(DEFAULT_EASE) else old(ease)
    {
      if dueAt.None? {
        dueAt := Some(now);
      }
      if ease.None? {
        ease := Some(DEFAULT_EASE);
      }
    }
  }

  /** The rule of answer on the entity, on local variables as the service
      computes it: the review afterwards is the graded answer applied to the
      state it was read in (a missing ease counting as 2.50). */
  method GradeReview(review: Review, grade: int, now: Instant, ghost before: ReviewRow)
    requires 0 <= grade <= 5 && review.dueAt.Some?
    requires before == ReviewRow(review.dueAt.value, review.intervalDays,
                                 if review.ease.None? then DEFAULT_EASE else review.ease.value,
                                 review.reps, review.lapses, review.lastReviewedAt)
    modifies review
    ensures review.Persistable() && review.Row() == Graded(before, grade, now)
  {
    var reps := review.reps;
    var ease := if review.ease.None? then DEFAULT_EASE else review.ease.value;
    var nextInterval: int;
    if grade < 3 {
      review.lapses := IntValue(review.lapses + 1);
      reps := 0;
      ease := Max(MIN_EASE, ease - LAPSE_PENALTY);
      nextInterval := 1;
    } else {
      reps := IntValue(reps + 1);
      if reps == 1 {
        nextInterval := 1;
      } else if reps == 2 {
        nextInterval := 6;
      } else {
        nextInterval := Max(1, IntValue(MathRound(review.intervalDays * ease)));
      }
      ease := ease + EaseDelta(grade);
      ease := Max(MIN_EASE, ease);
    }
    review.reps := reps;
    review.ease := Some(ease);
    review.intervalDays := nextInterval;
    review.lastReviewedAt := Some(now);
    review.dueAt := Some(PlusDays(now, nextInterval));
    review.PrePersist(now);
  }

  /** The graded review service over its three repositories: the card ids,
      the reviews by card id, and the append-only log. */
  class GradedReviewService {
    var cards: set<CardId>
    var reviews: map<CardId, ReviewRow>
    var logs: seq<LogRow>

    /** Every review belongs to a card, is within its bounds, and its ease
        fits the numeric(4,2) column. */
    predicate Valid()
      reads this
    {
      forall id :: id in reviews ==> id in cards && ReviewValid(reviews[id]) && reviews[id].ease <= MAX_STORED_EASE
    }

    constructor(cards: set<CardId>)
      ensures this.cards == cards && reviews == map[] && logs == [] && Valid()
    {
      this.cards := cards;
      reviews := map[];
      logs := [];
    }

    /** answer: a grade outside 0..5 is rejected before any lookup, then an
        unknown card; both leave everything as it was. Otherwise the card's
        review (or a new one due now) takes the graded answer and one log row
        is appended, unless the new ease exceeds 99.99: the numeric(4,2)
        column refuses it when the transaction commits, and the rollback
        leaves everything as it was. */
    method Answer(cardId: CardId, grade: int, now: Instant) returns (r: Result<ReviewDto>)
      requires Valid()
      modifies this`reviews, this`logs
      ensures Valid()
      ensures !(0 <= grade <= 5) ==> r == Err(IllegalArgument) && reviews == old(reviews) && logs == old(logs)
      ensures 0 <= grade <= 5 && cardId !in cards ==> r == Err(NoSuchElement) && reviews == old(reviews) && logs == old(logs)
      ensures 0 <= grade <= 5 && cardId in cards && Graded(ReviewBefore(old(reviews), cardId, now), grade, now).ease > MAX_STORED_EASE ==>
                r == Err(DataIntegrity) && reviews == old(reviews) && logs == old(logs)
      ensures 0 <= grade <= 5 && cardId in cards && Graded(ReviewBefore(old(reviews), cardId, now), grade, now).ease <= MAX_STORED_EASE ==>
                var before := ReviewBefore(old(reviews), cardId, now);
                var after := Graded(before, grade, now);
                && reviews == old(reviews)[cardId := after]
                && logs == old(logs) + [LogOf(cardId, grade, now, before, after)]
                && r == Ok(ToReviewDto(cardId, after))
    {
      if grade < 0 || grade > 5 {
        return Err(IllegalArgument);
      }
      if cardId !in cards {
        return Err(NoSuchElement);
      }
      var review: Review;
      if cardId in reviews {
        review := new Review.Load(cardId, reviews[cardId]);
      } else {
        review := new Review(cardId);
        review.dueAt := Some(now);
      }
      // copies for the log; a missing ease counts as 2.50
      var prevDue := review.dueAt.value;
      var prevInterval := review.intervalDays;
      var prevEase := if review.ease.None? then DEFAULT_EASE else review.ease.value;
      ghost var before := ReviewRow(prevDue, prevInterval, prevEase, review.reps, review.lapses, review.lastReviewedAt);
      assert before == ReviewBefore(old(reviews), cardId, now);
      GradeReview(review, grade, now, before);
      if review.ease.value > MAX_STORED_EASE {
        return Err(DataIntegrity);
      }
      reviews := reviews[cardId := review.Row()];
      var log := LogRow(cardId, now, grade, prevDue, review.dueAt.value,
                        if prevInterval == 0 then None else Some(prevInterval),
                        review.intervalDays, prevEase, review.ease.value);
      logs := logs + [log];
      r := Ok(ToReviewDto(cardId, review.Row()));
    }

    /** skip: postpones the card's review by the given minutes (10 when not
        positive) from now; nothing else in the review moves. An unknown
        review is an error and changes nothing. */
    method Skip(cardId: CardId, minutes: int, now: Instant) returns (r: Result<ReviewDto>)
      requires Valid()
      modifies this`reviews
      ensures Valid()
      ensures cardId !in old(reviews) ==> r == Err(NoSuchElement) && reviews == old(reviews)
      ensures cardId in old(reviews) ==>
                var s := old(reviews)[cardId].(dueAt := PlusMinutes(now, SkipMinutes(minutes)));
                reviews == old(reviews)[cardId := s] && r == Ok(ToReviewDto(cardId, s))
    {
      var m := minutes;
      if m <= 0 {
        m := DEFAULT_SKIP_MINUTES;
      }
      if cardId !in reviews {
        return Err(NoSuchElement);
      }
      var review := new Review.Load(cardId, reviews[cardId]);
      review.dueAt := Some(PlusMinutes(now, m));
      reviews := reviews[cardId := review.Row()];
      r := Ok(ToReviewDto(cardId, review.Row()));
    }

    /** get. */
    function Get(cardId: CardId): (r: Result<ReviewDto>)
      reads this
      ensures r.Err? <==> cardId !in reviews
      ensures r.Err? ==> r.error == NoSuchElement
      ensures r.Ok? ==> r.value == ToReviewDto(cardId, reviews[cardId])
    {
      if cardId !in reviews then Err(NoSuchElement) else Ok(ToReviewDto(cardId, reviews[cardId]))
    }
  }
}
