/** ReviewEvent: the audit record of one answer, with the scheduling state
    before and after it. The card is required, the session optional. */
module Events {

  import opened Common
  import opened SrsStates

  /** A stored review event row, without its key. */
  datatype EventRow = EventRow(
    sessionId: Option<SessionId>,
    cardId: CardId,
    answeredAt: Instant,
    result: int,
    elapsedMs: int,
    prevDueAt: Option<Instant>,
    newDueAt: Option<Instant>,
    prevInterval: Option<int>,
    newInterval: Option<int>,
    prevEase: Option<int>,
    newEase: Option<int>)

  predicate EaseInRange(e: Option<int>) {
    e.Some? ==> EASE_MIN <= e.value <= EASE_MAX
  }

  predicate NonNegative(n: Option<int>) {
    n.Some? ==> n.value >= 0
  }

  /** The Bean Validation constraints on the entity, checked when it is
      persisted. */
  predicate EventValid(e: EventRow) {
    && 0 <= e.result <= 1
    && e.elapsedMs >= 0
    && NonNegative(e.prevInterval) && NonNegative(e.newInterval)
    && EaseInRange(e.prevEase) && EaseInRange(e.newEase)
  }

  /** The entity as the service holds it: Java's null is None. */
  class ReviewEvent {
    var sessionId: Option<SessionId>
    var cardId: Option<CardId>
    var answeredAt: Option<Instant>
    var result: int
    var elapsedMs: int
    var prevDueAt: Option<Instant>
    var newDueAt: Option<Instant>
    var prevInterval: Option<int>
    var newInterval: Option<int>
    var prevEase: Option<int>
    var newEase: Option<int>

    /** The card is a required association and the answer time a non-null
        column. */
    predicate Persistable()
      reads this
    {
      cardId.Some? && answeredAt.Some?
    }

    function Row(): EventRow
      reads this
      requires Persistable()
    {
      EventRow(sessionId, cardId.value, answeredAt.value, result, elapsedMs,
               prevDueAt, newDueAt, prevInterval, newInterval, prevEase, newEase)
    }

    /** A new event: nothing set, result 0 and elapsed time 0. */
    constructor()
      ensures sessionId.None? && cardId.None? && answeredAt.None?
      ensures result == 0 && elapsedMs == 0
      ensures prevDueAt.None? && newDueAt.None? && prevInterval.None? && newInterval.None?
      ensures prevEase.None? && newEase.None?
    {
      sessionId := None;
      cardId := None;
      answeredAt := None;
      result := 0;
      elapsedMs := 0;
      prevDueAt := None;
      newDueAt := None;
      prevInterval := None;
      newInterval := None;
      prevEase := None;
      newEase := None;
    }

    /** @PrePersist: the answer time defaults to now only when unset. */
    method PrePersist(now: Instant)
      modifies this`answeredAt
      ensures answeredAt == if old(answeredAt).None? then Some(now) else old(answeredAt)
    {
      if answeredAt.None? {
        answeredAt := Some(now);
      }
    }
  }
}
