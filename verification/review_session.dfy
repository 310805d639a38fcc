/** ReviewSession: a study session over one deck. It is in progress while it
    has no end time, and it carries answer counters. */
module Sessions {

  import opened Common

  /** A stored review session row, without its key. */
  datatype SessionRow = SessionRow(
    deckId: DeckId,
    startedAt: Instant,
    endedAt: Option<Instant>,
    totalCards: int,
    correct: int,
    incorrect: int,
    durationSec: int)

  /** endedAt == null: the session is still in progress. */
  predicate InProgress(r: SessionRow) {
    r.endedAt.None?
  }

  /** Every answer counts once, as correct or as incorrect: the total is the
      sum of the two in Java int arithmetic, which wraps at 2^32. */
  predicate CountersAgree(r: SessionRow) {
    r.totalCards == IntValue(r.correct + r.incorrect)
  }

  /** The entity as the service holds it: Java's null is None. */
  class ReviewSession {
    var id: Option<SessionId>
    var deckId: Option<DeckId>
    var startedAt: Option<Instant>
    var endedAt: Option<Instant>
    var totalCards: int
    var correct: int
    var incorrect: int
    var durationSec: int

    /** The deck is a required association and the start time a non-null
        column. */
    predicate Persistable()
      reads this
    {
      deckId.Some? && startedAt.Some?
    }

    function Row(): (r: SessionRow)
      reads this
      requires Persistable()
      ensures r.deckId == deckId.value && r.startedAt == startedAt.value && r.endedAt == endedAt
      ensures r.totalCards == totalCards && r.correct == correct
      ensures r.incorrect == incorrect && r.durationSec == durationSec
    {
      SessionRow(deckId.value, startedAt.value, endedAt, totalCards, correct, incorrect, durationSec)
    }

    /** A new session: no id, deck or times yet, and every counter at 0. */
    constructor()
      ensures id.None? && deckId.None? && startedAt.None? && endedAt.None?
      ensures totalCards == 0 && correct == 0 && incorrect == 0 && durationSec == 0
    {
      id := None;
      deckId := None;
      startedAt := None;
      endedAt := None;
      totalCards := 0;
      correct := 0;
      incorrect := 0;
      durationSec := 0;
    }

    /** The entity a lookup by id materialises from a stored row. */
    constructor Load(key: SessionId, row: SessionRow)
      ensures id == Some(key) && Persistable() && Row() == row
    {
      id := Some(key);
      deckId := Some(row.deckId);
      startedAt := Some(row.startedAt);
      endedAt := row.endedAt;
      totalCards := row.totalCards;
      correct := row.correct;
      incorrect := row.incorrect;
      durationSec := row.durationSec;
    }

    /** @PrePersist: the start time defaults to now only when unset. */
    method PrePersist(now: Instant)
      modifies this`startedAt
      ensures startedAt == if old(startedAt).None? then Some(now) else old(startedAt)
    {
      if startedAt.None? {
        startedAt := Some(now);
      }
    }
  }
}
