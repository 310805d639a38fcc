/** CardSrsState: the per-card scheduling state of the current review engine.
    The state is keyed by the card's own id (one state per card) and carries an
    optimistic-lock version. The ease factor is a decimal with two places and is
    held here in hundredths (2.50 is 250). */
module SrsStates {

  import opened Common

  const EASE_MIN: int := 130       // @DecimalMin("1.30")
  const EASE_MAX: int := 300       // @DecimalMax("3.00")
  const EASE_DEFAULT: int := 250   // new BigDecimal("2.50")

  /** A stored card_srs_state row, without its key (the card id). */
  datatype SrsRow = SrsRow(
    version: nat,
    dueAt: Instant,
    intervalDays: int,
    ease: int,
    repetitions: int,
    lastResult: int,
    updatedAt: Instant)

  /** The Bean Validation constraints on the entity's fields, checked whenever
      it is inserted or updated. */
  predicate RowValid(r: SrsRow) {
    && r.intervalDays >= 0
    && EASE_MIN <= r.ease <= EASE_MAX
    && r.repetitions >= 0
    && 0 <= r.lastResult <= 1
  }

  /** The entity as the service holds it: Java's null is None. */
  class CardSrsState {
    var cardId: Option<CardId>
    var version: nat
    var dueAt: Option<Instant>
    var intervalDays: int
    var easeFactor: int
    var repetitions: int
    var lastResult: int
    var updatedAt: Option<Instant>

    /** The same constraints as RowValid, on the fields. */
    predicate Valid()
      reads this
    {
      && intervalDays >= 0
      && EASE_MIN <= easeFactor <= EASE_MAX
      && repetitions >= 0
      && 0 <= lastResult <= 1
    }

    /** The non-null columns are all set. */
    predicate Persistable()
      reads this
    {
      cardId.Some? && dueAt.Some? && updatedAt.Some?
    }

    /** The row this entity writes. */
    function Row(): (r: SrsRow)
      reads this
      requires Persistable()
      ensures r.version == version && r.dueAt == dueAt.value && r.updatedAt == updatedAt.value
      ensures r.intervalDays == intervalDays && r.ease == easeFactor
      ensures r.repetitions == repetitions && r.lastResult == lastResult
      ensures RowValid(r) <==> Valid()
    {
      SrsRow(version, dueAt.value, intervalDays, easeFactor, repetitions, lastResult, updatedAt.value)
    }

    /** The no-argument constructor with the field initialisers: interval 0,
        ease 2.50, no repetitions, last result 0, version 0, and no key or
        timestamps yet. */
    constructor()
      ensures cardId.None? && version == 0 && dueAt.None? && updatedAt.None?
      ensures intervalDays == 0 && easeFactor == EASE_DEFAULT && repetitions == 0 && lastResult == 0
      ensures Valid()
    {
      cardId := None;
      version := 0;
      dueAt := None;
      intervalDays := 0;
      easeFactor := EASE_DEFAULT;
      repetitions := 0;
      lastResult := 0;
      updatedAt := None;
    }

    /** The entity a lookup by card id materialises from a stored row. */
    constructor Load(id: CardId, row: SrsRow)
      ensures cardId == Some(id) && Persistable() && Row() == row
    {
      cardId := Some(id);
      version := row.version;
      dueAt := Some(row.dueAt);
      intervalDays := row.intervalDays;
      easeFactor := row.ease;
      repetitions := row.repetitions;
      lastResult := row.lastResult;
      updatedAt := Some(row.updatedAt);
    }

    /** @PrePersist: due time and update time default to now only when unset. */
    method PrePersist(now: Instant)
      modifies this`dueAt, this`updatedAt
      ensures dueAt == if old(dueAt).None? then Some(now) else old(dueAt)
      ensures updatedAt == if old(updatedAt).None? then Some(now) else old(updatedAt)
    {
      if dueAt.None? {
        dueAt := Some(now);
      }
      if updatedAt.None? {
        updatedAt := Some(now);
      }
    }

    /** @PreUpdate: the update time is always refreshed, nothing else moves. */
    method PreUpdate(now: Instant)
      modifies this`updatedAt
      ensures updatedAt == Some(now)
    {
      updatedAt := Some(now);
    }
  }
}
